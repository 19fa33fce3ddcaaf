/** What an expansion does to references: opt/inline_functions.cpp:25-45. */
module CaptureFree {
  import opened Wrappers
  import opened Store
  import opened Shapes
  import opened Copy
  import opened Substitute
  import opened Builder
  import opened Inline
  import opened Weights
  import opened InlineStep

  function IndexOf(xs: seq<Id>, x: Id): (i: nat)
    requires x in xs
    ensures i < |xs| && xs[i] == x
    decreases |xs|
  {
    if xs[0] == x then 0 else 1 + IndexOf(xs[1..], x)
  }

  /**
   The substitution an expansion stands for, in one go and without any table: a copied entity goes to
   its copy, parameter `i` to alias `i`, and at the top level the return functions to the yield ones.
   `n` is the number of entities before; aliases come first, then the copies in pre-order.
   */
  function Redirect(n: nat, p: Plan, b: Builtins, top: bool, r: Id): Id {
    if r in Pre(p.body) then n + |p.params| + IndexOf(Pre(p.body), r)
    else if r in p.params then n + IndexOf(p.params, r)
    else if top then Twin(b, r)
    else r
  }

  // A reference component of a copy against that of its source.
  ghost predicate Follows(n: nat, p: Plan, b: Builtins, top: bool, source: Option<Id>, copy: Option<Id>) {
    && (copy.Some? <==> source.Some?)
    && (copy.Some? ==> copy.value == Redirect(n, p, b, top, source.value))
  }

  ghost predicate FollowsAll(n: nat, p: Plan, b: Builtins, top: bool, source: seq<Id>, copy: seq<Id>) {
    && |copy| == |source|
    && forall i :: 0 <= i < |copy| ==> copy[i] == Redirect(n, p, b, top, source[i])
  }

  // `y` is the copy of `x`, redirected; function types and inputs are copied for what has use for them.
  ghost predicate Redirected(n: nat, p: Plan, b: Builtins, top: bool, x: Entity, y: Entity) {
    && Follows(n, p, b, top, x.links.call, y.links.call)
    && Follows(n, p, b, top, x.links.typeOf, y.links.typeOf)
    && Follows(n, p, b, top, x.links.alias, y.links.alias)
    && (y.links.returnType.Some? ==> Follows(n, p, b, top, x.links.returnType, y.links.returnType))
    && (y.links.inputs.Some? ==> x.links.inputs.Some? && FollowsAll(n, p, b, top, x.links.inputs.value, y.links.inputs.value))
    && (x.links.call.Some? ==> (y.links.inputs.Some? <==> x.links.inputs.Some?))
    && (y.block.Some? <==> x.block.Some?)
    && (y.block.Some? ==> FollowsAll(n, p, b, false, x.block.value, y.block.value))
    && x.parent.Some?
    && y.parent == Some(if x.parent.value == p.fd then p.e else Redirect(n, p, b, false, x.parent.value))
  }

  lemma {:induction false} ParamsOutside(s: Store, t: Store, w: seq<nat>, b: Builtins, p: Plan, r: Id)
    requires Step(s, t, w, b, p) && r in p.params
    ensures r !in Ids(p.body)
  {
    StepTables(s, t, w, b, p);
    StepShaped(s, t, w, b, p);
    hide Step;
    var i :| 0 <= i < |p.params| && p.params[i] == r;
    NotSelected(s, t, w, b, p, r);
  }

  // A parameter of the function is not part of what is copied: it is not selected, and nothing below lists it.
  lemma {:induction false} NotSelected(s: Store, t: Store, w: seq<nat>, b: Builtins, p: Plan, r: Id)
    requires Step(s, t, w, b, p) && r < |s| && s[r].data.param.Some? && r in Children(s, p.fd)
    ensures r !in Ids(p.body)
  {
    StepShaped(s, t, w, b, p);
    assert Good(s, w, b, p.fd);
    var i :| 0 <= i < |Children(s, p.fd)| && Children(s, p.fd)[i] == r;
    if r in Ids(p.body) {
      NonParamsMember(s, Children(s, p.fd), r);
      DeepParent(s, p.body, p.fd, r);
    }
  }

  lemma {:induction false} RedirectIsRef(s: Store, t: Store, w: seq<nat>, b: Builtins, p: Plan, top: bool, r: Id)
    requires Step(s, t, w, b, p)
    ensures Ref(p, top, r) == Redirect(|s|, p, b, top, r)
    ensures r in Ids(p.body) ==> Sub(p.subs, r) == |s| + |p.args| + IndexOf(Pre(p.body), r)
    ensures r in Ids(p.body) <==> r in Pre(p.body)
  {
    PreIds(p.body, r);
    StepTables(s, t, w, b, p);
    if r in Ids(p.body) {
      CopyNumber(s, t, w, b, p, r);
      StepFresh(s, t, w, b, p, r);
    } else {
      StepOutside(s, t, w, b, p, r);
      hide Step;
      if r in p.params {
        var i := IndexOf(p.params, r);
        assert p.params[i] == r;
        RefParam(p, b, s, i, r);
      }
    }
  }

  lemma {:induction false} CopyNumber(s: Store, t: Store, w: seq<nat>, b: Builtins, p: Plan, r: Id)
    requires Step(s, t, w, b, p) && r in Pre(p.body)
    ensures Sub(p.subs, r) == |s| + |p.args| + IndexOf(Pre(p.body), r)
  {
    hide Inv, PlanFor, Marked;
    var i := IndexOf(Pre(p.body), r);
    assert Pre(p.body)[i] == r;
  }

  /**
   Expanding a call is a simultaneous substitution without capture: every reference a copied entity
   holds is the redirected reference of its source, whatever the order of the rewritings.
   */
  lemma {:induction false} ExpansionSubstitutes(s: Store, t: Store, w: seq<nat>, b: Builtins, p: Plan, x: Id)
    requires Step(s, t, w, b, p) && x in Ids(p.body)
    ensures x in Pre(p.body) && x < |s| && |s| + |p.args| + IndexOf(Pre(p.body), x) < |t|
    ensures Redirected(|s|, p, b, x in Roots(p.body), s[x], t[|s| + |p.args| + IndexOf(Pre(p.body), x)])
  {
    hide *;
    StepShaped(s, t, w, b, p);
    StepCopyKinded(s, t, w, b, p, x);
    RedirectIsRef(s, t, w, b, p, false, x);
    var top, y := x in Roots(p.body), t[Sub(p.subs, x)];
    FollowsRef(s, t, w, b, p, top, s[x].links.call);
    FollowsRef(s, t, w, b, p, top, s[x].links.typeOf);
    FollowsRef(s, t, w, b, p, top, s[x].links.alias);
    FollowsRef(s, t, w, b, p, top, s[x].links.returnType);
    CopiedLinks(s, t, w, b, p, x);
    if y.links.inputs.Some? { FollowsRefs(s, t, w, b, p, top, s[x].links.inputs.value, y.links.inputs.value); }
    CopiedBlock(s, t, w, b, p, x);
    CopiedParent(s, t, w, b, p, x);
    RedirectedIntro(|s|, p, b, top, s[x], y);
  }

  lemma {:induction false} RedirectedIntro(n: nat, p: Plan, b: Builtins, top: bool, x: Entity, y: Entity)
    requires Follows(n, p, b, top, x.links.call, y.links.call)
    requires Follows(n, p, b, top, x.links.typeOf, y.links.typeOf)
    requires Follows(n, p, b, top, x.links.alias, y.links.alias)
    requires y.links.returnType.Some? ==> Follows(n, p, b, top, x.links.returnType, y.links.returnType)
    requires y.links.inputs.Some? ==> x.links.inputs.Some? && FollowsAll(n, p, b, top, x.links.inputs.value, y.links.inputs.value)
    requires x.links.call.Some? ==> (y.links.inputs.Some? <==> x.links.inputs.Some?)
    requires (y.block.Some? <==> x.block.Some?) && (y.block.Some? ==> FollowsAll(n, p, b, false, x.block.value, y.block.value))
    requires x.parent.Some? && y.parent == Some(if x.parent.value == p.fd then p.e else Redirect(n, p, b, false, x.parent.value))
    ensures Redirected(n, p, b, top, x, y)
  {}

  lemma {:induction false} StepCopyKinded(s: Store, t: Store, w: seq<nat>, b: Builtins, p: Plan, x: Id)
    requires Step(s, t, w, b, p) && x in Ids(p.body)
    ensures x < |s| && Kinded(s[x]) && |s| <= Sub(p.subs, x) < |t|
    ensures var y, top := t[Sub(p.subs, x)], x in Roots(p.body);
      && y.links.alias == RefOpt(p, top, s[x].links.alias)
      && y.links.typeOf == RefOpt(p, top, s[x].links.typeOf)
      && y.links.call == RefOpt(p, top, s[x].links.call)
  {
    StepShaped(s, t, w, b, p);
    assert Good(s, w, b, x);
    CopyFields(s, t, p, x);
  }

  lemma {:induction false} FollowsRef(s: Store, t: Store, w: seq<nat>, b: Builtins, p: Plan, top: bool, source: Option<Id>)
    requires Step(s, t, w, b, p)
    ensures Follows(|s|, p, b, top, source, RefOpt(p, top, source))
  {
    if source.Some? { RedirectIsRef(s, t, w, b, p, top, source.value); }
  }

  lemma {:induction false} FollowsRefs(s: Store, t: Store, w: seq<nat>, b: Builtins, p: Plan, top: bool, source: seq<Id>, copy: seq<Id>)
    requires Step(s, t, w, b, p) && |copy| == |source|
    requires forall i :: 0 <= i < |source| ==> copy[i] == Ref(p, top, source[i])
    ensures FollowsAll(|s|, p, b, top, source, copy)
  {
    hide Step, Redirect, Ref;
    forall i | 0 <= i < |copy| ensures copy[i] == Redirect(|s|, p, b, top, source[i]) {
      RedirectIsRef(s, t, w, b, p, top, source[i]);
    }
  }

  lemma {:induction false} CopiedLinks(s: Store, t: Store, w: seq<nat>, b: Builtins, p: Plan, x: Id)
    requires Step(s, t, w, b, p) && x in Ids(p.body) && x < |s| && Sub(p.subs, x) < |t| && Kinded(s[x])
    ensures var k, k', top := s[x].links, t[Sub(p.subs, x)].links, x in Roots(p.body);
      && (k'.returnType.Some? ==> k'.returnType == RefOpt(p, top, k.returnType))
      && (k'.inputs.Some? ==> k.inputs.Some? && |k'.inputs.value| == |k.inputs.value|)
      && (k'.inputs.Some? ==> forall i :: 0 <= i < |k.inputs.value| ==> k'.inputs.value[i] == Ref(p, top, k.inputs.value[i]))
      && (k.call.Some? ==> (k'.inputs.Some? <==> k.inputs.Some?))
  {
    hide Inv, PlanFor, Marked;
  }

  // Inside a copy, child lists and parents only name copies.
  lemma {:induction false} CopiedBlock(s: Store, t: Store, w: seq<nat>, b: Builtins, p: Plan, x: Id)
    requires Step(s, t, w, b, p) && x in Ids(p.body) && x < |s| && Sub(p.subs, x) < |t|
    ensures var y := t[Sub(p.subs, x)];
            && (y.block.Some? <==> s[x].block.Some?)
            && (y.block.Some? ==> FollowsAll(|s|, p, b, false, s[x].block.value, y.block.value))
  {
    StepShaped(s, t, w, b, p);
    assert Good(s, w, b, x);
    CopyFields(s, t, p, x);
    hide Step, Good, Redirect, Ref, Kinded;
    if s[x].block.Some? {
      var xs := s[x].block.value;
      forall i | 0 <= i < |xs| ensures Sub(p.subs, xs[i]) == Redirect(|s|, p, b, false, xs[i]) {
        ChildrenInIds(s, p.body, x, xs[i]);
        CopyNumbered(s, t, w, b, p, xs[i]);
      }
    }
  }

  lemma {:induction false} CopyNumbered(s: Store, t: Store, w: seq<nat>, b: Builtins, p: Plan, r: Id)
    requires Step(s, t, w, b, p) && r in Ids(p.body)
    ensures Sub(p.subs, r) == Redirect(|s|, p, b, false, r)
  {
    RedirectIsRef(s, t, w, b, p, false, r);
    StepTables(s, t, w, b, p);
  }

  lemma {:induction false} CopiedParent(s: Store, t: Store, w: seq<nat>, b: Builtins, p: Plan, x: Id)
    requires Step(s, t, w, b, p) && x in Ids(p.body) && x < |s| && Sub(p.subs, x) < |t|
    ensures s[x].parent.Some?
    ensures t[Sub(p.subs, x)].parent ==
              Some(if s[x].parent.value == p.fd then p.e else Redirect(|s|, p, b, false, s[x].parent.value))
  {
    StepShaped(s, t, w, b, p);
    assert Good(s, w, b, x);
    CopyFields(s, t, p, x);
    ParentInside(s, p.body, p.fd, x);
    hide Step, Good, Redirect, Ref, Kinded;
    if s[x].parent.value != p.fd { CopyNumbered(s, t, w, b, p, s[x].parent.value); }
  }

  /**
   A reference to parameter `i` resolves through its alias to what argument `i` resolved to, or to what its twin
   did: the second rewriting reaches the aliases as well.
   */
  lemma {:induction false} ParameterResolvesToArgument(s: Store, t: Store, w: seq<nat>, b: Builtins, p: Plan, i: nat, top: bool)
    requires Step(s, t, w, b, p) && i < |p.args| && Resolve(s, Twin(b, p.args[i])).Some?
    ensures |p.params| == |p.args| && Redirect(|s|, p, b, top, p.params[i]) == |s| + i
    ensures Resolve(t, |s| + i) == Resolve(s, Twin(b, p.args[i]))
  {
    hide *;
    ParamRedirect(s, t, w, b, p, i, top);
    AliasTarget(s, t, w, b, p, i);
    StepSame(s, t, w, b, p);
    ResolveThrough(s, t, p.e, |s| + i, Twin(b, p.args[i]));
  }

  lemma {:induction false} BuiltinResolves(s: Store, t: Store, w: seq<nat>, b: Builtins, p: Plan, r: Id)
    requires Step(s, t, w, b, p)
    ensures r == b.indicateReturn || r == b.returnRegister <==> Twin(b, r) != r
    ensures Twin(b, r) != r ==> Resolve(s, r) == Some(r) && Resolve(s, Twin(b, r)) == Some(Twin(b, r))
  {
    StepTwin(s, t, w, b, p, r);
    var pairs := ReturnPairs(b);
    assert Keyed(pairs, |s|) && pairs[0].1 != pairs[0].0 && pairs[1].1 != pairs[1].0;
    hide Step;
  }

  /**
   The alias of a parameter resolves to what the argument did if and only if the argument is not one of the two
   functions that are exchanged: those are exchanged as arguments too.
   */
  lemma {:induction false} ArgumentKeptIff(s: Store, t: Store, w: seq<nat>, b: Builtins, p: Plan, i: nat)
    requires Step(s, t, w, b, p) && i < |p.args| && Resolve(s, p.args[i]).Some?
    ensures Resolve(t, |s| + i) == Resolve(s, p.args[i]) <==> p.args[i] != b.indicateReturn && p.args[i] != b.returnRegister
  {
    hide *;
    BuiltinResolves(s, t, w, b, p, p.args[i]);
    ParameterResolvesToArgument(s, t, w, b, p, i, false);
  }

  lemma {:induction false} ParamRedirect(s: Store, t: Store, w: seq<nat>, b: Builtins, p: Plan, i: nat, top: bool)
    requires Step(s, t, w, b, p) && i < |p.args|
    ensures |p.params| == |p.args| && Redirect(|s|, p, b, top, p.params[i]) == |s| + i
  {
    StepTables(s, t, w, b, p);
    ParamIndex(s, t, w, b, p, i);
    ParamsOutside(s, t, w, b, p, p.params[i]);
    PreIds(p.body, p.params[i]);
    hide Step;
  }

  lemma {:induction false} AliasTarget(s: Store, t: Store, w: seq<nat>, b: Builtins, p: Plan, i: nat)
    requires Step(s, t, w, b, p) && i < |p.args|
    ensures |s| + i < |t| && Twin(b, p.args[i]) < |s| && t[|s| + i].links.alias == Some(Twin(b, p.args[i]))
  {
    StepTables(s, t, w, b, p);
    StepAlias(s, t, w, b, p, i);
    ArgTwin(s, t, w, b, p, i);
    hide Step, Twin;
  }

  lemma {:induction false} ResolveThrough(s: Store, t: Store, e: Id, a: Id, q: Id)
    requires Same(s, t, e) && AliasesIn(s) && |s| <= a < |t| && q < |s| && t[a].links.alias == Some(q) && Resolve(s, q).Some?
    ensures Resolve(t, a) == Resolve(s, q)
  {
    OldResolve(s, t, e, q, |s|);
    ResolveMore(t, q, |s|, |t| - 1);
  }

  lemma {:induction false} ArgTwin(s: Store, t: Store, w: seq<nat>, b: Builtins, p: Plan, i: nat)
    requires Step(s, t, w, b, p) && i < |p.args| == |p.params|
    ensures p.args[i] < |s| && Twin(b, p.args[i]) < |s| && Sub(p.ret, Sub(p.par, p.args[i])) == Twin(b, p.args[i])
  {
    StepShaped(s, t, w, b, p);
    StepTables(s, t, w, b, p);
    StepTwin(s, t, w, b, p, p.args[i]);
    var q := p.args[i];
    assert q < |s| && !ParamOf(s, p.fd, q);
    assert q !in p.params;
  }

  lemma {:induction false} ParamIndex(s: Store, t: Store, w: seq<nat>, b: Builtins, p: Plan, i: nat)
    requires Step(s, t, w, b, p) && i < |p.params|
    ensures p.params[i] in p.params && IndexOf(p.params, p.params[i]) == i
  {
    StepTables(s, t, w, b, p);
    hide Step;
    var j := IndexOf(p.params, p.params[i]);
    assert p.params[j] == p.params[i];
  }

  /**
   Pointers are the exception: the rewritings pass them over, so the base of a copied pointer is
   redirected exactly when it is not a parameter and not one of the exchanged functions at the top level.
   */
  lemma {:induction false} PointersAreNotRewritten(s: Store, t: Store, w: seq<nat>, b: Builtins, p: Plan, x: Id)
    requires Step(s, t, w, b, p) && x in Ids(p.body)
    ensures x < |s| && |s| <= Sub(p.subs, x) < |t|
    ensures var y, top := t[Sub(p.subs, x)], x in Roots(p.body);
      y.links.pointer.Some? ==>
        (s[x].links.pointer.Some? &&
         var base := s[x].links.pointer.value.base;
         (y.links.pointer.value.base == Redirect(|s|, p, b, top, base) <==>
          (base !in p.params && (top && base !in Ids(p.body) ==> Twin(b, base) == base))))
  {
    StepShaped(s, t, w, b, p);
    CopiedPointer(s, t, w, b, p, x);
    var y := t[Sub(p.subs, x)];
    if y.links.pointer.Some? {
      var base := s[x].links.pointer.value.base;
      RedirectIsRef(s, t, w, b, p, x in Roots(p.body), base);
      if base in p.params {
        ParamsOutside(s, t, w, b, p, base);
        ParamIsOld(s, t, w, b, p, base);
      }
      if base !in Ids(p.body) { StepOutside(s, t, w, b, p, base); }
      hide Step, Ref;
    }
  }

  lemma {:induction false} ParamIsOld(s: Store, t: Store, w: seq<nat>, b: Builtins, p: Plan, r: Id)
    requires Step(s, t, w, b, p) && r in p.params
    ensures r < |s|
  {
    StepTables(s, t, w, b, p);
    hide Step;
    var i :| 0 <= i < |p.params| && p.params[i] == r;
  }

  lemma {:induction false} CopiedPointer(s: Store, t: Store, w: seq<nat>, b: Builtins, p: Plan, x: Id)
    requires Step(s, t, w, b, p) && x in Ids(p.body)
    ensures x < |s| && |s| <= Sub(p.subs, x) < |t|
    ensures var y := t[Sub(p.subs, x)];
            y.links.pointer.Some? ==> s[x].links.pointer.Some? && y.links.pointer.value.base == Sub(p.subs, s[x].links.pointer.value.base)
  {
    hide Inv, PlanFor, Marked;
  }
}
