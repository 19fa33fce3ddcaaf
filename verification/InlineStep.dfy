/** One expansion keeps the invariant of the inlining pass, and every weight. */
module InlineStep {
  import opened Wrappers
  import opened Store
  import opened Shapes
  import opened Copy
  import opened Substitute
  import opened Builder
  import opened Inline
  import opened Weights

  // One expansion of a marked call in a module that meets the invariant.
  ghost predicate Step(s: Store, t: Store, w: seq<nat>, b: Builtins, p: Plan) {
    && Inv(s, w, b) && p.e < |s| && Marked(s, p.e) && p.fd < |s|
    && PlanFor(s, p, Body(s, w, b, p.fd), b) && Inlined(s, t, p)
  }

  // The old weights, one for each alias, and for each copy the weight of its source.
  function NewWeights(w: seq<nat>, p: Plan): (v: seq<nat>)
    requires forall x :: x in Ids(p.body) ==> x < |w|
    ensures |v| == |w| + |p.args| + Size(p.body)
  {
    w + seq(|p.args|, _ => 1) + seq(Size(p.body), i requires 0 <= i < Size(p.body) =>
      (PreIds(p.body, Pre(p.body)[i]); w[Pre(p.body)[i]]))
  }

  // ---------- what stays as it was ----------

  // From `s` to `t` only the marked call `e` changed, and `t` may have more entities.
  ghost predicate Same(s: Store, t: Store, e: Id) {
    && e < |s| <= |t|
    && (forall y {:trigger t[y]} :: 0 <= y < |s| && y != e ==> t[y] == s[y])
    && s[e].links.call.Some? && s[e].links.alias.None? && t[e].links.alias.None?
    && t[e].data.param == s[e].data.param
    && (forall y: Id :: y < |s| && e in Children(s, y) ==> t[e].parent == Some(y))
  }

  ghost predicate AliasesIn(s: Store) {
    forall y {:trigger s[y]} :: 0 <= y < |s| && s[y].links.alias.Some? ==> s[y].links.alias.value < |s|
  }

  lemma {:induction false} OldResolve(s: Store, t: Store, e: Id, r: Id, k: nat)
    requires Same(s, t, e) && AliasesIn(s) && r < |s|
    ensures ResolveIn(t, r, k) == ResolveIn(s, r, k)
    decreases k
  {
    if r != e && s[r].links.alias.Some? && k > 0 { OldResolve(s, t, e, s[r].links.alias.value, k - 1); }
  }

  lemma {:induction false} ResolveStart(s: Store, r: Id, k: nat)
    requires ResolveIn(s, r, k).Some? && ResolveIn(s, r, k).value < |s|
    ensures r < |s|
  {}

  lemma {:induction false} OldCallee(s: Store, t: Store, e: Id, y: Id)
    requires Same(s, t, e) && AliasesIn(s) && y < |s| && y != e && Marked(s, e)
    requires s[y].links.call.Some? ==> Resolve(s, s[y].links.call.value).Some? && Function(s, Callee(s, y))
    ensures s[y].links.call.Some? ==> Resolve(t, t[y].links.call.value) == Resolve(s, s[y].links.call.value)
    ensures Callee(t, y) == Callee(s, y)
    ensures Marked(t, y) == Marked(s, y)
  {
    if s[y].links.call.Some? {
      var c := s[y].links.call.value;
      ResolveStart(s, c, |s|);
      OldResolve(s, t, e, c, |s|);
      ResolveMore(t, c, |s|, |t|);
      assert s[Callee(s, y)].links.typeOf.value != e;
    }
  }

  // A function keeps its type, and that type stays unmarked.
  lemma {:induction false} OldFunction(s: Store, t: Store, e: Id, fd: Id)
    requires Same(s, t, e) && AliasesIn(s) && Marked(s, e) && Function(s, fd)
    requires var ft := s[fd].links.typeOf.value;
             s[ft].links.call.Some? ==> Resolve(s, s[ft].links.call.value).Some? && Function(s, Callee(s, ft))
    ensures fd != e && t[fd] == s[fd] && Function(t, fd)
    ensures t[s[fd].links.typeOf.value] == s[s[fd].links.typeOf.value]
  {
    var ft := s[fd].links.typeOf.value;
    assert ft != e;
    OldCallee(s, t, e, ft);
  }

  lemma {:induction false} OldNonParams(s: Store, t: Store, e: Id, xs: seq<Id>)
    requires Same(s, t, e) && InRange(xs, |s|)
    ensures NonParams(t, xs) == NonParams(s, xs) && forall i :: ParamIn(t, xs, i) == ParamIn(s, xs, i)
    decreases |xs|
  {
    if xs != [] { OldNonParams(s, t, e, xs[1..]); }
  }

  lemma {:induction false} NonParamsInRange(s: Store, xs: seq<Id>, n: nat)
    requires InRange(xs, n)
    ensures InRange(NonParams(s, xs), n)
    decreases |xs|
  {
    if xs != [] { NonParamsInRange(s, xs[1..], n); }
  }

  lemma {:induction false} OldWeight(w: seq<nat>, v: seq<nat>, xs: seq<Id>)
    requires |w| <= |v| && (forall i {:trigger v[i]} :: 0 <= i < |w| ==> v[i] == w[i]) && InRange(xs, |w|)
    ensures Weight(v, xs) == Weight(w, xs)
  {
    WeightEqual(v, xs, w, xs);
  }

  lemma {:induction false} OwnsRange(s: Store, y: Id)
    requires OwnsChildren(s, y)
    ensures InRange(Children(s, y), |s|)
  {}

  // An entity other than the expanded one stays good.
  lemma {:induction false} OldGood(s: Store, t: Store, w: seq<nat>, v: seq<nat>, b: Builtins, e: Id, y: Id)
    requires Same(s, t, e) && AliasesIn(s) && y != e && |w| == |s| && Good(s, w, b, y)
    requires |v| == |t| && forall i {:trigger v[i]} :: 0 <= i < |w| ==> v[i] == w[i]
    requires forall z: Id {:trigger OwnsChildren(s, z)} :: z < |s| ==> OwnsChildren(s, z)
    requires Marked(s, y) ==> Twin(b, Callee(s, y)) < |s| && e != Twin(b, Callee(s, y))
    requires Marked(s, e) && forall z: Id {:trigger Regular(s, b, z)} :: z < |s| ==> Regular(s, b, z)
    ensures Good(t, v, b, y)
  {
    OldCallee(s, t, e, y);
    if s[y].links.call.Some? {
      assert Regular(s, b, s[Callee(s, y)].links.typeOf.value);
      OldFunction(s, t, e, Callee(s, y));
    }
    assert Kinded(t[y]);
    assert OwnsChildren(t, y) by { OldOwns(s, t, e, y); }
    assert Marked(t, y) ==> Expandable(t, b, y) by { if Marked(s, y) { OldExpandable(s, t, b, e, y); } }
    assert Valued(t, v, y) by { OldValued(s, t, w, v, b, e, y); }
    assert s[y].links.call.Some? ==> Function(t, Callee(t, y));
  }

  lemma {:induction false} OldOwns(s: Store, t: Store, e: Id, y: Id)
    requires Same(s, t, e) && y < |s| && y != e && OwnsChildren(s, y)
    ensures OwnsChildren(t, y)
  {
    var xs := Children(s, y);
    forall i | 0 <= i < |xs| ensures t[xs[i]].parent == Some(y) {
      assert xs[i] in xs;
      if xs[i] != e { assert t[xs[i]] == s[xs[i]]; }
    }
  }

  lemma {:induction false} OldExpandable(s: Store, t: Store, b: Builtins, e: Id, y: Id)
    requires Same(s, t, e) && AliasesIn(s) && y < |s| && y != e && Expandable(s, b, y) && Callee(t, y) == Callee(s, y)
    requires forall z: Id {:trigger OwnsChildren(s, z)} :: z < |s| ==> OwnsChildren(s, z)
    requires Function(s, Callee(s, y)) && e != Twin(b, Callee(s, y)) && Twin(b, Callee(s, y)) < |s|
    ensures Expandable(t, b, y)
  {
    hide Callee, ParamOf, OwnsChildren, ParamIn, AliasesIn;
    var fd := Callee(s, y);
    assert OwnsChildren(s, fd) && OwnsChildren(s, Twin(b, fd));
    OwnsRange(s, fd);
    OldNonParams(s, t, e, Children(s, fd));
    assert t[fd] == s[fd] && t[y] == s[y];
    assert Children(t, fd) == Children(s, fd) && Args(t, y) == Args(s, y);
    forall i | 0 <= i < |Args(s, y)| ensures Args(s, y)[i] < |t| && !ParamOf(t, fd, Args(s, y)[i]) && !ParamOf(t, Twin(b, fd), Args(s, y)[i]) {
      OldParamOf(s, t, e, fd, Args(s, y)[i]);
      OldParamOf(s, t, e, Twin(b, fd), Args(s, y)[i]);
    }
  }

  lemma {:induction false} OldParamOf(s: Store, t: Store, e: Id, fd: Id, q: Id)
    requires Same(s, t, e) && fd != e && fd < |s| && OwnsChildren(s, fd) && !ParamOf(s, fd, q)
    requires fd < |s|
    ensures !ParamOf(t, fd, q)
  {
    if q in Children(t, fd) {
      assert q in Children(s, fd);
      var i :| 0 <= i < |Children(s, fd)| && Children(s, fd)[i] == q;
    }
  }

  lemma {:induction false} OldValued(s: Store, t: Store, w: seq<nat>, v: seq<nat>, b: Builtins, e: Id, y: Id)
    requires Same(s, t, e) && y < |s| && y != e && |w| == |s| && Valued(s, w, y)
    requires |v| == |t| && forall i {:trigger v[i]} :: 0 <= i < |w| ==> v[i] == w[i]
    requires forall z: Id {:trigger OwnsChildren(s, z)} :: z < |s| ==> OwnsChildren(s, z)
    requires Callee(t, y) == Callee(s, y) && Marked(t, y) == Marked(s, y)
    requires Marked(s, y) ==> Callee(s, y) < |s| && Callee(s, y) != e
    ensures Valued(t, v, y)
  {
    hide Marked, Callee;
    if Marked(s, y) {
      var fd := Callee(s, y);
      assert OwnsChildren(s, fd);
      OldNonParams(s, t, e, Children(s, fd));
      NonParamsInRange(s, Children(s, fd), |s|);
    } else {
      assert OwnsChildren(s, y);
    }
    OldWeight(w, v, Kids(s, y));
  }

  // ---------- what a copy looks like ----------

  // Where a reference of a copied entity leads after the copying and the rewritings.
  function Ref(p: Plan, top: bool, r: Id): Id {
    var q := Sub(p.par, Sub(p.subs, r));
    if top then Sub(p.ret, q) else q
  }

  function RefOpt(p: Plan, top: bool, r: Option<Id>): Option<Id> {
    if r.Some? then Some(Ref(p, top, r.value)) else None
  }

  lemma {:induction false} CopyFields(s: Store, t: Store, p: Plan, x: Id)
    requires Inlined(s, t, p) && x in Ids(p.body)
    ensures x < |s| && |s| <= Sub(p.subs, x) < |t|
    ensures Kinded(s[x]) ==>
      var y, top := t[Sub(p.subs, x)], x in Roots(p.body);
      && y.links.alias == RefOpt(p, top, s[x].links.alias)
      && y.links.typeOf == RefOpt(p, top, s[x].links.typeOf)
      && y.links.call == RefOpt(p, top, s[x].links.call)
      && y.data.param == s[x].data.param && y.data.flags == s[x].data.flags
      && y.block == SubOptIds(p.subs, s[x].block)
      && y.parent == Some(NewParent(s[x].parent, p.subs, p.fd, p.e))
      && Kinded(y)
  {
    hide NewParent, Numbered, ArgName, AliasEntity, SubIds, Sub;
  }

  lemma {:induction false} CopyArgs(s: Store, t: Store, p: Plan, x: Id)
    requires Inlined(s, t, p) && x in Ids(p.body) && x < |s| && Kinded(s[x]) && s[x].links.call.Some?
    ensures var y := Sub(p.subs, x);
            && y < |t| && |Args(t, y)| == |Args(s, x)| && t[y].links.inputs.Some? == s[x].links.inputs.Some?
            && forall i :: 0 <= i < |Args(s, x)| ==> Args(t, y)[i] == Ref(p, x in Roots(p.body), Args(s, x)[i])
  {}

  // ---------- facts about one step ----------

  ghost predicate Shaped(s: Store, p: Plan) {
    && p.e < |s| && p.fd < |s| && p.e != p.fd
    && Rep(s, p.body) && NoDup(p.body) && Parents(s, p.body, p.fd)
    && p.fd !in Ids(p.body) && p.e !in Ids(p.body)
    && (forall x {:trigger x in Ids(p.body)} :: x in Ids(p.body) ==> x < |s|)
    && Roots(p.body) == NonParams(s, Children(s, p.fd))
  }

  lemma {:induction false} SelectedRoots(s: Store, f: Forest)
    ensures Roots(Selected(s, f, true)) == NonParams(s, Roots(f))
    decreases f
  {
    if f.Cons? {
      SelectedRoots(s, f.rest);
      assert Roots(f)[1..] == Roots(f.rest);
    }
  }

  lemma {:induction false} StepShaped(s: Store, t: Store, w: seq<nat>, b: Builtins, p: Plan)
    requires Step(s, t, w, b, p)
    ensures Shaped(s, p) && Function(s, p.fd) && p.fd == Callee(s, p.e) && p.args == Args(s, p.e) && Expandable(s, b, p.e)
  {
    assert Good(s, w, b, p.e);
    BodyShape(s, w, b, p.fd);
    CallOutsideBody(s, w, b, p.e, Body(s, w, b, p.fd));
    hide Good, Inlined, Marked, Expandable, Function, Twins, Callee, Args;
    var kids := Body(s, w, b, p.fd);
    SelectedShape(s, kids, true, p.fd);
    SelectedRoots(s, kids);
    forall x | x in Ids(p.body) ensures x < |s| { RepInStore(s, p.body, x); }
  }

  lemma {:induction false} StepTables(s: Store, t: Store, w: seq<nat>, b: Builtins, p: Plan)
    requires Step(s, t, w, b, p)
    ensures |p.par| == |p.ret| == |s| && |p.args| == |p.params|
    ensures forall r :: Sub(p.ret, r) == Twin(b, r)
    ensures forall r :: r in p.params <==> exists i :: 0 <= i < |p.params| && p.params[i] == r
    ensures forall i {:trigger p.params[i]} :: 0 <= i < |p.params| ==>
              p.params[i] < |s| && s[p.params[i]].data.param.Some? && p.params[i] in Children(s, p.fd)
              && Sub(p.par, p.params[i]) == |s| + i
    ensures forall r :: r !in p.params ==> Sub(p.par, r) == r
  {
    hide Inv, Inlined, Marked, Callee;
    forall i {:trigger p.params[i]} | 0 <= i < |p.params|
      ensures p.params[i] < |s| && s[p.params[i]].data.param.Some? && p.params[i] in Children(s, p.fd)
      ensures Sub(p.par, p.params[i]) == |s| + i
    {
      ParamInMember(s, Children(s, p.fd), i);
    }
  }

  lemma {:induction false} StepSame(s: Store, t: Store, w: seq<nat>, b: Builtins, p: Plan)
    requires Step(s, t, w, b, p)
    ensures Same(s, t, p.e) && AliasesIn(s)
    ensures t[p.e].links.call.None?
  {
    assert Good(s, w, b, p.e);
    forall y {:trigger s[y]} | 0 <= y < |s| && s[y].links.alias.Some? ensures s[y].links.alias.value < |s| {
      assert Good(s, w, b, y);
    }
    StepTables(s, t, w, b, p);
    forall y: Id | y < |s| && p.e in Children(s, y) ensures t[p.e].parent == Some(y) {
      CallsParent(s, w, b, p.e, y);
    }
  }

  // The block that lists a call is neither a parameter nor one of the exchanged functions.
  lemma {:induction false} CallsParent(s: Store, w: seq<nat>, b: Builtins, e: Id, y: Id)
    requires Inv(s, w, b) && e < |s| && s[e].links.call.Some? && y < |s| && e in Children(s, y)
    ensures s[e].parent == Some(y) && Twin(b, y) == y && s[y].data.param.None?
  {
    assert Good(s, w, b, e) && Good(s, w, b, y);
    NonParamsMember(s, Children(s, y), e);
  }

  // ---------- references of copies ----------

  // The functions a call may refer to after the expansion in place of `fd`.
  ghost predicate Image(p: Plan, b: Builtins, fd: Id, fd': Id) {
    fd' == fd || fd' == Twin(b, fd) || (fd in Ids(p.body) && fd' == Sub(p.subs, fd))
  }

  lemma {:induction false} StepTwin(s: Store, t: Store, w: seq<nat>, b: Builtins, p: Plan, fd: Id)
    requires Step(s, t, w, b, p)
    ensures Twin(b, fd) != fd ==> fd < |s| && Twins(s, fd, Twin(b, fd))
    ensures Twin(b, Twin(b, fd)) == Twin(b, fd)
  {
    var pairs := ReturnPairs(b);
    assert pairs[0].1 != pairs[0].0 && pairs[0].1 != pairs[1].0 && pairs[1].1 != pairs[0].0 && pairs[1].1 != pairs[1].0;
  }

  // A reference to anything but a parameter leads to the copy, to the old entity or to its twin.
  lemma {:induction false} RefCases(s: Store, t: Store, w: seq<nat>, b: Builtins, p: Plan, top: bool, r: Id)
    requires Step(s, t, w, b, p) && (r < |s| ==> s[r].data.param.None?)
    ensures r in Ids(p.body) ==> Ref(p, top, r) == Sub(p.subs, r) && |s| <= Sub(p.subs, r) < |t|
    ensures r !in Ids(p.body) ==> Ref(p, top, r) == if top then Twin(b, r) else r
  {
    StepTables(s, t, w, b, p);
    if r in Ids(p.body) {
      StepFresh(s, t, w, b, p, r);
    } else {
      StepOutside(s, t, w, b, p, r);
    }
  }

  lemma {:induction false} StepFresh(s: Store, t: Store, w: seq<nat>, b: Builtins, p: Plan, r: Id)
    requires Step(s, t, w, b, p) && r in Ids(p.body)
    ensures r < |s| <= |s| + |p.args| <= Sub(p.subs, r) < |t| && Twin(b, Sub(p.subs, r)) == Sub(p.subs, r)
  {
    hide Marked, Body, Good, PlanFor;
  }

  lemma {:induction false} StepOutside(s: Store, t: Store, w: seq<nat>, b: Builtins, p: Plan, r: Id)
    requires Step(s, t, w, b, p) && r !in Ids(p.body)
    ensures Sub(p.subs, r) == r
  {
    hide Marked, Body, Good, PlanFor, Inv;
  }

  lemma {:induction false} RefResolve(s: Store, t: Store, w: seq<nat>, b: Builtins, p: Plan, top: bool, c: Id, k: nat) returns (fd': Id)
    requires Step(s, t, w, b, p) && ResolveIn(s, c, k).Some? && Function(s, ResolveIn(s, c, k).value)
    ensures ResolveIn(t, Ref(p, top, c), k) == Some(fd') && Image(p, b, ResolveIn(s, c, k).value, fd')
    decreases k
  {
    hide *;
    FunctionThere(s, c, k);
    if c in Ids(p.body) && s[c].links.alias.Some? {
      fd' := RefResolve(s, t, w, b, p, c in Roots(p.body), s[c].links.alias.value, k - 1);
    } else if c in Ids(p.body) {
      fd' := Sub(p.subs, c);
    } else if s[c].links.alias.Some? {
      fd' := ResolveIn(s, c, k).value;
    } else {
      fd' := Ref(p, top, c);
    }
    RefResolved(s, t, w, b, p, top, c, k, fd');
  }

  lemma {:induction false} FunctionThere(s: Store, c: Id, k: nat)
    requires ResolveIn(s, c, k).Some? && Function(s, ResolveIn(s, c, k).value)
    ensures c < |s|
    ensures s[c].links.alias.Some? ==> k > 0 && ResolveIn(s, s[c].links.alias.value, k - 1) == ResolveIn(s, c, k)
  {
    ResolveStart(s, c, k);
  }

  // What a copied reference may name: no parameter if it is an alias, no exchanged function either.
  lemma {:induction false} RefSource(s: Store, t: Store, w: seq<nat>, b: Builtins, p: Plan, c: Id)
    requires Step(s, t, w, b, p) && c < |s|
    ensures s[c].links.alias.Some? ==> s[c].data.param.None? && Twin(b, c) == c && s[c].links.alias.value < |s|
    ensures c in Ids(p.body) ==> |s| <= Sub(p.subs, c) < |t| && t[Sub(p.subs, c)].links.alias == RefOpt(p, c in Roots(p.body), s[c].links.alias)
  {
    assert Good(s, w, b, c);
    if c in Ids(p.body) { CopyFields(s, t, p, c); }
  }

  lemma {:induction false} RefResolved(s: Store, t: Store, w: seq<nat>, b: Builtins, p: Plan, top: bool, c: Id, k: nat, fd': Id)
    requires Step(s, t, w, b, p) && ResolveIn(s, c, k).Some? && Function(s, ResolveIn(s, c, k).value) && c < |s|
    requires c in Ids(p.body) && s[c].links.alias.Some? ==>
      k > 0 && ResolveIn(t, Ref(p, c in Roots(p.body), s[c].links.alias.value), k - 1) == Some(fd') && Image(p, b, ResolveIn(s, c, k).value, fd')
    requires c in Ids(p.body) && s[c].links.alias.None? ==> fd' == Sub(p.subs, c)
    requires c !in Ids(p.body) && s[c].links.alias.Some? ==> fd' == ResolveIn(s, c, k).value
    requires c !in Ids(p.body) && s[c].links.alias.None? ==> fd' == Ref(p, top, c)
    ensures ResolveIn(t, Ref(p, top, c), k) == Some(fd') && Image(p, b, ResolveIn(s, c, k).value, fd')
  {
    StepSame(s, t, w, b, p);
    RefSource(s, t, w, b, p, c);
    RefCases(s, t, w, b, p, top, c);
    if c !in Ids(p.body) {
      OldResolve(s, t, p.e, c, k);
      if s[c].links.alias.None? {
        StepTwin(s, t, w, b, p, c);
        assert t[fd'] == s[fd'];
      }
    }
  }

  // ---------- the functions copies call ----------

  lemma {:induction false} NewWeightsAt(s: Store, t: Store, w: seq<nat>, b: Builtins, p: Plan)
    requires Step(s, t, w, b, p)
    ensures forall x :: x in Ids(p.body) ==> x < |w|
    ensures var v := NewWeights(w, p);
            && |v| == |t|
            && (forall i {:trigger v[i]} :: 0 <= i < |w| ==> v[i] == w[i])
            && (forall i {:trigger v[i]} :: |s| <= i < |s| + |p.args| ==> v[i] == 1)
            && (forall x {:trigger x in Ids(p.body)} :: x in Ids(p.body) ==> Sub(p.subs, x) < |v| && v[Sub(p.subs, x)] == w[x])
  {
    StepShaped(s, t, w, b, p);
    StepNumbers(s, t, w, b, p);
    hide Step;
    NewWeightsParts(s, w, p);
    var v := NewWeights(w, p);
    hide NewWeights;
    forall x {:trigger x in Ids(p.body)} | x in Ids(p.body) ensures Sub(p.subs, x) < |v| && v[Sub(p.subs, x)] == w[x] {
      CopyWeight(s, w, p, x);
    }
  }

  lemma {:induction false} StepNumbers(s: Store, t: Store, w: seq<nat>, b: Builtins, p: Plan)
    requires Step(s, t, w, b, p)
    ensures Numbered(p.subs, Pre(p.body), |s| + |p.args|) && |t| == |s| + |p.args| + Size(p.body) && |w| == |s|
  {}

  lemma {:induction false} NewWeightsParts(s: Store, w: seq<nat>, p: Plan)
    requires |w| == |s| && forall x :: x in Ids(p.body) ==> x < |w|
    ensures var v := NewWeights(w, p);
            && (forall i {:trigger v[i]} :: 0 <= i < |w| ==> v[i] == w[i])
            && (forall i {:trigger v[i]} :: |s| <= i < |s| + |p.args| ==> v[i] == 1)
  {}

  lemma {:induction false} CopyWeight(s: Store, w: seq<nat>, p: Plan, x: Id)
    requires |w| == |s| && x in Ids(p.body) && Numbered(p.subs, Pre(p.body), |s| + |p.args|)
    requires forall x :: x in Ids(p.body) ==> x < |w|
    ensures var v := NewWeights(w, p); Sub(p.subs, x) < |v| && v[Sub(p.subs, x)] == w[x]
  {
    PreIds(p.body, x);
    var i :| 0 <= i < |Pre(p.body)| && Pre(p.body)[i] == x;
    assert Sub(p.subs, x) == |s| + |p.args| + i;
  }

  // Parameters stay parameters in a copied list, and weights stay weights.
  lemma {:induction false} CopiedList(s: Store, t: Store, p: Plan, w: seq<nat>, v: seq<nat>, xs: seq<Id>)
    requires forall i :: 0 <= i < |xs| ==> CopiedAs(s, t, p, w, v, xs[i])
    ensures NonParams(t, SubIds(p.subs, xs)) == SubIds(p.subs, NonParams(s, xs))
    ensures Weight(v, NonParams(t, SubIds(p.subs, xs))) == Weight(w, NonParams(s, xs))
    ensures Weight(v, SubIds(p.subs, xs)) == Weight(w, xs)
    ensures forall i :: ParamIn(t, SubIds(p.subs, xs), i) == SubOpt(p.subs, ParamIn(s, xs, i))
    decreases |xs|
  {
    var ys := SubIds(p.subs, xs);
    if xs != [] {
      assert CopiedAs(s, t, p, w, v, xs[0]);
      CopiedList(s, t, p, w, v, xs[1..]);
      assert ys[1..] == SubIds(p.subs, xs[1..]);
      if s[xs[0]].data.param.None? {
        assert SubIds(p.subs, NonParams(s, xs)) == [ys[0]] + SubIds(p.subs, NonParams(s, xs[1..]));
      }
    }
  }

  predicate CopiedAs(s: Store, t: Store, p: Plan, w: seq<nat>, v: seq<nat>, x: Id) {
    var y := Sub(p.subs, x);
    x < |s| && y < |t| && t[y].data.param == s[x].data.param && x < |w| && y < |v| && v[y] == w[x]
  }

  lemma {:induction false} StepCopied(s: Store, t: Store, w: seq<nat>, b: Builtins, p: Plan, x: Id)
    requires Step(s, t, w, b, p) && x in Ids(p.body) && forall x :: x in Ids(p.body) ==> x < |w|
    ensures x < |s| && CopiedAs(s, t, p, w, NewWeights(w, p), x) && Kinded(s[x]) && Good(s, w, b, x)
    ensures forall i :: 0 <= i < |Children(s, x)| ==> CopiedAs(s, t, p, w, NewWeights(w, p), Children(s, x)[i])
  {
    StepShaped(s, t, w, b, p);
    NewWeightsAt(s, t, w, b, p);
    CopyFields(s, t, p, x);
    assert Good(s, w, b, x);
    forall i | 0 <= i < |Children(s, x)| ensures CopiedAs(s, t, p, w, NewWeights(w, p), Children(s, x)[i]) {
      var c := Children(s, x)[i];
      ChildrenInIds(s, p.body, x, c);
      CopyFields(s, t, p, c);
      assert Good(s, w, b, c);
    }
  }

  // Everything about a function that a call to it depends on is the same for its image.
  ghost predicate Alike(s: Store, t: Store, w: seq<nat>, v: seq<nat>, fd: Id, fd': Id) {
    && Function(s, fd) && Function(t, fd')
    && (FlagSet(t, t[fd'].links.typeOf.value, Flag.Inline) <==> FlagSet(s, s[fd].links.typeOf.value, Flag.Inline))
    && (t[fd'].block.Some? <==> s[fd].block.Some?)
    && (forall i :: ParamIn(t, Children(t, fd'), i).Some? <==> ParamIn(s, Children(s, fd), i).Some?)
    && Weight(v, NonParams(t, Children(t, fd'))) == Weight(w, NonParams(s, Children(s, fd)))
  }

  lemma {:induction false} AlikeOld(s: Store, t: Store, w: seq<nat>, b: Builtins, p: Plan, fd: Id)
    requires Step(s, t, w, b, p) && Function(s, fd) && forall x :: x in Ids(p.body) ==> x < |w|
    ensures Alike(s, t, w, NewWeights(w, p), fd, fd) && fd != p.e && Children(t, fd) == Children(s, fd)
  {
    StepSame(s, t, w, b, p);
    NewWeightsAt(s, t, w, b, p);
    assert Good(s, w, b, fd);
    var v := NewWeights(w, p);
    hide *;
    StepFunction(s, t, w, b, p, fd);
    AlikeSame(s, t, w, v, p.e, fd) by { OwnsOf(s, w, b, fd); StepLength(s, t, w, b, p); }
  }

  lemma {:induction false} StepFunction(s: Store, t: Store, w: seq<nat>, b: Builtins, p: Plan, fd: Id)
    requires Step(s, t, w, b, p) && Function(s, fd)
    ensures fd != p.e && p.e < |s| <= |t| && t[fd] == s[fd] && Function(t, fd)
    ensures t[s[fd].links.typeOf.value] == s[s[fd].links.typeOf.value]
  {
    StepSame(s, t, w, b, p);
    assert Good(s, w, b, s[fd].links.typeOf.value);
    hide Inv, PlanFor, Inlined;
    OldFunction(s, t, p.e, fd);
  }

  lemma {:induction false} OwnsOf(s: Store, w: seq<nat>, b: Builtins, fd: Id)
    requires Good(s, w, b, fd)
    ensures OwnsChildren(s, fd)
  {}

  lemma {:induction false} StepLength(s: Store, t: Store, w: seq<nat>, b: Builtins, p: Plan)
    requires Step(s, t, w, b, p)
    ensures |w| == |s|
  {}

  lemma {:induction false} AlikeSame(s: Store, t: Store, w: seq<nat>, v: seq<nat>, e: Id, fd: Id)
    requires Same(s, t, e) && Function(s, fd) && OwnsChildren(s, fd) && Function(t, fd) && fd != e
    requires t[s[fd].links.typeOf.value] == s[s[fd].links.typeOf.value]
    requires |w| == |s| && |v| == |t| && forall i {:trigger v[i]} :: 0 <= i < |w| ==> v[i] == w[i]
    ensures Alike(s, t, w, v, fd, fd) && fd != e && Children(t, fd) == Children(s, fd)
  {
    OwnsRange(s, fd);
    hide OwnsChildren, Marked;
    assert t[fd] == s[fd];
    OldNonParams(s, t, e, Children(s, fd));
    NonParamsInRange(s, Children(s, fd), |s|);
    OldWeight(w, v, NonParams(s, Children(s, fd)));
  }

  lemma {:induction false} AlikeTwin(s: Store, t: Store, w: seq<nat>, b: Builtins, p: Plan, fd: Id)
    requires Step(s, t, w, b, p) && Twin(b, fd) != fd && forall x :: x in Ids(p.body) ==> x < |w|
    ensures Alike(s, t, w, NewWeights(w, p), fd, Twin(b, fd))
  {
    StepTwin(s, t, w, b, p, fd);
    AlikeOld(s, t, w, b, p, Twin(b, fd));
    hide Step, Twin, NewWeights;
  }

  // Where a reference to the type of a function leads, the flags are the same.
  lemma {:induction false} CopiedFlag(s: Store, t: Store, w: seq<nat>, b: Builtins, p: Plan, top: bool, ft: Id)
    requires Step(s, t, w, b, p) && ft < |s| && ft != p.e && s[ft].data.param.None?
    ensures var ft' := Ref(p, top, ft);
            && ft' < |t| && t[ft'].data.param.None?
            && (FlagSet(t, ft', Flag.Inline) <==> FlagSet(s, ft, Flag.Inline))
  {
    RefCases(s, t, w, b, p, top, ft);
    StepSame(s, t, w, b, p);
    StepTwin(s, t, w, b, p, ft);
    if ft in Ids(p.body) {
      assert Good(s, w, b, ft);
      CopyFields(s, t, p, ft);
    } else if Twin(b, ft) != ft {
      StepFunction(s, t, w, b, p, Twin(b, ft));
    }
    hide Step, Twin, Marked;
  }

  lemma {:induction false} ImageTyped(s: Store, t: Store, w: seq<nat>, b: Builtins, p: Plan, fd: Id, fd': Id)
    requires Step(s, t, w, b, p) && Function(s, fd) && Image(p, b, fd, fd')
    ensures fd' < |t| && t[fd'].links.typeOf.Some?
    ensures FlagSet(t, t[fd'].links.typeOf.value, Flag.Inline) <==> FlagSet(s, s[fd].links.typeOf.value, Flag.Inline)
  {
    if fd' == fd {
      StepFunction(s, t, w, b, p, fd);
    } else if fd' == Twin(b, fd) {
      StepTwin(s, t, w, b, p, fd);
      StepFunction(s, t, w, b, p, fd');
    } else {
      var ft := s[fd].links.typeOf.value;
      assert ft != p.e;
      StepOwns(s, t, w, b, p, fd);
      CopyFields(s, t, p, fd);
      CopiedFlag(s, t, w, b, p, fd in Roots(p.body), ft);
    }
    hide Step, Twin, Marked, Ref;
  }

  // A copied call resolves to an image of what the original resolves to, and is marked alike.
  lemma {:induction false} CopyMarked(s: Store, t: Store, w: seq<nat>, b: Builtins, p: Plan, x: Id)
    requires Step(s, t, w, b, p) && x in Ids(p.body) && x < |s| && s[x].links.call.Some?
    ensures var y := Sub(p.subs, x);
            && y < |t| && t[y].links.call.Some? && Resolve(t, t[y].links.call.value).Some?
            && Function(s, Callee(s, x)) && Image(p, b, Callee(s, x), Callee(t, y)) && (Marked(t, y) <==> Marked(s, x))
  {
    assert Good(s, w, b, x);
    CopyFields(s, t, p, x);
    StepLonger(s, t, w, b, p);
    var y, c := Sub(p.subs, x), s[x].links.call.value;
    var fd' := RefResolve(s, t, w, b, p, x in Roots(p.body), c, |s|);
    ResolveMore(t, t[y].links.call.value, |s|, |t|);
    ImageTyped(s, t, w, b, p, Callee(s, x), fd');
    hide Step, Image, Ref, Good;
  }

  // The type of a copied function is not marked, as that of the original is not.
  lemma {:induction false} CopiedType(s: Store, t: Store, w: seq<nat>, b: Builtins, p: Plan, top: bool, ft: Id)
    requires Step(s, t, w, b, p) && ft < |s| && !Marked(s, ft) && s[ft].data.param.None?
    ensures var ft' := Ref(p, top, ft);
            && ft' < |t| && !Marked(t, ft') && t[ft'].data.param.None?
            && (FlagSet(t, ft', Flag.Inline) <==> FlagSet(s, ft, Flag.Inline))
  {
    assert ft != p.e;
    CopiedFlag(s, t, w, b, p, top, ft);
    RefCases(s, t, w, b, p, top, ft);
    StepSame(s, t, w, b, p);
    StepTwin(s, t, w, b, p, ft);
    if ft in Ids(p.body) {
      if s[ft].links.call.Some? { CopyMarked(s, t, w, b, p, ft); } else { CopyUncalled(s, t, w, b, p, ft); }
    } else if Twin(b, ft) != ft {
      StepFunction(s, t, w, b, p, Twin(b, ft));
    } else {
      assert Good(s, w, b, ft);
      OldCallee(s, t, p.e, ft);
    }
    hide Step, Twin;
  }

  lemma {:induction false} AlikeCopy(s: Store, t: Store, w: seq<nat>, b: Builtins, p: Plan, fd: Id)
    requires Step(s, t, w, b, p) && Function(s, fd) && fd in Ids(p.body) && forall x :: x in Ids(p.body) ==> x < |w|
    ensures Sub(p.subs, fd) < |t| && Children(t, Sub(p.subs, fd)) == SubIds(p.subs, Children(s, fd))
    ensures Alike(s, t, w, NewWeights(w, p), fd, Sub(p.subs, fd))
  {
    hide *;
    FunctionType(s, fd);
    StepCopied(s, t, w, b, p, fd);
    CopyFunction(s, t, w, b, p, fd);
    CopiedType(s, t, w, b, p, fd in Roots(p.body), s[fd].links.typeOf.value);
    CopyBlock(s, t, w, b, p, fd);
    CopiedList(s, t, p, w, NewWeights(w, p), Children(s, fd));
    CopiedParams(p, s, t, Children(s, fd));
    AlikeIntro(s, t, w, NewWeights(w, p), fd, Sub(p.subs, fd));
  }

  lemma {:induction false} FunctionType(s: Store, fd: Id)
    requires Function(s, fd)
    ensures fd < |s| && s[fd].links.typeOf.Some?
    ensures var ft := s[fd].links.typeOf.value; ft < |s| && !Marked(s, ft) && s[ft].data.param.None?
  {}

  lemma {:induction false} CopyFunction(s: Store, t: Store, w: seq<nat>, b: Builtins, p: Plan, fd: Id)
    requires Step(s, t, w, b, p) && fd in Ids(p.body) && Function(s, fd)
    ensures Sub(p.subs, fd) < |t|
    ensures var x, y := s[fd], t[Sub(p.subs, fd)];
            && y.links.call.None? && y.links.alias.None? && y.data.param.None? && (y.block.Some? <==> x.block.Some?)
            && y.links.typeOf == Some(Ref(p, fd in Roots(p.body), x.links.typeOf.value))
  {
    StepOwns(s, t, w, b, p, fd);
    CopyFields(s, t, p, fd);
  }

  lemma {:induction false} AlikeIntro(s: Store, t: Store, w: seq<nat>, v: seq<nat>, fd: Id, fd': Id)
    requires Function(s, fd) && fd' < |t|
    requires t[fd'].links.call.None? && t[fd'].links.alias.None? && t[fd'].data.param.None? && (t[fd'].block.Some? <==> s[fd].block.Some?)
    requires t[fd'].links.typeOf.Some?
    requires var ft, ft' := s[fd].links.typeOf.value, t[fd'].links.typeOf.value;
             && ft' < |t| && !Marked(t, ft') && t[ft'].data.param.None?
             && (FlagSet(t, ft', Flag.Inline) <==> FlagSet(s, ft, Flag.Inline))
    requires forall i :: ParamIn(t, Children(t, fd'), i).Some? <==> ParamIn(s, Children(s, fd), i).Some?
    requires Weight(v, NonParams(t, Children(t, fd'))) == Weight(w, NonParams(s, Children(s, fd)))
    ensures Alike(s, t, w, v, fd, fd')
  {}

  lemma {:induction false} CopiedParams(p: Plan, s: Store, t: Store, xs: seq<Id>)
    requires forall i :: ParamIn(t, SubIds(p.subs, xs), i) == SubOpt(p.subs, ParamIn(s, xs, i))
    ensures forall i :: ParamIn(t, SubIds(p.subs, xs), i).Some? <==> ParamIn(s, xs, i).Some?
  {}

  lemma {:induction false} ImageAlike(s: Store, t: Store, w: seq<nat>, b: Builtins, p: Plan, fd: Id, fd': Id)
    requires Step(s, t, w, b, p) && Function(s, fd) && Image(p, b, fd, fd') && forall x :: x in Ids(p.body) ==> x < |w|
    ensures Alike(s, t, w, NewWeights(w, p), fd, fd')
  {
    hide Step, Function, NewWeights, Alike;
    if fd' == fd { AlikeOld(s, t, w, b, p, fd); }
    else if fd' == Twin(b, fd) { AlikeTwin(s, t, w, b, p, fd); }
    else { AlikeCopy(s, t, w, b, p, fd); }
  }

  // ---------- the four kinds of entity after a step ----------

  lemma {:induction false} RefRange(s: Store, t: Store, w: seq<nat>, b: Builtins, p: Plan, top: bool, r: Id)
    requires Step(s, t, w, b, p) && r < |s|
    ensures var q := Ref(p, top, r);
            && q < |t|
            && (q < |s| ==> r !in Ids(p.body) && (q == r || (q == Twin(b, r) && s[q].data.param.None?)))
            && (q >= |s| + |p.args| ==> r in Ids(p.body) && q == Sub(p.subs, r))
  {
    StepTables(s, t, w, b, p);
    StepTwin(s, t, w, b, p, r);
    StepLonger(s, t, w, b, p);
    if r in Ids(p.body) {
      StepFresh(s, t, w, b, p, r);
      assert Sub(p.par, Sub(p.subs, r)) == Sub(p.subs, r);
    } else {
      StepOutside(s, t, w, b, p, r);
      hide Step;
      if r in p.params {
        var i :| 0 <= i < |p.params| && p.params[i] == r;
        RefParam(p, b, s, i, r);
      }
    }
  }

  lemma {:induction false} RefParam(p: Plan, b: Builtins, s: Store, i: nat, r: Id)
    requires Sub(p.par, r) == |s| + i && |p.ret| == |s|
    ensures Sub(p.ret, Sub(p.par, r)) == |s| + i
  {}

  lemma {:induction false} StepLonger(s: Store, t: Store, w: seq<nat>, b: Builtins, p: Plan)
    requires Step(s, t, w, b, p)
    ensures |t| == |s| + |p.args| + Size(p.body) && |w| == |s|
  {}

  lemma {:induction false} OldNotParam(s: Store, t: Store, w: seq<nat>, b: Builtins, p: Plan, top: bool, z: Id, q: Id)
    requires Step(s, t, w, b, p) && z < |s| && z != p.e && q < |s| && !ParamOf(s, z, q)
    ensures !ParamOf(t, z, Ref(p, top, q))
  {
    hide *;
    StepOwns(s, t, w, b, p, z);
    StepSame(s, t, w, b, p);
    RefRange(s, t, w, b, p, top, q);
    OldNotParamOf(s, t, p.e, z, q, Ref(p, top, q));
  }

  lemma {:induction false} StepOwns(s: Store, t: Store, w: seq<nat>, b: Builtins, p: Plan, z: Id)
    requires Step(s, t, w, b, p) && z < |s|
    ensures OwnsChildren(s, z) && Kinded(s[z]) && Good(s, w, b, z) && |w| == |s|
  {
    assert Good(s, w, b, z);
  }

  lemma {:induction false} OldNotParamOf(s: Store, t: Store, e: Id, z: Id, q: Id, q': Id)
    requires Same(s, t, e) && z < |s| && z != e && OwnsChildren(s, z) && !ParamOf(s, z, q)
    requires q' < |s| ==> q' == q || s[q'].data.param.None?
    ensures !ParamOf(t, z, q')
  {
    assert Children(t, z) == Children(s, z);
    if q' in Children(s, z) {
      var i :| 0 <= i < |Children(s, z)| && Children(s, z)[i] == q';
      assert t[q'].data.param == s[q'].data.param;
    }
  }

  lemma {:induction false} CopyNotParam(s: Store, t: Store, w: seq<nat>, b: Builtins, p: Plan, top: bool, fd: Id, q: Id)
    requires Step(s, t, w, b, p) && fd in Ids(p.body) && q < |s| && !ParamOf(s, fd, q)
    ensures !ParamOf(t, Sub(p.subs, fd), Ref(p, top, q))
  {
    StepShaped(s, t, w, b, p);
    CopyFields(s, t, p, fd);
    RefRange(s, t, w, b, p, top, q);
    assert Good(s, w, b, fd);
    var q', ys := Ref(p, top, q), SubIds(p.subs, Children(s, fd));
    assert Children(t, Sub(p.subs, fd)) == ys by { assert SubIds(p.subs, []) == []; }
    if q' in ys {
      var i :| 0 <= i < |ys| && ys[i] == q';
      var c := Children(s, fd)[i];
      ChildrenInIds(s, p.body, fd, c);
      StepFresh(s, t, w, b, p, c);
      SubInjective(p.body, p.subs, |s| + |p.args|, c, q);
      assert Good(s, w, b, q);
      CopyFields(s, t, p, q);
    }
  }

  // A copied call refers to an image of what the original referred to, and is marked alike.
  lemma {:induction false} CopyCall(s: Store, t: Store, w: seq<nat>, b: Builtins, p: Plan, x: Id)
    requires Step(s, t, w, b, p) && x in Ids(p.body) && x < |s| && s[x].links.call.Some?
    requires forall x :: x in Ids(p.body) ==> x < |w|
    ensures var y := Sub(p.subs, x);
            && y < |t| && t[y].links.call.Some? && Resolve(t, t[y].links.call.value).Some?
            && Image(p, b, Callee(s, x), Callee(t, y)) && Alike(s, t, w, NewWeights(w, p), Callee(s, x), Callee(t, y))
            && (Marked(t, y) <==> Marked(s, x))
  {
    CopyMarked(s, t, w, b, p, x);
    hide Step, Marked, Image, Alike;
    ImageAlike(s, t, w, b, p, Callee(s, x), Callee(t, Sub(p.subs, x)));
  }

  lemma {:induction false} CopyExpandable(s: Store, t: Store, w: seq<nat>, b: Builtins, p: Plan, x: Id)
    requires Step(s, t, w, b, p) && x in Ids(p.body) && x < |s| && Marked(s, x)
    requires forall x :: x in Ids(p.body) ==> x < |w|
    ensures Expandable(t, b, Sub(p.subs, x))
  {
    hide *;
    var y, fd, fd', top := Sub(p.subs, x), Callee(s, x), Callee(t, Sub(p.subs, x)), x in Roots(p.body);
    StepMarked(s, t, w, b, p, x);
    CopyCall(s, t, w, b, p, x);
    CopyBlockNone(s, t, w, b, p, x);
    CopyArgs(s, t, p, x) by { StepInlined(s, t, w, b, p); }
    ExpandableParts(s, b, x);
    AlikeBlock(s, t, w, NewWeights(w, p), fd, fd');
    forall i | 0 <= i < |Args(t, y)|
      ensures Args(t, y)[i] < |t| && !ParamOf(t, fd', Args(t, y)[i]) && !ParamOf(t, Twin(b, fd'), Args(t, y)[i])
    {
      ImageNotParam(s, t, w, b, p, top, fd, fd', Args(s, x)[i]);
      RefRange(s, t, w, b, p, top, Args(s, x)[i]);
    }
    ExpandableIntro(t, b, y);
  }

  lemma {:induction false} StepMarked(s: Store, t: Store, w: seq<nat>, b: Builtins, p: Plan, x: Id)
    requires Step(s, t, w, b, p) && x < |s| && Marked(s, x)
    ensures Expandable(s, b, x) && Function(s, Callee(s, x)) && s[x].links.call.Some? && Kinded(s[x])
  {
    StepOwns(s, t, w, b, p, x);
  }

  lemma {:induction false} CopyBlockNone(s: Store, t: Store, w: seq<nat>, b: Builtins, p: Plan, x: Id)
    requires Step(s, t, w, b, p) && x in Ids(p.body) && x < |s|
    ensures Sub(p.subs, x) < |t| && (t[Sub(p.subs, x)].block.None? <==> s[x].block.None?)
  {
    StepOwns(s, t, w, b, p, x);
    CopyFields(s, t, p, x);
  }

  lemma {:induction false} AlikeBlock(s: Store, t: Store, w: seq<nat>, v: seq<nat>, fd: Id, fd': Id)
    requires Alike(s, t, w, v, fd, fd')
    ensures fd < |s| && fd' < |t| && (t[fd'].block.Some? <==> s[fd].block.Some?)
    ensures forall i :: ParamIn(t, Children(t, fd'), i).Some? <==> ParamIn(s, Children(s, fd), i).Some?
  {}

  lemma {:induction false} ExpandableIntro(s: Store, b: Builtins, e: Id)
    requires e < |s| && Callee(s, e) < |s| && s[e].block.None? && s[e].links.inputs.Some? && s[Callee(s, e)].block.Some?
    requires forall i :: 0 <= i < |Args(s, e)| ==> ParamIn(s, Children(s, Callee(s, e)), i).Some?
    requires forall i :: 0 <= i < |Args(s, e)| ==> Args(s, e)[i] < |s| && !ParamOf(s, Callee(s, e), Args(s, e)[i]) && !ParamOf(s, Twin(b, Callee(s, e)), Args(s, e)[i])
    ensures Expandable(s, b, e)
  {
    hide Callee, ParamOf, ParamIn, Args, Twin, Children;
  }

  lemma {:induction false} ExpandableParts(s: Store, b: Builtins, x: Id)
    requires Expandable(s, b, x)
    ensures s[x].block.None? && s[x].links.inputs.Some? && Callee(s, x) < |s| && s[Callee(s, x)].block.Some?
    ensures forall i :: 0 <= i < |Args(s, x)| ==> ParamIn(s, Children(s, Callee(s, x)), i).Some? && Args(s, x)[i] < |s|
    ensures forall i :: 0 <= i < |Args(s, x)| ==> !ParamOf(s, Callee(s, x), Args(s, x)[i]) && !ParamOf(s, Twin(b, Callee(s, x)), Args(s, x)[i])
  {}

  lemma {:induction false} ImageNotParam(s: Store, t: Store, w: seq<nat>, b: Builtins, p: Plan, top: bool, fd: Id, fd': Id, q: Id)
    requires Step(s, t, w, b, p) && Function(s, fd) && Image(p, b, fd, fd') && q < |s|
    requires !ParamOf(s, fd, q) && !ParamOf(s, Twin(b, fd), q)
    ensures !ParamOf(t, fd', Ref(p, top, q)) && !ParamOf(t, Twin(b, fd'), Ref(p, top, q))
  {
    StepTwin(s, t, w, b, p, fd);
    StepSame(s, t, w, b, p);
    hide ParamOf, Ref, Good;
    if fd' == fd || fd' == Twin(b, fd) {
      OldNotParam(s, t, w, b, p, top, fd, q);
      OldNotParam(s, t, w, b, p, top, Twin(b, fd), q);
    } else {
      StepFresh(s, t, w, b, p, fd);
      CopyNotParam(s, t, w, b, p, top, fd, q);
    }
  }

  // A child of a copied block is copied to a child of the copy.
  lemma {:induction false} CopyChild(s: Store, t: Store, w: seq<nat>, b: Builtins, p: Plan, x: Id, c: Id)
    requires Step(s, t, w, b, p) && x in Ids(p.body) && x < |s| && c in Children(s, x)
    ensures c in Ids(p.body) && Sub(p.subs, c) < |t| && t[Sub(p.subs, c)].parent == Some(Sub(p.subs, x))
  {
    StepShaped(s, t, w, b, p);
    ChildrenInIds(s, p.body, x, c);
    CopyFields(s, t, p, c);
    assert Good(s, w, b, x) && Good(s, w, b, c);
  }

  // Two sources have different copies.
  lemma {:induction false} CopyApart(s: Store, t: Store, w: seq<nat>, b: Builtins, p: Plan, x: Id, y: Id)
    requires Step(s, t, w, b, p) && x in Ids(p.body) && y in Ids(p.body) && x != y
    ensures Sub(p.subs, x) != Sub(p.subs, y)
  {
    hide Inv, Marked, PlanFor;
    if Sub(p.subs, x) == Sub(p.subs, y) { SubInjective(p.body, p.subs, |s| + |p.args|, x, y); }
  }

  lemma {:induction false} CopyBlock(s: Store, t: Store, w: seq<nat>, b: Builtins, p: Plan, x: Id)
    requires Step(s, t, w, b, p) && x in Ids(p.body) && x < |s|
    ensures Children(t, Sub(p.subs, x)) == SubIds(p.subs, Children(s, x)) && OwnsChildren(s, x)
  {
    assert Good(s, w, b, x);
    CopyFields(s, t, p, x);
    assert SubIds(p.subs, []) == [];
  }

  lemma {:induction false} CopyOwns(s: Store, t: Store, w: seq<nat>, b: Builtins, p: Plan, x: Id)
    requires Step(s, t, w, b, p) && x in Ids(p.body) && x < |s|
    ensures OwnsChildren(t, Sub(p.subs, x))
    ensures Children(t, Sub(p.subs, x)) == SubIds(p.subs, Children(s, x))
  {
    CopyBlock(s, t, w, b, p, x);
    hide Step;
    var xs, y := Children(s, x), Sub(p.subs, x);
    forall i | 0 <= i < |xs| ensures Children(t, y)[i] < |t| && t[Children(t, y)[i]].parent == Some(y) && xs[i] in Ids(p.body) {
      CopyChild(s, t, w, b, p, x, xs[i]);
    }
    forall i, j | 0 <= i < j < |xs| ensures Children(t, y)[i] != Children(t, y)[j] {
      CopyApart(s, t, w, b, p, xs[i], xs[j]);
    }
  }

  lemma {:induction false} CopyValued(s: Store, t: Store, w: seq<nat>, b: Builtins, p: Plan, x: Id)
    requires Step(s, t, w, b, p) && x in Ids(p.body) && x < |s| && forall x :: x in Ids(p.body) ==> x < |w|
    ensures Valued(t, NewWeights(w, p), Sub(p.subs, x))
  {
    hide *;
    StepCopied(s, t, w, b, p, x);
    CopyOwns(s, t, w, b, p, x);
    CopiedList(s, t, p, w, NewWeights(w, p), Children(s, x));
    CopiedWeight(s, t, p, w, NewWeights(w, p), x);
    if s[x].links.call.Some? {
      CopyCall(s, t, w, b, p, x);
      CopyArgs(s, t, p, x) by { StepInlined(s, t, w, b, p); }
      AlikeWeight(s, t, w, NewWeights(w, p), Callee(s, x), Callee(t, Sub(p.subs, x)));
    } else {
      CopyUncalled(s, t, w, b, p, x);
    }
    ValuedAs(s, t, w, NewWeights(w, p), x, Sub(p.subs, x)) by { GoodValued(s, w, b, x); }
  }

  lemma {:induction false} StepInlined(s: Store, t: Store, w: seq<nat>, b: Builtins, p: Plan)
    requires Step(s, t, w, b, p)
    ensures Inlined(s, t, p)
  {}

  lemma {:induction false} AlikeWeight(s: Store, t: Store, w: seq<nat>, v: seq<nat>, fd: Id, fd': Id)
    requires Alike(s, t, w, v, fd, fd')
    ensures Weight(v, NonParams(t, Children(t, fd'))) == Weight(w, NonParams(s, Children(s, fd)))
  {}

  lemma {:induction false} CopyUncalled(s: Store, t: Store, w: seq<nat>, b: Builtins, p: Plan, x: Id)
    requires Step(s, t, w, b, p) && x in Ids(p.body) && x < |s| && s[x].links.call.None?
    ensures !Marked(s, x) && !Marked(t, Sub(p.subs, x))
  {
    StepCopyFields(s, t, w, b, p, x);
  }

  lemma {:induction false} StepCopyFields(s: Store, t: Store, w: seq<nat>, b: Builtins, p: Plan, x: Id)
    requires Step(s, t, w, b, p) && x in Ids(p.body) && x < |s|
    ensures var y := Sub(p.subs, x); y < |t| && t[y].links.call == RefOpt(p, x in Roots(p.body), s[x].links.call)
  {
    StepOwns(s, t, w, b, p, x);
    CopyFields(s, t, p, x);
  }

  lemma {:induction false} GoodValued(s: Store, w: seq<nat>, b: Builtins, x: Id)
    requires Good(s, w, b, x)
    ensures Valued(s, w, x)
  {}

  // Two entities that are marked alike, with as many arguments and as heavy kids, weigh the same.
  lemma {:induction false} ValuedAs(s: Store, t: Store, w: seq<nat>, v: seq<nat>, x: Id, y: Id)
    requires Valued(s, w, x) && y < |v| && v[y] == w[x] && (Marked(t, y) <==> Marked(s, x))
    requires Weight(v, Children(t, y)) == Weight(w, Children(s, x))
    requires Marked(s, x) ==> |Args(t, y)| == |Args(s, x)|
    requires Marked(s, x) ==>
      Weight(v, NonParams(t, Children(t, Callee(t, y)))) == Weight(w, NonParams(s, Children(s, Callee(s, x))))
    ensures Valued(t, v, y)
  {
    hide Marked;
  }

  lemma {:induction false} CopiedWeight(s: Store, t: Store, p: Plan, w: seq<nat>, v: seq<nat>, x: Id)
    requires CopiedAs(s, t, p, w, v, x)
    ensures x < |w| && Sub(p.subs, x) < |v| && v[Sub(p.subs, x)] == w[x]
  {}

  lemma {:induction false} GoodCopy(s: Store, t: Store, w: seq<nat>, b: Builtins, p: Plan, x: Id)
    requires Step(s, t, w, b, p) && x in Ids(p.body) && forall x :: x in Ids(p.body) ==> x < |w|
    ensures Good(t, NewWeights(w, p), b, Sub(p.subs, x))
  {
    StepShaped(s, t, w, b, p);
    StepLonger(s, t, w, b, p);
    assert Good(s, w, b, x);
    CopyFields(s, t, p, x);
    CopyOwns(s, t, w, b, p, x);
    CopyValued(s, t, w, b, p, x);
    if s[x].links.alias.Some? { RefRange(s, t, w, b, p, x in Roots(p.body), s[x].links.alias.value); }
    if s[x].links.call.Some? { CopyCall(s, t, w, b, p, x); }
    if Marked(s, x) { CopyExpandable(s, t, w, b, p, x); }
    hide Step, NewWeights, Image, Expandable, Ref, Callee, OwnsChildren, Valued, Kinded;
  }

  lemma {:induction false} GoodAlias(s: Store, t: Store, w: seq<nat>, b: Builtins, p: Plan, i: nat)
    requires Step(s, t, w, b, p) && i < |p.args| && forall x :: x in Ids(p.body) ==> x < |w|
    ensures Good(t, NewWeights(w, p), b, |s| + i)
  {
    hide *;
    StepLonger(s, t, w, b, p);
    StepAlias(s, t, w, b, p, i);
    AliasWeight(s, t, w, b, p, i);
    AliasIsGood(t, NewWeights(w, p), b, |s| + i, p.e, ArgName(s, p.params[i], i), Sub(p.ret, Sub(p.par, p.args[i])));
  }

  lemma {:induction false} AliasWeight(s: Store, t: Store, w: seq<nat>, b: Builtins, p: Plan, i: nat)
    requires Step(s, t, w, b, p) && i < |p.args| && forall x :: x in Ids(p.body) ==> x < |w|
    ensures |p.params| == |p.args| && |s| + i < |NewWeights(w, p)| == |t| && NewWeights(w, p)[|s| + i] == 1
  {
    hide NewWeights;
    StepLonger(s, t, w, b, p);
    NewWeightsAt(s, t, w, b, p);
    var v := NewWeights(w, p);
    assert v[|s| + i] == 1;
  }

  lemma {:induction false} AliasIsGood(t: Store, v: seq<nat>, b: Builtins, e: Id, block: Id, name: string, ref: Id)
    requires e < |v| == |t| && t[e] == AliasEntity(block, name, ref) && ref < |t| && v[e] == 1
    ensures Good(t, v, b, e)
  {
    assert t[e].block.None? && t[e].links.call.None?;
    assert Kids(t, e) == [];
  }

  lemma {:induction false} StepAlias(s: Store, t: Store, w: seq<nat>, b: Builtins, p: Plan, i: nat)
    requires Step(s, t, w, b, p) && i < |p.args|
    ensures |t| > |s| + i && p.args[i] < |s|
    ensures t[|s| + i] == AliasEntity(p.e, ArgName(s, p.params[i], i), Sub(p.ret, Sub(p.par, p.args[i])))
    ensures Sub(p.ret, Sub(p.par, p.args[i])) < |t|
  {
    StepShaped(s, t, w, b, p);
    StepTables(s, t, w, b, p);
    StepTwin(s, t, w, b, p, Sub(p.par, p.args[i]));
    var q := p.args[i];
    assert q < |s|;
  }

  lemma {:induction false} GoodRoot(s: Store, t: Store, w: seq<nat>, b: Builtins, p: Plan)
    requires Step(s, t, w, b, p) && forall x :: x in Ids(p.body) ==> x < |w|
    ensures Good(t, NewWeights(w, p), b, p.e)
  {
    StepLonger(s, t, w, b, p);
    StepRoot(s, t, w, b, p);
    RootOwns(s, t, w, b, p);
    RootValued(s, t, w, b, p);
    hide Step, NewWeights, OwnsChildren, Valued;
  }

  lemma {:induction false} StepRoot(s: Store, t: Store, w: seq<nat>, b: Builtins, p: Plan)
    requires Step(s, t, w, b, p)
    ensures Kinded(t[p.e]) && t[p.e].links.call.None? && t[p.e].links.alias.None?
    ensures Children(t, p.e) == Range(|s|, |p.args|) + SubIds(p.subs, Roots(p.body))
    ensures w[p.e] == 1 + |p.args| + Weight(w, Roots(p.body))
  {
    StepShaped(s, t, w, b, p);
    assert Good(s, w, b, p.e);
  }

  lemma {:induction false} RootChild(s: Store, t: Store, w: seq<nat>, b: Builtins, p: Plan, i: nat)
    requires Step(s, t, w, b, p) && i < |Roots(p.body)|
    ensures var r := Roots(p.body)[i];
            r in Ids(p.body) && |s| + |p.args| <= Sub(p.subs, r) < |t| && t[Sub(p.subs, r)].parent == Some(p.e)
  {
    StepShaped(s, t, w, b, p);
    var r := Roots(p.body)[i];
    RootsInIds(p.body, i);
    CopyFields(s, t, p, r);
    StepFresh(s, t, w, b, p, r);
    RootParent(s, p.body, p.fd, i);
    assert Good(s, w, b, r);
  }

  lemma {:induction false} AliasParent(s: Store, t: Store, w: seq<nat>, b: Builtins, p: Plan, i: nat)
    requires Step(s, t, w, b, p) && i < |p.args|
    ensures |s| + i < |t| && t[|s| + i].parent == Some(p.e)
  {
    StepAlias(s, t, w, b, p, i);
  }

  lemma {:induction false} RootsApart(s: Store, t: Store, w: seq<nat>, b: Builtins, p: Plan, i: nat, j: nat)
    requires Step(s, t, w, b, p) && i < j < |Roots(p.body)|
    ensures Sub(p.subs, Roots(p.body)[i]) != Sub(p.subs, Roots(p.body)[j])
  {
    StepShaped(s, t, w, b, p);
    hide Step, Sub;
    RootsInIds(p.body, i);
    RootsInIds(p.body, j);
    RootsDistinct(p.body, i, j);
    CopyApart(s, t, w, b, p, Roots(p.body)[i], Roots(p.body)[j]);
  }

  lemma {:induction false} RowDistinct(n: nat, m: nat, ys: seq<Id>)
    requires forall i :: 0 <= i < |ys| ==> ys[i] >= n + m
    requires forall i, j :: 0 <= i < j < |ys| ==> ys[i] != ys[j]
    ensures var xs := Range(n, m) + ys; forall i, j :: 0 <= i < j < |xs| ==> xs[i] != xs[j]
  {}

  lemma {:induction false} RootOwns(s: Store, t: Store, w: seq<nat>, b: Builtins, p: Plan)
    requires Step(s, t, w, b, p)
    ensures OwnsChildren(t, p.e)
  {
    hide *;
    StepRoot(s, t, w, b, p);
    var n, m, ys := |s|, |p.args|, SubIds(p.subs, Roots(p.body));
    forall i | 0 <= i < |ys| ensures n + m <= ys[i] < |t| && t[ys[i]].parent == Some(p.e) { RootChild(s, t, w, b, p, i); }
    forall i, j | 0 <= i < j < |ys| ensures ys[i] != ys[j] { RootsApart(s, t, w, b, p, i, j); }
    StepLonger(s, t, w, b, p);
    forall x {:trigger t[x]} | n <= x < n + m ensures t[x].parent == Some(p.e) { AliasParent(s, t, w, b, p, x - n); }
    OwnsRow(t, p.e, n, m, ys);
  }

  lemma {:induction false} OwnsRow(t: Store, e: Id, n: nat, m: nat, ys: seq<Id>)
    requires Children(t, e) == Range(n, m) + ys
    requires n + m <= |t| && forall x {:trigger t[x]} :: n <= x < n + m ==> t[x].parent == Some(e)
    requires forall i :: 0 <= i < |ys| ==> n + m <= ys[i] < |t| && t[ys[i]].parent == Some(e)
    requires forall i, j :: 0 <= i < j < |ys| ==> ys[i] != ys[j]
    ensures OwnsChildren(t, e)
  {
    RowDistinct(n, m, ys);
    var xs := Children(t, e);
    forall i | 0 <= i < |xs| ensures xs[i] < |t| && t[xs[i]].parent == Some(e) {
      if i < m { assert xs[i] == n + i; } else { assert xs[i] == ys[i - m]; }
    }
  }

  lemma {:induction false} RootValued(s: Store, t: Store, w: seq<nat>, b: Builtins, p: Plan)
    requires Step(s, t, w, b, p) && forall x :: x in Ids(p.body) ==> x < |w|
    ensures Valued(t, NewWeights(w, p), p.e)
  {
    StepRoot(s, t, w, b, p);
    StepLonger(s, t, w, b, p);
    NewWeightsAt(s, t, w, b, p);
    StepShaped(s, t, w, b, p);
    hide Step;
    var v, n, m, rs := NewWeights(w, p), |s|, |p.args|, Roots(p.body);
    hide NewWeights;
    WeightAppend(v, Range(n, m), SubIds(p.subs, rs));
    OnesWeight(v, Range(n, m));
    forall i | 0 <= i < |rs| ensures rs[i] < |w| && Sub(p.subs, rs[i]) < |v| && v[Sub(p.subs, rs[i])] == w[rs[i]] {
      RootsInIds(p.body, i);
    }
    WeightEqual(v, SubIds(p.subs, rs), w, rs);
  }

  lemma {:induction false} OnesWeight(v: seq<nat>, xs: seq<Id>)
    requires forall i :: 0 <= i < |xs| ==> xs[i] < |v| && v[xs[i]] == 1
    ensures Weight(v, xs) == |xs|
    decreases |xs|
  {
    if xs != [] { OnesWeight(v, xs[1..]); }
  }

  // ---------- the step ----------

  lemma {:induction false} TwinsKept(s: Store, t: Store, w: seq<nat>, b: Builtins, p: Plan, a: Id, c: Id)
    requires Step(s, t, w, b, p) && Twins(s, a, c) && forall x :: x in Ids(p.body) ==> x < |w|
    ensures Twins(t, a, c)
  {
    AlikeOld(s, t, w, b, p, a);
    AlikeOld(s, t, w, b, p, c);
    StepSame(s, t, w, b, p);
    assert Good(s, w, b, a) && Good(s, w, b, c);
    OwnsOf(s, w, b, a);
    OwnsOf(s, w, b, c);
    hide Step, Good, NewWeights, Weight;
    OwnsRange(s, a);
    OwnsRange(s, c);
    OldNonParams(s, t, p.e, Children(s, a));
    OldNonParams(s, t, p.e, Children(s, c));
  }

  /** One expansion keeps the invariant; old entities keep their weights. */
  lemma {:induction false} StepKeeps(s: Store, t: Store, w: seq<nat>, b: Builtins, p: Plan)
    requires Step(s, t, w, b, p)
    ensures forall x :: x in Ids(p.body) ==> x < |w|
    ensures Inv(t, NewWeights(w, p), b)
    ensures forall i {:trigger NewWeights(w, p)[i]} :: 0 <= i < |w| ==> NewWeights(w, p)[i] == w[i]
  {
    StepLonger(s, t, w, b, p);
    NewWeightsAt(s, t, w, b, p);
    var v := NewWeights(w, p);
    forall y: Id {:trigger Good(t, v, b, y)} | y < |t| ensures Good(t, v, b, y) {
      StepGood(s, t, w, b, p, y);
    }
    TwinsKept(s, t, w, b, p, b.indicateReturn, b.indicateYield);
    TwinsKept(s, t, w, b, p, b.returnRegister, b.yieldRegister);
  }

  lemma {:induction false} StepGood(s: Store, t: Store, w: seq<nat>, b: Builtins, p: Plan, y: Id)
    requires Step(s, t, w, b, p) && y < |t| && forall x :: x in Ids(p.body) ==> x < |w|
    ensures Good(t, NewWeights(w, p), b, y)
  {
    hide *;
    StepLonger(s, t, w, b, p);
    if y == p.e {
      GoodRoot(s, t, w, b, p);
    } else if y < |s| {
      StepOld(s, t, w, b, p, y);
    } else if y < |s| + |p.args| {
      GoodAlias(s, t, w, b, p, y - |s|);
    } else {
      var x := StepSource(s, t, w, b, p, y);
      GoodCopy(s, t, w, b, p, x);
    }
  }

  lemma {:induction false} StepSource(s: Store, t: Store, w: seq<nat>, b: Builtins, p: Plan, y: Id) returns (x: Id)
    requires Step(s, t, w, b, p) && |s| + |p.args| <= y < |t|
    ensures x in Ids(p.body) && Sub(p.subs, x) == y
  {
    StepLonger(s, t, w, b, p);
    x := Pre(p.body)[y - |s| - |p.args|];
    PreIds(p.body, x);
  }

  lemma {:induction false} StepOld(s: Store, t: Store, w: seq<nat>, b: Builtins, p: Plan, y: Id)
    requires Step(s, t, w, b, p) && y < |s| && y != p.e && forall x :: x in Ids(p.body) ==> x < |w|
    ensures Good(t, NewWeights(w, p), b, y)
  {
    StepSame(s, t, w, b, p);
    StepLonger(s, t, w, b, p);
    NewWeightsAt(s, t, w, b, p);
    assert Good(s, w, b, y);
    StepTwin(s, t, w, b, p, Callee(s, y));
    InvLower(s, w, b);
    forall z: Id {:trigger Regular(s, b, z)} | z < |s| ensures Regular(s, b, z) { assert Good(s, w, b, z); }
    hide NewWeights, Inlined, PlanFor, Marked, Regular;
    OldGood(s, t, w, NewWeights(w, p), b, p.e, y);
  }
}
