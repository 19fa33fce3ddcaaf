/**
 The part of a module that the inlining pass can get to.  Everything outside of it is masked: seen as blank, so
 that what holds of whole modules holds of parts.
 */
module InlinePart {
  import opened Wrappers
  import opened Store
  import opened Shapes
  import opened Copy
  import opened Substitute
  import opened Builder
  import opened Inline
  import opened Weights
  import opened InlineStep

  ghost function Masked(s: Store, part: set<Id>): (m: Store)
    ensures |m| == |s| && forall e {:trigger m[e]} :: 0 <= e < |s| ==> m[e] == if e in part then s[e] else BLANK
  {
    seq(|s|, e requires 0 <= e < |s| => if e in part then s[e] else BLANK)
  }

  // The types of the part's entities belong to it.
  ghost predicate TypesInside(s: Store, part: set<Id>) {
    forall e {:trigger s[e]} :: 0 <= e < |s| && e in part && s[e].links.typeOf.Some? ==> s[e].links.typeOf.value in part
  }

  // The invariant of the pass, for a part of the module.
  ghost predicate PartInv(s: Store, part: set<Id>, w: seq<nat>, b: Builtins) {
    Inv(Masked(s, part), w, b) && TypesInside(s, part) && forall e :: e in part ==> e < |s|
  }

  // What something says about itself in the masked module it has from the part.
  lemma {:induction false} NotBlank(s: Store, part: set<Id>, e: Id)
    requires e < |s| && Masked(s, part)[e] != BLANK
    ensures e in part && Masked(s, part)[e] == s[e]
  {}

  lemma {:induction false} MaskedChildren(s: Store, part: set<Id>, e: Id)
    requires e in part && e < |s|
    ensures Children(Masked(s, part), e) == Children(s, e) && Args(Masked(s, part), e) == Args(s, e)
  {}

  // Children of the part belong to it.
  lemma {:induction false} ChildInside(s: Store, part: set<Id>, w: seq<nat>, b: Builtins, e: Id, c: Id)
    requires PartInv(s, part, w, b) && e in part && c in Children(s, e)
    ensures c in part && c < |s|
  {
    var m := Masked(s, part);
    MaskedChildren(s, part, e);
    assert Good(m, w, b, e);
    hide Inv, TypesInside;
    var i :| 0 <= i < |Children(m, e)| && Children(m, e)[i] == c;
    assert m[c].parent == Some(e);
    NotBlank(s, part, c);
  }

  lemma {:induction false} MaskedResolve(s: Store, part: set<Id>, r: Id, k: nat)
    requires ResolveIn(Masked(s, part), r, k).Some? && ResolveIn(Masked(s, part), r, k).value in part
    requires ResolveIn(Masked(s, part), r, k).value < |s|
    ensures ResolveIn(s, r, k) == ResolveIn(Masked(s, part), r, k)
    decreases k
  {
    var m := Masked(s, part);
    if r < |s| && m[r].links.alias.Some? {
      NotBlank(s, part, r);
      MaskedResolve(s, part, m[r].links.alias.value, k - 1);
    }
  }

  // A call of the part resolves, is known and is marked as it is in the masked module.
  lemma {:induction false} MaskedCall(s: Store, part: set<Id>, w: seq<nat>, b: Builtins, e: Id)
    requires PartInv(s, part, w, b) && e in part && s[e].links.call.Some?
    ensures e < |s| && Callable(s, e) && Callee(s, e) == Callee(Masked(s, part), e) && Callee(s, e) in part
    ensures Marked(s, e) == Marked(Masked(s, part), e)
  {
    var m := Masked(s, part);
    assert Good(m, w, b, e);
    hide Inv, Expandable, Valued, OwnsChildren, Kinded;
    var fd := Callee(m, e);
    NotBlank(s, part, fd);
    MaskedResolve(s, part, s[e].links.call.value, |s|);
    assert m[fd] == s[fd] && s[fd].links.typeOf.value in part;
  }

  lemma {:induction false} MaskedMarked(s: Store, part: set<Id>, w: seq<nat>, b: Builtins, e: Id)
    requires PartInv(s, part, w, b) && e in part
    ensures e < |s| && Masked(s, part)[e] == s[e] && Marked(s, e) == Marked(Masked(s, part), e)
    ensures s[e].links.call.Some? ==> Callable(s, e)
  {
    if s[e].links.call.Some? { MaskedCall(s, part, w, b, e); }
    hide Inv, TypesInside;
  }

  // A shape whose entities say who lists them lies in the part.
  lemma {:induction false} ParentsInside(s: Store, part: set<Id>, f: Forest, p: Id)
    requires Parents(Masked(s, part), f, p) && Rep(Masked(s, part), f)
    ensures forall x :: x in Ids(f) ==> x in part && x < |s|
    decreases f
  {
    hide Masked;
    if f.Cons? {
      assert f.id < |s| && Masked(s, part)[f.id].parent == Some(p);
      NotBlank(s, part, f.id) by { assert BLANK.parent == None; }
      ParentsInside(s, part, f.kids, f.id);
      ParentsInside(s, part, f.rest, p);
    }
  }

  lemma {:induction false} MaskedParam(s: Store, part: set<Id>, xs: seq<Id>, i: nat)
    requires forall x :: x in xs ==> x in part
    ensures ParamIn(Masked(s, part), xs, i) == ParamIn(s, xs, i)
    decreases |xs|
  {
    if xs != [] {
      assert xs[0] in xs;
      forall x | x in xs[1..] ensures x in part { assert x in xs; }
      MaskedParam(s, part, xs[1..], i);
    }
  }

  lemma {:induction false} CalleeParams(s: Store, part: set<Id>, w: seq<nat>, b: Builtins, fd: Id)
    requires PartInv(s, part, w, b) && fd in part
    ensures fd < |s| && Children(Masked(s, part), fd) == Children(s, fd)
    ensures forall x :: x in Children(s, fd) ==> x in part && x < |s|
    ensures forall i :: ParamIn(Masked(s, part), Children(s, fd), i) == ParamIn(s, Children(s, fd), i)
  {
    MaskedChildren(s, part, fd);
    forall x | x in Children(s, fd) ensures x in part && x < |s| { ChildInside(s, part, w, b, fd, x); }
    hide PartInv, Masked;
    forall i: nat ensures ParamIn(Masked(s, part), Children(s, fd), i) == ParamIn(s, Children(s, fd), i) {
      MaskedParam(s, part, Children(s, fd), i);
    }
  }

  // ---------- an expansion in the module is one in the masked module ----------

  lemma {:induction false} MaskedInlinable(s: Store, part: set<Id>, w: seq<nat>, b: Builtins, e: Id, kids: Forest)
    requires PartInv(s, part, w, b) && e in part && Marked(Masked(s, part), e)
    requires var fd := Callee(Masked(s, part), e); fd < |s| && Inlinable(Masked(s, part), e, fd, kids, b)
    ensures Marked(s, e) && Inlinable(s, e, Callee(s, e), kids, b)
    ensures Callee(s, e) in part && forall x :: x in Ids(kids) ==> x in part && x < |s|
  {
    var m := Masked(s, part);
    assert m[e] == s[e] && e < |s|;
    MaskedCall(s, part, w, b, e);
    var fd := Callee(s, e);
    CalleeParams(s, part, w, b, fd);
    InlinableTree(m, e, fd, kids, b);
    ParentsInside(s, part, kids, fd);
    hide PartInv, Marked, Callee, ParamIn, Masked;
    var tree := Cons(fd, kids, Nil);
    forall x | x in Ids(tree) ensures Children(s, x) == Children(m, x) && x < |s| && m[x] == s[x] {
      assert x == fd || x in Ids(kids) by { assert Ids(Nil) == {}; }
      MaskedChildren(s, part, x);
      MaskedAt(s, part, x);
    }
    RepFrame(m, s, tree);
    ParentsFrame(m, s, kids, fd);
    MaskedAt(s, part, e);
    MaskedAt(s, part, fd);
    MaskedChildren(s, part, e);
    InlinableFrame(m, s, e, fd, kids, b);
  }

  lemma {:induction false} MaskedAt(s: Store, part: set<Id>, x: Id)
    requires x in part && x < |s|
    ensures |Masked(s, part)| == |s| && Masked(s, part)[x] == s[x]
  {}

  lemma {:induction false} InlinableTree(m: Store, e: Id, fd: Id, kids: Forest, b: Builtins)
    requires Inlinable(m, e, fd, kids, b)
    ensures Rep(m, Cons(fd, kids, Nil)) && NoDup(Cons(fd, kids, Nil)) && Parents(m, kids, fd) && Rep(m, kids)
  {}

  lemma {:induction false} InlinableFrame(m: Store, s: Store, e: Id, fd: Id, kids: Forest, b: Builtins)
    requires Inlinable(m, e, fd, kids, b) && |m| == |s| && m[e] == s[e] && m[fd] == s[fd]
    requires Children(m, fd) == Children(s, fd) && Args(m, e) == Args(s, e)
    requires Rep(s, Cons(fd, kids, Nil)) && Parents(s, kids, fd)
    requires forall i :: ParamIn(m, Children(s, fd), i) == ParamIn(s, Children(s, fd), i)
    ensures Inlinable(s, e, fd, kids, b)
  {
    hide Rep, NoDup, Parents, Ids, ParamIn, Keyed;
  }

  // The part after an expansion: all that is new belongs to it.
  ghost function Grown(s: Store, t: Store, part: set<Id>): (r: set<Id>)
    ensures forall x: Id :: x in r <==> x in part || |s| <= x < |t|
  {
    part + (Below(|t|) - Below(|s|))
  }

  lemma {:induction false} MaskedPlan(s: Store, part: set<Id>, w: seq<nat>, b: Builtins, p: Plan, kids: Forest)
    requires PartInv(s, part, w, b) && p.e in part && PlanFor(s, p, kids, b) && Marked(s, p.e)
    requires forall x :: x in Ids(kids) ==> x in part && x < |s|
    ensures PlanFor(Masked(s, part), p, kids, b)
    ensures p.fd in part && forall i {:trigger p.params[i]} :: 0 <= i < |p.params| ==> p.params[i] in part && p.params[i] < |s|
  {
    MaskedCall(s, part, w, b, p.e);
    CalleeParams(s, part, w, b, p.fd);
    MaskedChildren(s, part, p.e);
    hide PartInv, Marked, Callee, Masked;
    forall x | x in Ids(kids) ensures x < |s| && Masked(s, part)[x] == s[x] { MaskedAt(s, part, x); }
    SelectedFrame(s, Masked(s, part), kids);
    forall i {:trigger p.params[i]} | 0 <= i < |p.params| ensures p.params[i] in part && p.params[i] < |s| {
      assert ParamIn(s, Children(s, p.fd), i) == Some(p.params[i]);
      ParamInMember(s, Children(s, p.fd), i);
    }
    PlanFrame(s, Masked(s, part), p, kids, b);
  }

  lemma {:induction false} PlanFrame(s: Store, m: Store, p: Plan, kids: Forest, b: Builtins)
    requires PlanFor(s, p, kids, b) && |m| == |s| && Callee(m, p.e) == Callee(s, p.e) && Args(m, p.e) == Args(s, p.e)
    requires Children(m, p.fd) == Children(s, p.fd) && Selected(m, kids, true) == Selected(s, kids, true)
    requires forall i :: ParamIn(m, Children(s, p.fd), i) == ParamIn(s, Children(s, p.fd), i)
    ensures PlanFor(m, p, kids, b)
  {
    hide Callee, Args, Children, Selected, ParamIn, Sub;
  }

  lemma {:induction false} MaskedInlined(s: Store, t: Store, part: set<Id>, p: Plan)
    requires Inlined(s, t, p) && p.e in part && (forall x :: x in part ==> x < |s|)
    requires (forall x :: x in Ids(p.body) ==> x in part) && forall i {:trigger p.params[i]} :: 0 <= i < |p.params| ==> p.params[i] in part
    ensures Inlined(Masked(s, part), Masked(t, Grown(s, t, part)), p)
  {
    var m, u := Masked(s, part), Masked(t, Grown(s, t, part));
    hide CopyLinksOf, CopyData, ArgName, AliasEntity, Sub, NewParent, SubIds, SubOpt, SubstLinks;
    assert |u| == |t| && |m| == |s| && m[p.e] == s[p.e] && u[p.e] == t[p.e];
    forall y {:trigger u[y]} | 0 <= y < |s| && y != p.e ensures u[y] == m[y] { assert t[y] == s[y]; }
    forall i {:trigger p.args[i]} | 0 <= i < |p.args|
      ensures u[|s| + i] == AliasEntity(p.e, ArgName(m, p.params[i], i), Sub(p.ret, Sub(p.par, p.args[i])))
    {
      assert u[|s| + i] == t[|s| + i];
      SameArgName(s, part, p.params[i], i);
    }
    forall x {:trigger x in Ids(p.body)} | x in Ids(p.body)
      ensures u[Sub(p.subs, x)] == Entity(SubOptIds(p.subs, m[x].block), Some(NewParent(m[x].parent, p.subs, p.fd, p.e)),
                                          CopyLinksOf(m, p, x), CopyData(m[x]))
    {
      assert m[x] == s[x] && u[Sub(p.subs, x)] == t[Sub(p.subs, x)];
      SameCopyLinks(s, part, p, x);
    }
  }

  lemma {:induction false} SameArgName(s: Store, part: set<Id>, q: Id, i: nat)
    requires q in part
    ensures ArgName(Masked(s, part), q, i) == ArgName(s, q, i)
  {}

  lemma {:induction false} SameCopyLinks(s: Store, part: set<Id>, p: Plan, x: Id)
    requires x in part && x < |s|
    ensures CopyLinksOf(Masked(s, part), p, x) == CopyLinksOf(s, p, x)
  {
    MaskedAt(s, part, x);
    hide Masked;
  }

  // ---------- the types of what is new ----------

  lemma {:induction false} TwinInside(s: Store, part: set<Id>, w: seq<nat>, b: Builtins, r: Id)
    requires PartInv(s, part, w, b) && r in part
    ensures Twin(b, r) in part
  {
    var m := Masked(s, part);
    if Twin(b, r) != r {
      assert Function(m, Twin(b, r));
      hide Inv;
      NotBlank(s, part, Twin(b, r));
    }
  }

  // Where a reference into the part leads after the expansion belongs to the part as it is then.
  lemma {:induction false} RefInside(s: Store, t: Store, part: set<Id>, w: seq<nat>, b: Builtins, p: Plan, top: bool, r: Id)
    requires PartInv(s, part, w, b) && Step(Masked(s, part), Masked(t, Grown(s, t, part)), w, b, p) && r in part
    ensures Ref(p, top, r) in Grown(s, t, part)
  {
    RefRange(Masked(s, part), Masked(t, Grown(s, t, part)), w, b, p, top, r);
    TwinInside(s, part, w, b, r);
    hide Step, PartInv, Ref, Twin;
  }

  lemma {:induction false} RootTypeInside(s: Store, t: Store, part: set<Id>, w: seq<nat>, b: Builtins, p: Plan, r: Id)
    requires PartInv(s, part, w, b) && Step(Masked(s, part), Masked(t, Grown(s, t, part)), w, b, p) && r in part
    ensures Sub(p.ret, Sub(p.par, r)) in Grown(s, t, part)
  {
    var m, u := Masked(s, part), Masked(t, Grown(s, t, part));
    StepTables(m, u, w, b, p);
    StepLonger(m, u, w, b, p);
    TwinInside(s, part, w, b, r);
    assert r < |s|;
    hide Step, PartInv, Twin;
    if r in p.params {
      var i :| 0 <= i < |p.params| && p.params[i] == r;
      RefParam(p, b, m, i, r);
    }
  }

  lemma {:induction false} GrownTypes(s: Store, t: Store, part: set<Id>, w: seq<nat>, b: Builtins, p: Plan)
    requires PartInv(s, part, w, b) && Step(Masked(s, part), Masked(t, Grown(s, t, part)), w, b, p)
    ensures TypesInside(t, Grown(s, t, part))
  {
    var m, all := Masked(s, part), Grown(s, t, part);
    var u := Masked(t, all);
    StepLonger(m, u, w, b, p);
    forall y {:trigger t[y]} | 0 <= y < |t| && y in all && t[y].links.typeOf.Some? ensures t[y].links.typeOf.value in all {
      hide *;
      MaskedAt(t, all, y);
      TypeInside(s, t, part, w, b, p, y);
    }
    hide *;
    TypesIntro(t, all);
  }

  lemma {:induction false} TypesIntro(t: Store, all: set<Id>)
    requires forall y {:trigger t[y]} :: 0 <= y < |t| && y in all && t[y].links.typeOf.Some? ==> t[y].links.typeOf.value in all
    ensures TypesInside(t, all)
  {}

  lemma {:induction false} TypeInside(s: Store, t: Store, part: set<Id>, w: seq<nat>, b: Builtins, p: Plan, y: Id)
    requires PartInv(s, part, w, b) && Step(Masked(s, part), Masked(t, Grown(s, t, part)), w, b, p)
    requires y < |t| && y in Grown(s, t, part) && t[y].links.typeOf.Some? && |t| == |s| + |p.args| + Size(p.body)
    ensures t[y].links.typeOf.value in Grown(s, t, part)
  {
    var m, u := Masked(s, part), Masked(t, Grown(s, t, part));
    assert u[y] == t[y];
    if y == p.e {
      assert u[y].links == SubstLinks(p.ret, SubstLinks(p.par, CallStripped(m[y].links))) by { hide Inv, PlanFor, Marked, Masked; }
      assert Marked(m, y);
      NotBlank(s, part, y);
      assert s[y].links.typeOf.value in part;
      hide Step, PartInv, Masked, Grown;
      RootTypeInside(s, t, part, w, b, p, s[y].links.typeOf.value);
    } else if y < |s| {
      assert y in part && u[y] == m[y] && m[y] == s[y] && s[y].links.typeOf.value in part;
    } else if y < |s| + |p.args| {
      StepAlias(m, u, w, b, p, y - |s|);
      hide Step, PartInv, Masked, Grown;
    } else {
      var x := StepSource(m, u, w, b, p, y);
      CopyTypeInside(s, t, part, w, b, p, x);
    }
  }

  lemma {:induction false} CopyTypeInside(s: Store, t: Store, part: set<Id>, w: seq<nat>, b: Builtins, p: Plan, x: Id)
    requires PartInv(s, part, w, b) && Step(Masked(s, part), Masked(t, Grown(s, t, part)), w, b, p)
    requires x in Ids(p.body) && Sub(p.subs, x) < |t| && Sub(p.subs, x) in Grown(s, t, part) && t[Sub(p.subs, x)].links.typeOf.Some?
    ensures t[Sub(p.subs, x)].links.typeOf.value in Grown(s, t, part)
  {
    var m, u := Masked(s, part), Masked(t, Grown(s, t, part));
    StepShaped(m, u, w, b, p);
    StepOwns(m, u, w, b, p, x);
    CopyFields(m, u, p, x);
    assert u[Sub(p.subs, x)] == t[Sub(p.subs, x)];
    hide Step, Ref, Good;
    NotBlank(s, part, x) by { assert m[x].links.typeOf.Some?; }
    assert s[x].links.typeOf.value in part;
    RefInside(s, t, part, w, b, p, x in Roots(p.body), s[x].links.typeOf.value);
  }
}
