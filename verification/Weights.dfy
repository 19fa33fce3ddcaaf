/**
 Weights for the inlining pass: the number of visits an entity leads to when the breadth-first
 walker of systems.hpp also visits the bodies it has just copied.
 */
module Weights {
  import opened Wrappers
  import opened Store
  import opened Shapes
  import opened Copy
  import opened Substitute
  import opened Builder
  import opened Inline

  // ---------- weights ----------

  function NonParams(s: Store, xs: seq<Id>): seq<Id>
    decreases |xs|
  {
    if xs == [] then []
    else if xs[0] < |s| && s[xs[0]].data.param.Some? then NonParams(s, xs[1..])
    else [xs[0]] + NonParams(s, xs[1..])
  }

  // What a visit of `e` leaves to be visited below it, apart from the aliases of its arguments.
  function Kids(s: Store, e: Id): seq<Id> {
    if Marked(s, e) then NonParams(s, Children(s, Callee(s, e))) else Children(s, e)
  }

  function ArgCount(s: Store, e: Id): nat {
    if Marked(s, e) then |Args(s, e)| else 0
  }

  function Weight(w: seq<nat>, xs: seq<Id>): nat
    decreases |xs|
  {
    if xs == [] then 0 else (if xs[0] < |w| then w[xs[0]] else 0) + Weight(w, xs[1..])
  }

  // `w` solves the weight equation of `e`: one for itself, one per argument, the weights of its kids.
  ghost predicate Valued(s: Store, w: seq<nat>, e: Id) {
    e < |w| && w[e] == 1 + ArgCount(s, e) + Weight(w, Kids(s, e))
  }

  lemma {:induction false} WeightAppend(w: seq<nat>, xs: seq<Id>, ys: seq<Id>)
    ensures Weight(w, xs + ys) == Weight(w, xs) + Weight(w, ys)
    decreases |xs|
  {
    if xs == [] {
      assert xs + ys == ys;
    } else {
      WeightAppend(w, xs[1..], ys);
      assert (xs + ys)[1..] == xs[1..] + ys;
    }
  }

  lemma {:induction false} WeightMember(w: seq<nat>, xs: seq<Id>, x: Id)
    requires x in xs && x < |w|
    ensures w[x] <= Weight(w, xs)
    decreases |xs|
  {
    if xs[0] != x { WeightMember(w, xs[1..], x); }
  }

  lemma {:induction false} WeightEqual(w: seq<nat>, xs: seq<Id>, v: seq<nat>, ys: seq<Id>)
    requires |xs| == |ys| && forall i :: 0 <= i < |xs| ==> xs[i] < |w| && ys[i] < |v| && w[xs[i]] == v[ys[i]]
    ensures Weight(w, xs) == Weight(v, ys)
    decreases |xs|
  {
    if xs != [] { WeightEqual(w, xs[1..], v, ys[1..]); }
  }

  ghost predicate InRange(xs: seq<Id>, n: nat) {
    forall i :: 0 <= i < |xs| ==> xs[i] < n
  }

  ghost predicate Lower(rank: seq<nat>, xs: seq<Id>, e: Id) {
    e < |rank| && forall i :: 0 <= i < |xs| ==> xs[i] < |rank| && rank[xs[i]] < rank[e]
  }

  // `w` solves the weight equation of every entity.
  ghost predicate Solves(s: Store, w: seq<nat>) {
    |w| == |s| && forall x: Id {:trigger Valued(s, w, x)} :: x < |s| ==> Valued(s, w, x) && InRange(Kids(s, x), |s|)
  }

  /** The weight equations have at most one solution: the weight of an entity is determined by the module. */
  lemma {:induction false} WeightsUnique(s: Store, w: seq<nat>, v: seq<nat>, e: Id)
    requires Solves(s, w) && Solves(s, v) && e < |s|
    ensures e < |w| && e < |v| && w[e] == v[e]
    decreases if e < |w| then w[e] else 0
  {
    var ks := Kids(s, e);
    assert Valued(s, w, e) && Valued(s, v, e) && InRange(ks, |s|) && |w| == |v| == |s|;
    hide Solves, Kids, ArgCount;
    forall i | 0 <= i < |ks| ensures ks[i] < |s| && w[ks[i]] == v[ks[i]] {
      WeightMember(w, ks, ks[i]);
      WeightsUnique(s, w, v, ks[i]);
    }
    WeightEqual(w, ks, v, ks);
  }

  // The inline call graph is acyclic: some rank falls from an entity to everything its visit leads to.
  ghost predicate Acyclic(s: Store, rank: seq<nat>) {
    |rank| == |s| && forall e: Id :: e < |s| ==> Lower(rank, Kids(s, e), e)
  }

  ghost function WeightByRank(s: Store, rank: seq<nat>, e: Id): nat
    requires Acyclic(s, rank) && e < |s|
    decreases rank[e], 1, 0
  {
    1 + ArgCount(s, e) + WeightsByRank(s, rank, Kids(s, e), e)
  }

  ghost function WeightsByRank(s: Store, rank: seq<nat>, xs: seq<Id>, e: Id): nat
    requires Acyclic(s, rank) && e < |s| && Lower(rank, xs, e)
    decreases rank[e], 0, |xs|
  {
    if xs == [] then 0
    else
      WeightByRank(s, rank, xs[0]) + WeightsByRank(s, rank, xs[1..], e)
  }

  /** An acyclic inline call graph gives every entity a finite weight. */
  lemma {:induction false} AcyclicHasWeights(s: Store, rank: seq<nat>) returns (w: seq<nat>)
    requires Acyclic(s, rank)
    ensures Solves(s, w)
  {
    w := seq(|s|, e requires 0 <= e < |s| => WeightByRank(s, rank, e));
    forall e: Id | e < |s| ensures Valued(s, w, e) && InRange(Kids(s, e), |s|) {
      assert Lower(rank, Kids(s, e), e);
      WeightsAgree(s, rank, w, Kids(s, e), e);
    }
  }

  lemma {:induction false} WeightsAgree(s: Store, rank: seq<nat>, w: seq<nat>, xs: seq<Id>, e: Id)
    requires Acyclic(s, rank) && e < |s| && Lower(rank, xs, e)
    requires |w| == |s| && forall x :: 0 <= x < |s| ==> w[x] == WeightByRank(s, rank, x)
    ensures WeightsByRank(s, rank, xs, e) == Weight(w, xs)
    decreases |xs|
  {
    if xs != [] {
      WeightsAgree(s, rank, w, xs[1..], e);
    }
  }

  // ---------- the invariant of the pass ----------

  // The kinds `verify::structure` keeps apart, as far as copying depends on them.
  predicate Kinded(x: Entity) {
    && (x.links.call.Some? ==> x.links.typeOf.Some? && Valueless !in x.data.flags && x.data.number.None? && x.data.text.None?)
    && (x.links.alias.Some? ==> x.links.typeOf.None? && x.data.typeDef.None? && Namespace !in x.data.flags)
    && (x.data.param.Some? ==> x.links.typeOf.Some? && x.links.call.None? && x.block.None?)
  }

  // Children are real, say who lists them, and are listed once.
  ghost predicate OwnsChildren(s: Store, e: Id) {
    var xs := Children(s, e);
    && (forall i :: 0 <= i < |xs| ==> xs[i] < |s| && s[xs[i]].parent == Some(e))
    && (forall i, j :: 0 <= i < j < |xs| ==> xs[i] != xs[j])
  }

  predicate ParamOf(s: Store, fd: Id, q: Id) {
    q in Children(s, fd) && q < |s| && s[q].data.param.Some?
  }

  function Twin(b: Builtins, r: Id): Id {
    if r == b.indicateReturn then b.indicateYield else if r == b.returnRegister then b.yieldRegister else r
  }

  // What a resolved call refers to: a typed function, neither a parameter nor itself a call, whose type is
  // not going to be expanded.
  ghost predicate Function(s: Store, fd: Id) {
    && fd < |s| && s[fd].links.call.None? && s[fd].links.alias.None? && s[fd].data.param.None?
    && s[fd].links.typeOf.Some?
    && var ft := s[fd].links.typeOf.value; ft < |s| && !Marked(s, ft) && s[ft].data.param.None?
  }

  // A marked call can be expanded, and passes nothing that only its function's body may name.
  ghost predicate Expandable(s: Store, b: Builtins, e: Id) {
    var fd := Callee(s, e);
    && e < |s| && fd < |s| && s[e].block.None? && s[e].links.inputs.Some? && s[fd].block.Some?
    && (forall i :: 0 <= i < |Args(s, e)| ==> ParamIn(s, Children(s, fd), i).Some?)
    && (forall i :: 0 <= i < |Args(s, e)| ==> Args(s, e)[i] < |s| && !ParamOf(s, fd, Args(s, e)[i]) && !ParamOf(s, Twin(b, fd), Args(s, e)[i]))
  }

  // All that is asked of an entity, but for its weight.
  ghost predicate Regular(s: Store, b: Builtins, e: Id) {
    && e < |s| && Kinded(s[e]) && OwnsChildren(s, e)
    && (s[e].links.alias.Some? ==> s[e].links.alias.value < |s|)
    && (s[e].links.call.Some? ==> Resolve(s, s[e].links.call.value).Some? && Function(s, Callee(s, e)))
    && (Marked(s, e) ==> Expandable(s, b, e))
  }

  ghost predicate Good(s: Store, w: seq<nat>, b: Builtins, e: Id) {
    Regular(s, b, e) && Valued(s, w, e)
  }

  // A compiler function and the one it is exchanged for have the same type and flag and an empty body.
  ghost predicate Twins(s: Store, a: Id, c: Id) {
    && Function(s, a) && Function(s, c) && s[a].links.typeOf == s[c].links.typeOf
    && (Flag.Inline in s[a].data.flags <==> Flag.Inline in s[c].data.flags)
    && s[a].block.Some? && s[c].block.Some?
    && NonParams(s, Children(s, a)) == [] && NonParams(s, Children(s, c)) == []
    && (forall i :: ParamIn(s, Children(s, a), i).Some? <==> ParamIn(s, Children(s, c), i).Some?)
  }

  ghost predicate Inv(s: Store, w: seq<nat>, b: Builtins) {
    && |w| == |s| && Keyed(ReturnPairs(b), |s|)
    && Twins(s, b.indicateReturn, b.indicateYield) && Twins(s, b.returnRegister, b.yieldRegister)
    && forall e: Id {:trigger Good(s, w, b, e)} :: e < |s| ==> Good(s, w, b, e)
  }

  /** A regular module whose inline call graph is acyclic meets the invariant, with the weights that this determines. */
  lemma {:induction false} AcyclicInv(s: Store, rank: seq<nat>, b: Builtins) returns (w: seq<nat>)
    requires Acyclic(s, rank) && Keyed(ReturnPairs(b), |s|)
    requires Twins(s, b.indicateReturn, b.indicateYield) && Twins(s, b.returnRegister, b.yieldRegister)
    requires forall e: Id {:trigger Regular(s, b, e)} :: e < |s| ==> Regular(s, b, e)
    ensures Inv(s, w, b)
  {
    w := AcyclicHasWeights(s, rank);
    hide Regular, Valued, Twins, Acyclic;
    forall e: Id | e < |s| ensures Good(s, w, b, e) { assert Regular(s, b, e) && Valued(s, w, e); }
  }

  // ---------- the shape below an entity ----------

  // Child lists and weights alone already make a finite shape.
  ghost function Grow(s: Store, w: seq<nat>, xs: seq<Id>, top: nat): Forest
    requires |w| == |s| && (forall e: Id :: e < |s| ==> Lower(w, Children(s, e), e))
    requires forall i :: 0 <= i < |xs| ==> xs[i] < |s| && w[xs[i]] < top
    decreases top, |xs|
  {
    if xs == [] then Nil
    else Cons(xs[0], Grow(s, w, Children(s, xs[0]), w[xs[0]]), Grow(s, w, xs[1..], top))
  }

  lemma {:induction false} GrowShape(s: Store, w: seq<nat>, xs: seq<Id>, top: nat, p: Id)
    requires |w| == |s| && (forall e: Id :: e < |s| ==> Lower(w, Children(s, e), e))
    requires forall i :: 0 <= i < |xs| ==> xs[i] < |s| && w[xs[i]] < top
    requires forall e: Id {:trigger OwnsChildren(s, e)} :: e < |s| ==> OwnsChildren(s, e)
    requires forall i :: 0 <= i < |xs| ==> s[xs[i]].parent == Some(p)
    ensures var f := Grow(s, w, xs, top);
            Roots(f) == xs && Rep(s, f) && Parents(s, f, p) && forall x :: x in Ids(f) ==> x < |s| && w[x] < top
    decreases top, |xs|
  {
    if xs != [] {
      assert OwnsChildren(s, xs[0]);
      GrowShape(s, w, Children(s, xs[0]), w[xs[0]], xs[0]);
      GrowShape(s, w, xs[1..], top, p);
    }
  }

  // A shape whose entities say who lists them has no sharing.
  lemma {:induction false} ParentsMakeTree(s: Store, w: seq<nat>, f: Forest, p: Id)
    requires |w| == |s| && p < |s| && Rep(s, f) && Parents(s, f, p)
    requires forall x :: x in Ids(f) ==> x < |s| && w[x] < w[p]
    requires forall e: Id :: e < |s| ==> Lower(w, Children(s, e), e)
    requires forall e: Id {:trigger OwnsChildren(s, e)} :: e < |s| ==> OwnsChildren(s, e)
    requires forall i, j :: 0 <= i < j < |Roots(f)| ==> Roots(f)[i] != Roots(f)[j]
    ensures NoDup(f)
    decreases f
  {
    if f.Cons? {
      assert Roots(f)[1..] == Roots(f.rest) && Roots(f.kids) == Children(s, f.id);
      assert OwnsChildren(s, f.id) && Lower(w, Children(s, f.id), f.id);
      hide Children;
      BelowRoot(s, w, f.kids, f.id);
      ParentsMakeTree(s, w, f.kids, f.id);
      ParentsMakeTree(s, w, f.rest, p);
      RootOnce(s, w, f, p);
      forall x | x in Ids(f.kids) ensures x !in Ids(f.rest) { NoOverlap(s, w, f, p, x); }
    }
  }

  // Weights fall along child lists, so everything below an entity weighs less.
  lemma {:induction false} BelowRoot(s: Store, w: seq<nat>, f: Forest, p: Id)
    requires |w| == |s| && p < |s| && Rep(s, f)
    requires forall e: Id :: e < |s| ==> Lower(w, Children(s, e), e)
    requires forall i :: 0 <= i < |Roots(f)| ==> Roots(f)[i] < |s| && w[Roots(f)[i]] < w[p]
    ensures forall x :: x in Ids(f) ==> x < |s| && w[x] < w[p]
    decreases f
  {
    if f.Cons? {
      assert Roots(f)[0] == f.id && Roots(f)[1..] == Roots(f.rest);
      assert Lower(w, Children(s, f.id), f.id);
      BelowRoot(s, w, f.kids, f.id);
      BelowRoot(s, w, f.rest, p);
    }
  }

  lemma {:induction false} RootOnce(s: Store, w: seq<nat>, f: Forest, p: Id)
    requires |w| == |s| && p < |s| && f.Cons? && Rep(s, f) && Parents(s, f, p)
    requires forall x :: x in Ids(f) ==> x < |s| && w[x] < w[p]
    requires forall i, j :: 0 <= i < j < |Roots(f)| ==> Roots(f)[i] != Roots(f)[j]
    ensures f.id !in Ids(f.rest)
  {
    forall i | 0 <= i < |Roots(f.rest)| ensures Roots(f.rest)[i] != f.id {
      assert Roots(f)[i + 1] == Roots(f.rest)[i] && Roots(f)[0] == f.id;
    }
    assert p in Ids(f.rest) ==> p in Ids(f);
    assert f.id !in Roots(f.rest);
    if f.id in Ids(f.rest) { DeepParent(s, f.rest, p, f.id); }
  }

  lemma {:induction false} DeepParent(s: Store, f: Forest, p: Id, x: Id)
    requires Parents(s, f, p) && x in Ids(f) && x !in Roots(f)
    ensures x < |s| && s[x].parent.Some? && s[x].parent.value in Ids(f)
    decreases f
  {
    assert Roots(f) == [f.id] + Roots(f.rest);
    if x in Ids(f.kids) { ParentInside(s, f.kids, f.id, x); } else { DeepParent(s, f.rest, p, x); }
  }

  lemma {:induction false} NoOverlap(s: Store, w: seq<nat>, f: Forest, p: Id, x: Id)
    requires |w| == |s| && p < |s| && f.Cons? && Rep(s, f) && Parents(s, f, p) && x < |s|
    requires forall x :: x in Ids(f) ==> x < |s| && w[x] < w[p]
    requires forall x :: x in Ids(f.kids) ==> w[x] < w[f.id]
    requires forall i, j :: 0 <= i < j < |Roots(f)| ==> Roots(f)[i] != Roots(f)[j]
    requires forall e: Id :: e < |s| ==> Lower(w, Children(s, e), e)
    ensures !(x in Ids(f.kids) && x in Ids(f.rest))
    decreases |s| + w[p] - w[x]
  {
    if x in Ids(f.kids) && x in Ids(f.rest) {
      RootOnce(s, w, f, p);
      ParentInside(s, f.kids, f.id, x);
      ParentInside(s, f.rest, p, x);
      assert Lower(w, Children(s, f.id), f.id);
      ParentAbove(s, w, f.kids, f.id, x);
      NoOverlap(s, w, f, p, s[x].parent.value);
    }
  }

  lemma {:induction false} ParentAbove(s: Store, w: seq<nat>, f: Forest, p: Id, x: Id)
    requires |w| == |s| && p < |s| && Rep(s, f) && Parents(s, f, p) && x in Ids(f)
    requires forall e: Id :: e < |s| ==> Lower(w, Children(s, e), e)
    requires forall i :: 0 <= i < |Roots(f)| ==> Roots(f)[i] < |s| && w[Roots(f)[i]] < w[p]
    ensures x < |s| && s[x].parent.Some? && s[x].parent.value < |s| && w[x] < w[s[x].parent.value]
    decreases f
  {
    assert Roots(f)[0] == f.id && Roots(f)[1..] == Roots(f.rest);
    if x == f.id {}
    else if x in Ids(f.kids) {
      assert Lower(w, Children(s, f.id), f.id);
      ParentAbove(s, w, f.kids, f.id, x);
    } else { ParentAbove(s, w, f.rest, p, x); }
  }

  lemma {:induction false} InvLower(s: Store, w: seq<nat>, b: Builtins)
    requires Inv(s, w, b)
    ensures forall e: Id :: e < |s| ==> Lower(w, Children(s, e), e)
    ensures forall e: Id {:trigger OwnsChildren(s, e)} :: e < |s| ==> OwnsChildren(s, e)
  {
    forall e: Id | e < |s| ensures Lower(w, Children(s, e), e) && OwnsChildren(s, e) {
      assert Good(s, w, b, e);
      GoodLower(s, w, b, e);
    }
  }

  lemma {:induction false} GoodLower(s: Store, w: seq<nat>, b: Builtins, e: Id)
    requires |w| == |s| && Good(s, w, b, e)
    ensures Lower(w, Children(s, e), e)
  {
    var xs := Children(s, e);
    forall i | 0 <= i < |xs| ensures xs[i] < |w| && w[xs[i]] < w[e] {
      WeightMember(w, xs, xs[i]);
    }
  }

  lemma {:induction false} NonParamsMember(s: Store, xs: seq<Id>, x: Id)
    ensures x in NonParams(s, xs) <==> x in xs && !(x < |s| && s[x].data.param.Some?)
    decreases |xs|
  {
    if xs != [] { NonParamsMember(s, xs[1..], x); }
  }

  // The shape of a function body, grown from its child list.
  ghost function Body(s: Store, w: seq<nat>, b: Builtins, fd: Id): Forest
    requires Inv(s, w, b) && fd < |s|
  {
    InvLower(s, w, b);
    Grow(s, w, Children(s, fd), w[fd])
  }

  lemma {:induction false} BodyShape(s: Store, w: seq<nat>, b: Builtins, fd: Id)
    requires Inv(s, w, b) && fd < |s|
    ensures var kids := Body(s, w, b, fd);
            && Roots(kids) == Children(s, fd) && Rep(s, kids) && NoDup(kids) && Parents(s, kids, fd)
            && fd !in Ids(kids)
  {
    InvLower(s, w, b);
    hide Inv, Good;
    var xs := Children(s, fd);
    assert OwnsChildren(s, fd) && Lower(w, xs, fd);
    GrowShape(s, w, xs, w[fd], fd);
    assert Body(s, w, b, fd) == Grow(s, w, xs, w[fd]);
    ParentsMakeTree(s, w, Body(s, w, b, fd), fd);
  }

  /** Under the invariant every marked call meets all that its expansion asks for. */
  lemma {:induction false} InvInlinable(s: Store, w: seq<nat>, b: Builtins, e: Id)
    requires Inv(s, w, b) && e < |s|
    ensures s[e].links.call.Some? ==> Callable(s, e)
    ensures Marked(s, e) ==> Callee(s, e) < |s| && Inlinable(s, e, Callee(s, e), Body(s, w, b, Callee(s, e)), b)
  {
    GoodCall(s, w, b, e);
    hide *;
    if Marked(s, e) {
      var fd := Callee(s, e);
      BodyShape(s, w, b, fd);
      CallOutsideBody(s, w, b, e, Body(s, w, b, fd));
      InlinableIntro(s, b, e, fd, Body(s, w, b, fd));
    }
  }

  lemma {:induction false} GoodCall(s: Store, w: seq<nat>, b: Builtins, e: Id)
    requires Inv(s, w, b) && e < |s|
    ensures s[e].links.call.Some? ==> Callable(s, e)
    ensures Marked(s, e) ==> Callee(s, e) < |s| && Expandable(s, b, e) && Keyed(ReturnPairs(b), |s|)
    ensures Marked(s, e) ==> e != b.indicateReturn && e != b.returnRegister && b.indicateReturn < |s| && b.returnRegister < |s|
  {
    assert Good(s, w, b, e);
  }

  lemma {:induction false} InlinableIntro(s: Store, b: Builtins, e: Id, fd: Id, kids: Forest)
    requires fd == Callee(s, e) && fd < |s| && Expandable(s, b, e) && Keyed(ReturnPairs(b), |s|)
    requires Roots(kids) == Children(s, fd) && Rep(s, kids) && NoDup(kids) && Parents(s, kids, fd) && fd !in Ids(kids)
    requires e != fd && e !in Ids(kids)
    requires e != b.indicateReturn && e != b.returnRegister && b.indicateReturn < |s| && b.returnRegister < |s|
    ensures Inlinable(s, e, fd, kids, b)
  {
    assert e < |s| && fd < |s| && s[e].block.None? && s[e].links.inputs.Some? && s[fd].block.Some?;
    assert Rep(s, Cons(fd, kids, Nil));
    assert NoDup(Cons(fd, kids, Nil));
    assert e !in Ids(Cons(fd, kids, Nil));
    assert (forall i :: 0 <= i < |Args(s, e)| ==> ParamIn(s, Children(s, fd), i).Some?);
  }

  // A marked call weighs more than everything its function's body holds, so it is not in there.
  lemma {:induction false} CallOutsideBody(s: Store, w: seq<nat>, b: Builtins, e: Id, kids: Forest)
    requires Inv(s, w, b) && Marked(s, e) && Rep(s, kids) && Roots(kids) == Children(s, Callee(s, e))
    ensures e != Callee(s, e) && e !in Ids(kids)
  {
    assert Good(s, w, b, e);
    InvLower(s, w, b);
    TreesBelow(s, w, b, e, kids);
  }

  lemma {:induction false} TreesBelow(s: Store, w: seq<nat>, b: Builtins, e: Id, f: Forest)
    requires Inv(s, w, b) && e < |s| && Marked(s, e) && Rep(s, f)
    requires forall i :: 0 <= i < |Roots(f)| ==> Roots(f)[i] in Children(s, Callee(s, e))
    requires forall e: Id :: e < |s| ==> Lower(w, Children(s, e), e)
    ensures e !in Ids(f)
    decreases f
  {
    if f.Cons? {
      assert Roots(f)[0] == f.id && Roots(f)[1..] == Roots(f.rest);
      hide Inv, Marked, Callee, Children, Roots;
      TreesBelow(s, w, b, e, f.rest);
      ChildBelow(s, w, b, e, f.id);
      KidsBelow(s, w, e, f.id, f.kids);
    }
  }

  lemma {:induction false} KidsBelow(s: Store, w: seq<nat>, e: Id, c: Id, kids: Forest)
    requires |w| == |s| && c < |s| && e < |s| && Rep(s, kids) && Roots(kids) == Children(s, c)
    requires c != e && (w[c] < w[e] || Children(s, c) == [])
    requires forall e: Id :: e < |s| ==> Lower(w, Children(s, e), e)
    ensures e !in Ids(kids)
  {
    RootsNonEmpty(kids);
    if w[c] < w[e] {
      assert Lower(w, Children(s, c), c);
      BelowRoot(s, w, kids, c);
    }
  }

  // A child of the function of a marked call is a childless parameter, or weighs less than the call.
  lemma {:induction false} ChildBelow(s: Store, w: seq<nat>, b: Builtins, e: Id, c: Id)
    requires Inv(s, w, b) && e < |s| && Marked(s, e) && c in Children(s, Callee(s, e)) && c < |s|
    ensures |w| == |s| && c != e && (w[c] < w[e] || Children(s, c) == [])
  {
    assert Good(s, w, b, e) && Good(s, w, b, c);
    if s[c].data.param.None? {
      NonParamsMember(s, Children(s, Callee(s, e)), c);
      WeightMember(w, Kids(s, e), c);
    }
  }
}
