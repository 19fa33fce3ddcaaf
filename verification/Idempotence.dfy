/** A second sort finds everything in place: sema/canonicalize/sort.cpp:18-44, 110-143. */
module Idempotence {
  import opened Wrappers
  import opened Store
  import opened Shapes
  import opened SortWalk
  import opened Renumber
  import opened CanonicalForm

  // No two parameters of one function have the same index.
  ghost predicate DistinctParams(s: Store, xs: seq<Id>) {
    forall a, b :: (a in xs && b in xs && a != b && a < |s| && b < |s| && s[a].data.param.Some? && s[b].data.param.Some?) ==>
      s[a].data.param != s[b].data.param
  }

  ghost predicate Comparable(s: Store, xs: seq<Id>) {
    forall a, b :: a in xs && b in xs && a != b ==> Less(s, a, b) || Less(s, b, a)
  }

  lemma {:induction false} ParamsCompare(s: Store, xs: seq<Id>)
    requires DistinctParams(s, xs)
    ensures Comparable(s, xs)
  {}

  // Where the order leaves no ties there is only one way to sort.
  lemma {:induction false} SortedUnique(s: Store, xs: seq<Id>, ys: seq<Id>)
    requires Ordered(s, xs) && Ordered(s, ys) && multiset(xs) == multiset(ys) && Comparable(s, xs)
    ensures xs == ys
    decreases |xs|
  {
    SameCount(xs, ys);
    if xs != [] {
      PermutedMember(xs, ys, xs[0]);
      PermutedMember(xs, ys, ys[0]);
      SortedHead(s, xs, ys);
      SameTail(xs, ys);
      hide Less;
      assert forall a :: a in xs[1..] ==> a in xs;
      assert Ordered(s, xs[1..]) && Ordered(s, ys[1..]) && Comparable(s, xs[1..]);
      SortedUnique(s, xs[1..], ys[1..]);
      assert xs == [xs[0]] + xs[1..] && ys == [ys[0]] + ys[1..];
    }
  }

  lemma {:induction false} SameCount(xs: seq<Id>, ys: seq<Id>)
    requires multiset(xs) == multiset(ys)
    ensures |xs| == |ys|
  {
    assert |multiset(xs)| == |xs| && |multiset(ys)| == |ys|;
  }

  lemma {:induction false} SortedHead(s: Store, xs: seq<Id>, ys: seq<Id>)
    requires Ordered(s, xs) && Ordered(s, ys) && Comparable(s, xs) && xs != [] && ys != []
    requires xs[0] in ys && ys[0] in xs
    ensures xs[0] == ys[0]
  {
    hide Less;
    var i :| 0 <= i < |xs| && xs[i] == ys[0];
    var j :| 0 <= j < |ys| && ys[j] == xs[0];
    assert i > 0 ==> !Less(s, xs[i], xs[0]);
    assert j > 0 ==> !Less(s, ys[j], ys[0]);
  }

  lemma {:induction false} SameTail(xs: seq<Id>, ys: seq<Id>)
    requires xs != [] && ys != [] && multiset(xs) == multiset(ys) && xs[0] == ys[0]
    ensures multiset(xs[1..]) == multiset(ys[1..])
  {
    assert xs == [xs[0]] + xs[1..] && ys == [ys[0]] + ys[1..];
    assert multiset(xs[1..]) == multiset(xs) - multiset{xs[0]};
    assert multiset(ys[1..]) == multiset(ys) - multiset{ys[0]};
  }

  // ---------- siblings ascend ----------

  lemma {:induction false} RootsAscend(f: Forest, lo: nat, i: nat, j: nat)
    requires Consecutive(f, lo) && i < j < |Roots(f)|
    ensures Roots(f)[i] < Roots(f)[j]
    decreases f
  {
    if i == 0 { RootAbove(f.rest, f.id + 1, j - 1); } else { RootsAscend(f.rest, f.id + 1, i - 1, j - 1); }
  }

  lemma {:induction false} RootAbove(f: Forest, lo: nat, j: nat)
    requires Consecutive(f, lo) && j < |Roots(f)|
    ensures lo <= Roots(f)[j]
    decreases f
  {
    if j > 0 { RootAbove(f.rest, f.id + 1, j - 1); }
  }

  // The part of the shape below a member.
  lemma {:induction false} BelowMember(s: Store, f: Forest, lo: nat, x: Id) returns (kids: Forest, from: nat)
    requires Rep(s, f) && Consecutive(f, lo) && x in Ids(f)
    ensures Children(s, x) == Roots(kids) && Rep(s, kids) && Consecutive(kids, from)
    ensures lo <= from && x == from + Size(kids) && Ids(kids) <= Ids(f)
  {
    if x == f.id { kids, from := f.kids, lo; }
    else if x in Ids(f.kids) { kids, from := BelowMember(s, f.kids, lo, x); }
    else { kids, from := BelowMember(s, f.rest, f.id + 1, x); }
  }

  lemma {:induction false} ChildrenAscend(s: Store, f: Forest, lo: nat, x: Id)
    requires Rep(s, f) && Consecutive(f, lo) && x in Ids(f)
    ensures forall i, j :: 0 <= i < j < |Children(s, x)| ==> Children(s, x)[i] < Children(s, x)[j]
  {
    var kids, from := BelowMember(s, f, lo, x);
    hide Consecutive, Rep, Ids;
    forall i, j | 0 <= i < j < |Children(s, x)| ensures Children(s, x)[i] < Children(s, x)[j] {
      RootsAscend(kids, from, i, j);
    }
  }

  // ---------- the second sort ----------

  // Renumbering keeps an ordered list ordered when it makes it ascend.
  lemma {:induction false} OrderedMoved(s: Store, t: Store, inv: Renaming, xs: seq<Id>)
    requires Ordered(s, xs) && (forall x :: x in xs ==> x < |s| && Sub(inv, x) < |t| && t[Sub(inv, x)].data == s[x].data)
    requires forall i, j :: 0 <= i < j < |xs| ==> SubIds(inv, xs)[i] < SubIds(inv, xs)[j]
    ensures Ordered(t, SubIds(inv, xs))
  {
    hide Sub;
    var ys := SubIds(inv, xs);
    forall i, j | 0 <= i < j < |ys| ensures !Less(t, ys[j], ys[i]) {
      assert !Less(s, xs[j], xs[i]);
      assert ys[i] < ys[j];
    }
  }

  lemma {:induction false} DistinctMoved(s: Store, t: Store, inv: Renaming, xs: seq<Id>)
    requires DistinctParams(s, xs) && (forall x :: x in xs ==> x < |s| && Sub(inv, x) < |t| && t[Sub(inv, x)].data == s[x].data)
    ensures DistinctParams(t, SubIds(inv, xs))
  {
    hide Sub;
    var ys := SubIds(inv, xs);
    forall a, b | a in ys && b in ys && a != b && a < |t| && b < |t| && t[a].data.param.Some? && t[b].data.param.Some?
      ensures t[a].data.param != t[b].data.param
    {
      var i :| 0 <= i < |ys| && ys[i] == a;
      var j :| 0 <= j < |ys| && ys[j] == b;
      assert xs[i] in xs && xs[j] in xs;
    }
  }

  lemma {:induction false} DistinctResorted(s: Store, m: Store, ids: set<Id>, e: Id)
    requires Resorted(s, m, ids) && e < |s| && DistinctParams(s, Children(s, e))
    ensures DistinctParams(m, Children(m, e))
  {
    ResortedAt(s, m, ids, e);
    ResortedData(s, m, ids);
    hide Resorted;
    forall x ensures x in Children(m, e) <==> x in Children(s, e) {
      if m[e] != s[e] { PermutedMember(Children(m, e), Children(s, e), x); }
    }
  }

  // After one sort the children of every function in the tree are in order, and comparable.
  lemma {:induction false} SortedOnce(s: Store, root: Id, kids: Forest, t: Store, newRoot: Id, o: Outcome, e: Id)
    requires Canonical(s, root, kids, t, newRoot, o) && e in {root} + Ids(kids) && e < |s| && Sorts(s[e])
    requires DistinctParams(s, Children(s, e))
    ensures Sub(o.inv, e) < |t| && Ordered(t, Children(t, Sub(o.inv, e))) && Comparable(t, Children(t, Sub(o.inv, e)))
  {
    SortIsomorphism(s, root, kids, t, newRoot, o);
    SortParts(s, root, kids, t, newRoot, o);
    var tree, xs := Cons(root, o.kids, Nil), Children(o.mid, e);
    SortedSource(s, root, kids, o, e);
    hide *;
    MovedChildren(o.mid, t, o.order, o.inv, e);
    IdsRenamed(o.inv, tree, e);
    TreeOf(t, newRoot, Rename(o.inv, o.kids));
    ChildrenAscend(t, Rename(o.inv, tree), 1, Sub(o.inv, e));
    SubAt(o.inv, e);
    forall x | x in xs ensures x < |o.mid| && Sub(o.inv, x) < |t| && t[Sub(o.inv, x)].data == o.mid[x].data {
      ChildrenInIds(o.mid, tree, e, x);
      RepInStore(o.mid, tree, x);
      MovedData(o.mid, t, o.order, o.inv, x);
    }
    OrderedMoved(o.mid, t, o.inv, xs);
    DistinctMoved(o.mid, t, o.inv, xs);
    ParamsCompare(t, SubIds(o.inv, xs));
  }

  lemma {:induction false} SortedSource(s: Store, root: Id, kids: Forest, o: Outcome, e: Id)
    requires Resorted(s, o.mid, {root} + Ids(kids)) && Ids(o.kids) == Ids(kids) && e in {root} + Ids(kids) && e < |s| && Sorts(s[e])
    requires DistinctParams(s, Children(s, e))
    ensures e in Ids(Cons(root, o.kids, Nil)) && e < |o.mid| && Ordered(o.mid, Children(o.mid, e)) && DistinctParams(o.mid, Children(o.mid, e))
  {
    assert Ids(Cons(root, o.kids, Nil)) == {root} + Ids(o.kids);
    hide Ids, Less, DistinctParams, Ordered;
    ResortedAt(s, o.mid, {root} + Ids(kids), e);
    OrderedKept(s, o.mid, Children(o.mid, e)) by { ResortedData(s, o.mid, {root} + Ids(kids)); }
    DistinctResorted(s, o.mid, {root} + Ids(kids), e);
  }

  lemma {:induction false} TreeOf(t: Store, root: Id, kids: Forest)
    requires Tree(t, root, kids)
    ensures Rep(t, Cons(root, kids, Nil)) && NoDup(Cons(root, kids, Nil)) && Ids(Cons(root, kids, Nil)) == {root} + Ids(kids)
  {}

  lemma {:induction false} MovedData(s: Store, t: Store, order: seq<Id>, inv: Renaming, e: Id)
    requires Renumbered(s, t, order, inv) && e < |s|
    ensures Sub(inv, e) < |t| && t[Sub(inv, e)].data == s[e].data
    ensures Sorts(t[Sub(inv, e)]) <==> Sorts(s[e])
  {
    MovedEntity(s, t, order, inv, e);
    SameLengths(s, t, order, inv);
  }

  // Every function's parameters in the tree have different indices.
  ghost predicate ParamsApart(s: Store, ids: set<Id>) {
    forall e {:trigger e in ids} :: e in ids && e < |s| && Sorts(s[e]) ==> DistinctParams(s, Children(s, e))
  }

  // Sorting children that are in order and comparable changes nothing.
  lemma {:induction false} ResortSame(s: Store, x: Entity, y: Entity)
    requires Resort(s, x, y)
    requires Sorts(x) ==> Ordered(s, x.block.value) && Comparable(s, x.block.value)
    ensures y == x
  {
    if Sorts(x) { SortedUnique(s, x.block.value, y.block.value); }
  }

  lemma {:induction false} SecondWalk(s: Store, root: Id, kids: Forest, t: Store, newRoot: Id, o: Outcome, mid2: Store)
    requires Canonical(s, root, kids, t, newRoot, o) && ParamsApart(s, {root} + Ids(kids))
    requires Resorted(t, mid2, {newRoot} + Ids(Rename(o.inv, o.kids)))
    ensures mid2 == t
  {
    SortIsomorphism(s, root, kids, t, newRoot, o);
    SortParts(s, root, kids, t, newRoot, o);
    var tree, all := Cons(root, o.kids, Nil), {newRoot} + Ids(Rename(o.inv, o.kids));
    TreeIds(root, o.kids, o.inv, newRoot);
    KidsSame(s, root, kids, t, newRoot, o);
    hide *;
    SameSize(t, mid2, all);
    forall y: Id | y < |t| ensures mid2[y] == t[y] {
      ResortedAt(t, mid2, all, y);
      if y in all {
        var e := RenameIds(o.inv, tree, y);
        RepInStore(o.mid, tree, e);
        SecondVisit(s, root, kids, t, newRoot, o, mid2, e, y);
      }
    }
  }

  lemma {:induction false} SameSize(s: Store, t: Store, ids: set<Id>)
    requires Resorted(s, t, ids)
    ensures |t| == |s|
  {}

  lemma {:induction false} TreeIds(root: Id, kids: Forest, inv: Renaming, newRoot: Id)
    requires Rename(inv, Cons(root, kids, Nil)) == Cons(newRoot, Rename(inv, kids), Nil)
    ensures Ids(Cons(root, kids, Nil)) == {root} + Ids(kids)
    ensures Ids(Rename(inv, Cons(root, kids, Nil))) == {newRoot} + Ids(Rename(inv, kids))
  {
    hide Rename;
  }

  lemma {:induction false} KidsSame(s: Store, root: Id, kids: Forest, t: Store, newRoot: Id, o: Outcome)
    requires Canonical(s, root, kids, t, newRoot, o)
    ensures Ids(o.kids) == Ids(kids)
  {
    hide Tree, Resorted, Renumbered, OrderOf;
  }

  // One entity of the tree, visited again.
  lemma {:induction false} SecondVisit(s: Store, root: Id, kids: Forest, t: Store, newRoot: Id, o: Outcome, mid2: Store, e: Id, y: Id)
    requires Canonical(s, root, kids, t, newRoot, o) && ParamsApart(s, {root} + Ids(kids)) && Resorted(s, o.mid, {root} + Ids(kids))
    requires Renumbered(o.mid, t, o.order, o.inv) && e in {root} + Ids(kids) && e < |s| == |o.mid| && y == Sub(o.inv, e) && y < |t|
    requires y < |mid2| && Resort(t, t[y], mid2[y])
    ensures mid2[y] == t[y]
  {
    hide Canonical, Renumbered, Resorted, Ids, DistinctParams, Comparable, Ordered, Resort;
    MovedData(o.mid, t, o.order, o.inv, e);
    ResortedAt(s, o.mid, {root} + Ids(kids), e);
    SortsKept(s, s[e], o.mid[e]);
    if Sorts(t[y]) { SortedOnce(s, root, kids, t, newRoot, o, e); }
    ResortSame(t, t[y], mid2[y]);
  }

  lemma {:induction false} SortsKept(s: Store, x: Entity, y: Entity)
    requires Resort(s, x, y)
    ensures Sorts(y) <==> Sorts(x)
  {
    hide Ordered;
  }

  // In a tree numbered from 1 the order is the identity.
  lemma {:induction false} IdentityOrder(root: Id, kids: Forest, n: nat)
    requires Consecutive(Cons(root, kids, Nil), 1) && root < n
    ensures OrderOf(root, kids, n) == Range(0, n)
  {
    hide *;
    TreeFromOne(root, kids);
    ConsecutivePost(Cons(root, kids, Nil), 1);
    MissingRest(root, kids, n);
    RangesMeet(root, n);
    OrderIs(root, kids, n);
  }

  lemma {:induction false} MissingRest(root: Id, kids: Forest, n: nat)
    requires Consecutive(kids, 1) && Size(kids) + 1 == root && root < n
    ensures Missing({INVALID, root} + Ids(kids), 0, n) == Range(1 + root, n - (1 + root))
  {
    var found := {INVALID, root} + Ids(kids);
    hide Missing, Consecutive, Ids, Size;
    forall x: Id ensures x in found <==> x < 1 + root { FoundBelow(root, kids, x); }
    MissingTail(found, 0, 1 + root, n);
  }

  lemma {:induction false} TreeFromOne(root: Id, kids: Forest)
    requires Consecutive(Cons(root, kids, Nil), 1)
    ensures Size(Cons(root, kids, Nil)) == root && Consecutive(kids, 1) && Size(kids) + 1 == root
  {}

  lemma {:induction false} FoundBelow(root: Id, kids: Forest, x: Id)
    requires Consecutive(kids, 1) && Size(kids) + 1 == root
    ensures x in {INVALID, root} + Ids(kids) <==> x < 1 + root
  {
    Interval(kids, 1, x);
  }

  lemma {:induction false} RangesMeet(root: nat, n: nat)
    requires root < n
    ensures [INVALID] + Range(1, root) + Range(1 + root, n - (1 + root)) == Range(0, n)
  {}

  lemma {:induction false} IdentityRenumbers(s: Store, t: Store, inv: Renaming)
    requires Renumbered(s, t, Range(0, |s|), inv)
    ensures t == s
  {
    var order := Range(0, |s|);
    SameLengths(s, t, order, inv);
    hide MapRefs;
    forall r: Id | r < |s| ensures inv[r] == r { InverseAt(order, inv, r); }
    forall i: Id | i < |s| ensures t[i] == s[i] {
      assert t[i] == MapRefs(inv, s[order[i]]);
      IdentityMaps(inv, s[i]);
    }
  }

  lemma {:induction false} IdentityMaps(inv: Renaming, x: Entity)
    requires forall r: Id :: r < |inv| ==> inv[r] == r
    ensures MapRefs(inv, x) == x
  {
    assert forall r: Id :: Sub(inv, r) == r;
    if x.block.Some? { assert SubIds(inv, x.block.value) == x.block.value; }
    if x.links.inputs.Some? { assert SubIds(inv, x.links.inputs.value) == x.links.inputs.value; }
  }

  /**
   Sorting is idempotent: if no function has two parameters with the same index, a second sort computes
   the identity order and leaves every entity, child lists included, as it is.
   */
  lemma {:induction false} SortIdempotent(s: Store, root: Id, kids: Forest, t: Store, newRoot: Id, o: Outcome,
                                          kids2: Forest, t2: Store, newRoot2: Id, o2: Outcome)
    requires Canonical(s, root, kids, t, newRoot, o) && ParamsApart(s, {root} + Ids(kids))
    requires Canonical(t, newRoot, kids2, t2, newRoot2, o2)
    ensures o2.order == Range(0, |t|) && o2.mid == t && t2 == t && newRoot2 == newRoot
  {
    hide *;
    var again := Rename(o.inv, o.kids);
    SortedTree(s, root, kids, t, newRoot, o);
    SecondParts(t, newRoot, kids2, t2, newRoot2, o2);
    UniqueKids(t, newRoot, kids2, again);
    SecondWalk(s, root, kids, t, newRoot, o, o2.mid);
    UniqueKids(t, newRoot, o2.kids, again);
    IdentityOrder(newRoot, again, |t|);
    IdentityRenumbers(t, t2, o2.inv);
  }

  lemma {:induction false} SortedTree(s: Store, root: Id, kids: Forest, t: Store, newRoot: Id, o: Outcome)
    requires Canonical(s, root, kids, t, newRoot, o)
    ensures Tree(t, newRoot, Rename(o.inv, o.kids)) && Consecutive(Cons(newRoot, Rename(o.inv, o.kids), Nil), 1)
    ensures newRoot < |t| && newRoot == 1 + Size(Rename(o.inv, o.kids))
  {
    SortIsomorphism(s, root, kids, t, newRoot, o);
    SortParts(s, root, kids, t, newRoot, o);
    SizeRenamed(o.inv, o.kids);
    MovedInside(o.mid, t, o.order, o.inv, root);
  }

  lemma {:induction false} MovedInside(s: Store, t: Store, order: seq<Id>, inv: Renaming, e: Id)
    requires Renumbered(s, t, order, inv) && e < |s|
    ensures e < |inv| && inv[e] < |t|
  {
    MovedEntity(s, t, order, inv, e);
  }

  lemma {:induction false} SecondParts(t: Store, newRoot: Id, kids2: Forest, t2: Store, newRoot2: Id, o2: Outcome)
    requires Canonical(t, newRoot, kids2, t2, newRoot2, o2)
    ensures Tree(t, newRoot, kids2) && Tree(o2.mid, newRoot, o2.kids) && Resorted(t, o2.mid, {newRoot} + Ids(kids2))
    ensures Renumbered(o2.mid, t2, o2.order, o2.inv) && o2.order == OrderOf(newRoot, o2.kids, |t|) && newRoot2 == 1 + Size(kids2)
  {
    hide Tree, Resorted, Renumbered, OrderOf;
  }

  lemma {:induction false} UniqueKids(t: Store, root: Id, f: Forest, g: Forest)
    requires Tree(t, root, f) && Tree(t, root, g)
    ensures f == g
  {
    RepUnique(t, f, g);
  }
}
