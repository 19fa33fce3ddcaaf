/** What sorting hands to the passes after it: a linked tree in canonical order. */
module SortedShape {
  import opened Wrappers
  import opened Store
  import opened Shapes
  import opened SortWalk
  import opened Renumber
  import opened CanonicalForm
  import opened Idempotence
  import opened NameLookup
  import opened Edits
  import opened SortedDump

  lemma {:induction false} PickParents(s: Store, f: Forest, p: Id, x: Id)
    requires Parents(s, f, p) && x in Roots(f)
    ensures x < |s| && s[x].parent == Some(p) && Parents(s, Pick(f, x), x)
    decreases f
  {
    if f.id != x { PickParents(s, f.rest, p, x); }
  }

  // Rearranging siblings keeps the cached parents right.
  lemma {:induction false} ParentsSame(s: Store, m: Store, ids: set<Id>, f: Forest, g: Forest, p: Id)
    requires SameBut(s, m, ids) && Rep(s, f) && Rep(m, g) && Parents(s, f, p)
    requires forall x :: x in Roots(g) ==> x in Roots(f)
    ensures Parents(m, g, p)
    decreases g
  {
    if g.Cons? {
      var r := g.id;
      assert Roots(g)[0] == r && Roots(g)[1..] == Roots(g.rest);
      assert forall x :: x in Roots(g.rest) ==> x in Roots(g);
      PickParents(s, f, p, r);
      PickRep(s, f, r);
      ParentKept(s, m, ids, r);
      hide SameBut;
      ParentsSame(s, m, ids, f, g.rest, p);
      forall x | x in Roots(g.kids) ensures x in Roots(Pick(f, r)) { SameChildren(s, m, ids, r, x); }
      ParentsSame(s, m, ids, Pick(f, r), g.kids, r);
    }
  }

  lemma {:induction false} ParentKept(s: Store, m: Store, ids: set<Id>, e: Id)
    requires SameBut(s, m, ids) && e < |s|
    ensures e < |m| && m[e].parent == s[e].parent
  {
    ResortedData(s, m, ids);
  }

  lemma {:induction false} RootsSame(s: Store, m: Store, ids: set<Id>, root: Id, f: Forest, g: Forest)
    requires SameBut(s, m, ids) && root < |s| && Children(s, root) == Roots(f) && Children(m, root) == Roots(g)
    ensures forall x :: x in Roots(g) ==> x in Roots(f)
  {
    forall x | x in Roots(g) ensures x in Roots(f) { SameChildren(s, m, ids, root, x); }
  }

  /**
   A linked tree sorted is a linked tree, numbered so that children come before parents and every subtree
   is one interval.
   */
  lemma {:induction false} SortKeepsWellFormed(s: Store, root: Id, kids: Forest, t: Store, newRoot: Id, o: Outcome)
    requires WellFormed(s, root, kids) && Canonical(s, root, kids, t, newRoot, o)
    ensures WellFormed(t, newRoot, Rename(o.inv, o.kids)) && Consecutive(Cons(newRoot, Rename(o.inv, o.kids), Nil), 1)
  {
    hide *;
    var all := {root} + Ids(kids);
    SortedTree(s, root, kids, t, newRoot, o);
    SortParts(s, root, kids, t, newRoot, o);
    SortLists(s, root, kids, t, newRoot, o);
    SameButIntro(s, o.mid, all);
    RootsSame(s, o.mid, all, root, kids, o.kids);
    WellFormedParts(s, root, kids);
    ParentsSame(s, o.mid, all, kids, o.kids, root);
    MovedParents(o.mid, t, o.order, o.inv, o.kids, root);
    SameLengths(o.mid, t, o.order, o.inv);
    RootPlace(s, root, kids, t, newRoot, o);
    SubAt(o.inv, root);
    WellFormedIntro(t, newRoot, Rename(o.inv, o.kids));
  }

  lemma {:induction false} SortLists(s: Store, root: Id, kids: Forest, t: Store, newRoot: Id, o: Outcome)
    requires Canonical(s, root, kids, t, newRoot, o)
    ensures Rep(s, kids) && Children(s, root) == Roots(kids) && Rep(o.mid, o.kids) && Children(o.mid, root) == Roots(o.kids)
  {
    hide Resorted, MapRefs, OrderOf;
  }

  lemma {:induction false} WellFormedParts(s: Store, root: Id, kids: Forest)
    requires WellFormed(s, root, kids)
    ensures Parents(s, kids, root)
  {}

  lemma {:induction false} WellFormedIntro(s: Store, root: Id, kids: Forest)
    requires Tree(s, root, kids) && Parents(s, kids, root)
    ensures WellFormed(s, root, kids)
  {}

  /**
   So after sorting, the cached parent and the forward scan agree for every entity below the root, and if
   nothing else has both a block and a parent, lookups end.
   */
  lemma {:induction false} SortedLookups(s: Store, root: Id, kids: Forest, t: Store, newRoot: Id, o: Outcome, e: Id)
    requires WellFormed(s, root, kids) && Canonical(s, root, kids, t, newRoot, o)
    ensures var tree := Rename(o.inv, o.kids);
            && (e in Ids(tree) ==> FindParent(t, e) == FindBlock(t, e, e) != INVALID)
            && ((forall x {:trigger t[x]} :: 0 <= x < |t| && t[x].block.Some? && t[x].parent.Some? ==> x in Ids(tree)) ==> ParentsAbove(t))
  {
    hide *;
    var tree := Rename(o.inv, o.kids);
    SortKeepsWellFormed(s, root, kids, t, newRoot, o);
    WellFormedElim(t, newRoot, tree);
    if e in Ids(tree) { CacheAgreesWithScan(t, newRoot, tree, e); }
    if forall x {:trigger t[x]} :: 0 <= x < |t| && t[x].block.Some? && t[x].parent.Some? ==> x in Ids(tree) {
      CanonicalParentsAbove(t, newRoot, tree);
    }
  }

  lemma {:induction false} WellFormedElim(s: Store, root: Id, kids: Forest)
    requires WellFormed(s, root, kids)
    ensures Tree(s, root, kids) && Parents(s, kids, root)
  {}
}
