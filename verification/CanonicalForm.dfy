/** What `sort` guarantees: an isomorphic store, numbered in post-order, and nothing left to do. */
module CanonicalForm {
  import opened Wrappers
  import opened Store
  import opened Shapes
  import opened SortWalk
  import opened Renumber

  // ---------- consecutive numbering ----------

  // The post-order of the shape is `lo`, `lo + 1`, ...
  predicate Consecutive(f: Forest, lo: nat) {
    match f
    case Nil => true
    case Cons(id, kids, rest) => Consecutive(kids, lo) && id == lo + Size(kids) && Consecutive(rest, id + 1)
  }

  lemma {:induction false} ConsecutivePost(f: Forest, lo: nat)
    ensures Consecutive(f, lo) <==> Post(f) == Range(lo, Size(f))
  {
    if f.Cons? {
      ConsecutivePost(f.kids, lo);
      ConsecutivePost(f.rest, f.id + 1);
      PostIds(f.kids, 0);
      PostIds(f.rest, 0);
      hide Consecutive, Post;
      var n := Size(f.kids);
      assert Post(f) == Post(f.kids) + [f.id] + Post(f.rest) by { PostParts(f); }
      ThreeRanges(Post(f.kids), f.id, Post(f.rest), lo, n, Size(f.rest));
      ConsecutiveParts(f, lo);
    }
  }

  lemma {:induction false} PostParts(f: Forest)
    requires f.Cons?
    ensures Post(f) == Post(f.kids) + [f.id] + Post(f.rest)
  {}

  lemma {:induction false} ConsecutiveParts(f: Forest, lo: nat)
    requires f.Cons?
    ensures Consecutive(f, lo) <==> Consecutive(f.kids, lo) && f.id == lo + Size(f.kids) && Consecutive(f.rest, f.id + 1)
  {}

  // A row of ids is consecutive exactly if its parts are and meet.
  lemma {:induction false} ThreeRanges(a: seq<Id>, e: Id, c: seq<Id>, lo: nat, n: nat, m: nat)
    requires |a| == n && |c| == m
    ensures a + [e] + c == Range(lo, n + 1 + m) <==> a == Range(lo, n) && e == lo + n && c == Range(e + 1, m)
  {
    var row := a + [e] + c;
    if row == Range(lo, n + 1 + m) {
      assert a == Range(lo, n) by { forall i | 0 <= i < n ensures a[i] == lo + i { assert row[i] == a[i]; } }
      assert row[n] == e;
      forall i | 0 <= i < m ensures c[i] == e + 1 + i { assert row[n + 1 + i] == c[i]; }
    }
  }

  lemma {:induction false} PostRenamed(m: Renaming, f: Forest)
    ensures Post(Rename(m, f)) == SubIds(m, Post(f))
  {
    if f.Cons? {
      PostRenamed(m, f.kids);
      PostRenamed(m, f.rest);
      SubConcat(m, Post(f.kids), [f.id]);
      SubConcat(m, Post(f.kids) + [f.id], Post(f.rest));
    }
  }

  lemma {:induction false} SubConcat(m: Renaming, xs: seq<Id>, ys: seq<Id>)
    ensures SubIds(m, xs + ys) == SubIds(m, xs) + SubIds(m, ys)
  {}

  lemma {:induction false} SizeRenamed(m: Renaming, f: Forest)
    ensures Size(Rename(m, f)) == Size(f)
  {
    if f.Cons? {
      SizeRenamed(m, f.kids);
      SizeRenamed(m, f.rest);
    }
  }

  // ---------- the isomorphism ----------

  lemma {:induction false} InverseInjective(order: seq<Id>, inv: Renaming, ids: set<Id>)
    requires Inverse(order, inv) && forall x :: x in ids ==> x < |inv|
    ensures Injective(inv, ids)
  {
    forall x, y | x in ids && y in ids && Sub(inv, x) == Sub(inv, y) ensures x == y {
      assert order[inv[x]] == x && order[inv[y]] == y;
    }
  }

  lemma {:induction false} MovedEntity(s: Store, t: Store, order: seq<Id>, inv: Renaming, e: Id)
    requires Renumbered(s, t, order, inv) && e < |s|
    ensures inv[e] < |t| && t[inv[e]] == MapRefs(inv, s[e]) && order[inv[e]] == e
  {
    assert order[inv[e]] == e;
    assert t[inv[e]] == MapRefs(inv, s[order[inv[e]]]);
  }

  lemma {:induction false} MovedChildren(s: Store, t: Store, order: seq<Id>, inv: Renaming, e: Id)
    requires Renumbered(s, t, order, inv) && e < |s|
    ensures inv[e] < |t| && Children(t, inv[e]) == SubIds(inv, Children(s, e)) && t[inv[e]].parent == SubOpt(inv, s[e].parent)
  {
    MovedEntity(s, t, order, inv, e);
    hide Renumbered;
    assert SubIds(inv, []) == [];
  }

  lemma {:induction false} MovedTree(s: Store, t: Store, order: seq<Id>, inv: Renaming, f: Forest)
    requires Renumbered(s, t, order, inv) && Rep(s, f) && NoDup(f)
    ensures Rep(t, Rename(inv, f)) && NoDup(Rename(inv, f))
  {
    hide Rep, NoDup, Inverse, MapRefs;
    forall x {:trigger x in Ids(f)} | x in Ids(f)
      ensures x < |inv| && Sub(inv, x) < |t| && Children(t, Sub(inv, x)) == SubIds(inv, Children(s, x))
    {
      RepInStore(s, f, x);
      MovedChildren(s, t, order, inv, x);
      SameLengths(s, t, order, inv);
    }
    RenameRep(inv, s, t, f);
    InverseInjective(order, inv, Ids(f));
    RenameNoDup(inv, f);
  }

  lemma {:induction false} SameLengths(s: Store, t: Store, order: seq<Id>, inv: Renaming)
    requires Renumbered(s, t, order, inv)
    ensures |inv| == |s| == |t| == |order|
  {}

  lemma {:induction false} MovedParents(s: Store, t: Store, order: seq<Id>, inv: Renaming, f: Forest, p: Id)
    requires Renumbered(s, t, order, inv) && Parents(s, f, p)
    ensures Parents(t, Rename(inv, f), Sub(inv, p))
  {
    hide Renumbered;
    if f.Cons? {
      SameLengths(s, t, order, inv);
      MovedChildren(s, t, order, inv, f.id);
      MovedParents(s, t, order, inv, f.kids, f.id);
      MovedParents(s, t, order, inv, f.rest, p);
    }
  }

  // The place of an entity of the tree in the order.
  lemma {:induction false} OrderAt(root: Id, kids: Forest, n: nat, i: nat)
    requires i < |Post(Cons(root, kids, Nil))|
    ensures 1 + i < |OrderOf(root, kids, n)| && OrderOf(root, kids, n)[1 + i] == Post(Cons(root, kids, Nil))[i]
    ensures OrderOf(root, kids, n)[0] == INVALID
  {
    hide Post, Missing, Ids;
  }

  lemma {:induction false} TreeNumbers(root: Id, kids: Forest, order: seq<Id>, inv: Renaming, n: nat)
    requires order == OrderOf(root, kids, n) && Inverse(order, inv)
    ensures Consecutive(Rename(inv, Cons(root, kids, Nil)), 1)
  {
    hide *;
    var tree := Cons(root, kids, Nil);
    PostRenamed(inv, tree);
    SizeRenamed(inv, tree);
    PostIds(tree, 0);
    ConsecutivePost(Rename(inv, tree), 1);
    forall i | 0 <= i < |Post(tree)| ensures Sub(inv, Post(tree)[i]) == 1 + i {
      OrderAt(root, kids, n, i);
      InverseAt(order, inv, 1 + i);
      SubAt(inv, Post(tree)[i]);
    }
    assert SubIds(inv, Post(tree)) == Range(1, Size(tree));
  }

  /**
   Sorting preserves meaning: renumbering is a bijection that fixes the invalid entity, every entity
   keeps its data, and every reference of every kind follows its target.  Before the renumbering only
   the child lists of functions are rearranged.  The tree below the new root is numbered in post-order.
   */
  lemma {:induction false} SortIsomorphism(s: Store, root: Id, kids: Forest, t: Store, newRoot: Id, o: Outcome)
    requires Canonical(s, root, kids, t, newRoot, o)
    ensures |t| == |s| == |o.mid| == |o.inv| == |o.order| && INVALID < |s| && Sub(o.inv, INVALID) == INVALID
    ensures forall e {:trigger o.inv[e]} :: 0 <= e < |s| ==>
              o.inv[e] < |t| && t[o.inv[e]] == MapRefs(o.inv, o.mid[e]) && o.order[o.inv[e]] == e
    ensures Resorted(s, o.mid, {root} + Ids(kids))
    ensures root < |s| && o.inv[root] == newRoot && Rename(o.inv, Cons(root, o.kids, Nil)) == Cons(newRoot, Rename(o.inv, o.kids), Nil)
    ensures Tree(t, newRoot, Rename(o.inv, o.kids)) && Consecutive(Cons(newRoot, Rename(o.inv, o.kids), Nil), 1)
  {
    SortParts(s, root, kids, t, newRoot, o);
    hide *;
    SameLengths(o.mid, t, o.order, o.inv);
    forall e {:trigger o.inv[e]} | 0 <= e < |s|
      ensures o.inv[e] < |t| && t[o.inv[e]] == MapRefs(o.inv, o.mid[e]) && o.order[o.inv[e]] == e
    {
      MovedEntity(o.mid, t, o.order, o.inv, e);
    }
    TreeNumbers(root, o.kids, o.order, o.inv, |s|);
    MovedTree(o.mid, t, o.order, o.inv, Cons(root, o.kids, Nil));
    RootPlace(s, root, kids, t, newRoot, o);
    RenamedTree(t, o.inv, root, o.kids, newRoot);
  }

  lemma {:induction false} SortParts(s: Store, root: Id, kids: Forest, t: Store, newRoot: Id, o: Outcome)
    requires Canonical(s, root, kids, t, newRoot, o)
    ensures |s| > 0 && |o.mid| == |s| && Resorted(s, o.mid, {root} + Ids(kids))
    ensures Rep(o.mid, Cons(root, o.kids, Nil)) && NoDup(Cons(root, o.kids, Nil)) && Tree(o.mid, root, o.kids)
    ensures Renumbered(o.mid, t, o.order, o.inv) && Inverse(o.order, o.inv) && o.order == OrderOf(root, o.kids, |s|)
    ensures root < |s| && Size(o.kids) == Size(kids) && newRoot == 1 + Size(kids)
  {
    hide OrderOf, Inverse, Resort, MapRefs;
    TreeParts(s, root, kids);
    TreeParts(o.mid, root, o.kids);
    SizeIsCount(kids);
    SizeIsCount(o.kids);
  }

  lemma {:induction false} RootPlace(s: Store, root: Id, kids: Forest, t: Store, newRoot: Id, o: Outcome)
    requires Canonical(s, root, kids, t, newRoot, o) && |o.inv| == |s| && root < |s|
    ensures o.inv[root] == newRoot && Sub(o.inv, INVALID) == INVALID
  {
    SortParts(s, root, kids, t, newRoot, o);
    hide *;
    PostIds(o.kids, root);
    PostEnd([], o.kids, root);
    PostTree(o.kids, root);
    OrderAt(root, o.kids, |s|, Size(o.kids));
    InverseAt(o.order, o.inv, 1 + Size(o.kids));
    InverseAt(o.order, o.inv, 0);
    SubAt(o.inv, INVALID);
  }

  lemma {:induction false} PostTree(kids: Forest, e: Id)
    ensures |Post(Cons(e, kids, Nil))| == 1 + Size(kids) && Post(Cons(e, kids, Nil))[Size(kids)] == e
  {
    PostIds(kids, e);
  }

  lemma {:induction false} InverseAt(order: seq<Id>, inv: Renaming, i: nat)
    requires Inverse(order, inv) && i < |order|
    ensures order[i] < |inv| && inv[order[i]] == i
  {}

  lemma {:induction false} RenamedTree(t: Store, inv: Renaming, root: Id, kids: Forest, newRoot: Id)
    requires root < |inv| && inv[root] == newRoot
    requires Rep(t, Rename(inv, Cons(root, kids, Nil))) && NoDup(Rename(inv, Cons(root, kids, Nil)))
    requires Consecutive(Rename(inv, Cons(root, kids, Nil)), 1)
    ensures Rename(inv, Cons(root, kids, Nil)) == Cons(newRoot, Rename(inv, kids), Nil)
    ensures Tree(t, newRoot, Rename(inv, kids)) && Consecutive(Cons(newRoot, Rename(inv, kids), Nil), 1)
  {
    var g := Cons(newRoot, Rename(inv, kids), Nil);
    assert Rename(inv, Cons(root, kids, Nil)) == g;
    hide Rep, NoDup, Rename;
    if INVALID in Ids(g) { Interval(g, 1, INVALID); }
  }

  /** In a consecutively numbered shape the members are exactly one interval. */
  lemma {:induction false} Interval(f: Forest, lo: nat, x: Id)
    requires Consecutive(f, lo)
    ensures x in Ids(f) <==> lo <= x < lo + Size(f)
  {
    if f.Cons? {
      Interval(f.kids, lo, x);
      Interval(f.rest, f.id + 1, x);
    }
  }
}
