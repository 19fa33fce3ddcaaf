/** A function whose children are out of order: sema/canonicalize/sort.cpp:22-41. */
module SortCases {
  import opened Wrappers
  import opened Store
  import opened Shapes
  import opened SortWalk
  import opened Renumber

  const A_TYPE: Entity := BLANK.(data := NO_DATA.(typeDef := Some(TypeDefinition(8, 8, 0))))
  const TYPED: Entity := BLANK.(links := NO_LINKS.(typeOf := Some(5)))

  // The function 1 lists an entity that is no parameter before its second parameter and that before its first.
  const BACKWARDS: Store := [
    BLANK, BLANK.(block := Some([2, 3, 4]), links := NO_LINKS.(typeOf := Some(5), returnType := Some(5))),
    TYPED, TYPED.(data := NO_DATA.(param := Some(1))), TYPED.(data := NO_DATA.(param := Some(0))), A_TYPE]

  function Three(a: Id, b: Id, c: Id): Forest {
    Cons(a, Nil, Cons(b, Nil, Cons(c, Nil, Nil)))
  }

  lemma {:induction false} ThreeFacts(a: Id, b: Id, c: Id)
    ensures Roots(Three(a, b, c)) == [a, b, c] && Ids(Three(a, b, c)) == {a, b, c} && Post(Three(a, b, c)) == [a, b, c]
    ensures Size(Three(a, b, c)) == 3 && (a != b && b != c && a != c ==> NoDup(Three(a, b, c)))
  {
    var one, two := Cons(c, Nil, Nil), Cons(b, Nil, Cons(c, Nil, Nil));
    assert Roots(one) == [c] && Ids(one) == {c} && Post(one) == [c] && Size(one) == 1 && NoDup(one);
    assert Roots(two) == [b, c] && Ids(two) == {b, c} && Post(two) == [b, c] && Size(two) == 2;
  }

  lemma {:induction false} ThreeRep(s: Store, a: Id, b: Id, c: Id)
    requires a < |s| && b < |s| && c < |s| && Children(s, a) == Children(s, b) == Children(s, c) == []
    ensures Rep(s, Three(a, b, c))
  {
    assert Rep(s, Cons(c, Nil, Nil));
    assert Rep(s, Cons(b, Nil, Cons(c, Nil, Nil)));
  }

  lemma {:induction false} BackwardsTree()
    ensures Tree(BACKWARDS, 1, Three(2, 3, 4))
  {
    ThreeFacts(2, 3, 4);
    ThreeRep(BACKWARDS, 2, 3, 4);
    hide Three;
  }

  /** Afterwards the first parameter is first, the second second, and the rest follows. */
  method SortBackwards() returns (mod: Module, newRoot: Id)
    ensures newRoot == 4 && |mod.ents| == 6 && mod.ents[4].block == Some([1, 2, 3])
    ensures mod.ents[1].data.param == Some(0) && mod.ents[2].data.param == Some(1) && mod.ents[3].data.param == None
  {
    mod := new Module();
    mod.ents := BACKWARDS;
    BackwardsTree();
    ghost var o: Outcome;
    hide *;
    assert |BACKWARDS| == 6 by { BackwardsFacts(); }
    newRoot, o := Sort(mod, 1, Three(2, 3, 4));
    BackwardsSorted(mod.ents, newRoot, o);
  }

  lemma {:induction false} BackwardsFacts()
    ensures |BACKWARDS| == 6 && BACKWARDS[1].block == Some([2, 3, 4]) && BACKWARDS[1].links.returnType.Some?
    ensures BACKWARDS[2].data.param == None && BACKWARDS[3].data.param == Some(1) && BACKWARDS[4].data.param == Some(0)
    ensures BACKWARDS[2].block == BACKWARDS[3].block == BACKWARDS[4].block == None
  {}

  lemma {:induction false} BackwardsSorted(t: Store, newRoot: Id, o: Outcome)
    requires Canonical(BACKWARDS, 1, Three(2, 3, 4), t, newRoot, o)
    ensures newRoot == 4 && |t| == 6 && t[4].block == Some([1, 2, 3])
    ensures t[1].data.param == Some(0) && t[2].data.param == Some(1) && t[3].data.param == None
  {
    hide *;
    BackwardsFacts();
    ThreeFacts(2, 3, 4);
    BackwardsWalked(t, newRoot, o);
    BackwardsOrder(t, newRoot, o);
    MovedFour(o.mid, t, o.order, o.inv);
  }

  // The walk leaves the parameters first, by index.
  lemma {:induction false} BackwardsWalked(t: Store, newRoot: Id, o: Outcome)
    requires Canonical(BACKWARDS, 1, Three(2, 3, 4), t, newRoot, o)
    ensures |o.mid| == 6 && o.mid[1].block == Some([4, 3, 2]) && o.kids == Three(4, 3, 2)
    ensures o.mid[2] == BACKWARDS[2] && o.mid[3] == BACKWARDS[3] && o.mid[4] == BACKWARDS[4]
  {
    assert Resorted(BACKWARDS, o.mid, {1} + Ids(Three(2, 3, 4))) && Tree(o.mid, 1, o.kids) by { hide Resorted, Tree; }
    hide *;
    BackwardsFacts();
    var ids := {1} + Ids(Three(2, 3, 4));
    ThreeFacts(2, 3, 4);
    LeafKept(BACKWARDS, o.mid, ids, 2);
    LeafKept(BACKWARDS, o.mid, ids, 3);
    LeafKept(BACKWARDS, o.mid, ids, 4);
    RootSorted(o.mid, ids);
    BackwardsKids(o);
  }

  lemma {:induction false} LeafKept(s: Store, t: Store, ids: set<Id>, e: Id)
    requires Resorted(s, t, ids) && e < |s| && s[e].block.None?
    ensures |t| == |s| && t[e] == s[e]
  {
    assert t[e] == t[e];
  }

  lemma {:induction false} RootSorted(mid: Store, ids: set<Id>)
    requires Resorted(BACKWARDS, mid, ids) && 1 in ids
    ensures |mid| == 6 && mid[1].block == Some([4, 3, 2])
  {
    ResortedMeans(BACKWARDS, mid, ids);
    hide *;
    BackwardsFacts();
    assert mid[1] == mid[1];
    OnlyOrder(mid[1].block.value);
  }

  lemma {:induction false} BackwardsKids(o: Outcome)
    requires Tree(o.mid, 1, o.kids) && |o.mid| == 6 && o.mid[1].block == Some([4, 3, 2])
    requires o.mid[2] == BACKWARDS[2] && o.mid[3] == BACKWARDS[3] && o.mid[4] == BACKWARDS[4]
    ensures o.kids == Three(4, 3, 2)
  {
    ThreeFacts(4, 3, 2);
    BackwardsFacts();
    assert Children(o.mid, 1) == [4, 3, 2] && Children(o.mid, 2) == Children(o.mid, 3) == Children(o.mid, 4) == [];
    TreeParts(o.mid, 1, o.kids);
    hide *;
    ThreeRep(o.mid, 4, 3, 2);
    RepUnique(o.mid, o.kids, Three(4, 3, 2));
  }

  // The only order of the three children that has the parameters first, by index.
  lemma {:induction false} OnlyOrder(xs: seq<Id>)
    requires multiset(xs) == multiset([2, 3, 4])
    requires forall i, j :: 0 <= i < j < |xs| && xs[i] < 6 && xs[j] < 6 ==>
               && (BACKWARDS[xs[j]].data.param.Some? ==>
                     BACKWARDS[xs[i]].data.param.Some? && BACKWARDS[xs[i]].data.param.value <= BACKWARDS[xs[j]].data.param.value)
               && (BACKWARDS[xs[i]].data.param.None? ==> xs[i] <= xs[j])
    ensures xs == [4, 3, 2]
  {
    BackwardsFacts();
    hide *;
    assert |multiset(xs)| == 3 && |xs| == 3;
    assert 2 in multiset(xs) && 3 in multiset(xs) && 4 in multiset(xs);
    var first :| 0 <= first < |xs| && xs[first] == 4;
    var second :| 0 <= second < |xs| && xs[second] == 3;
    var third :| 0 <= third < |xs| && xs[third] == 2;
    assert first < second < third;
  }

  lemma {:induction false} BackwardsOrder(t: Store, newRoot: Id, o: Outcome)
    requires Canonical(BACKWARDS, 1, Three(2, 3, 4), t, newRoot, o) && o.kids == Three(4, 3, 2) && |BACKWARDS| == |o.mid| == 6
    ensures newRoot == 4 && |o.order| == 6 && o.order[..5] == [0, 4, 3, 2, 1] && Renumbered(o.mid, t, o.order, o.inv)
  {
    hide *;
    ThreeFacts(2, 3, 4);
    ThreeFacts(4, 3, 2);
    CanonicalOrder(BACKWARDS, 1, Three(2, 3, 4), t, newRoot, o);
    SameOrder(o.mid, t, o.order, o.inv);
    OrderIs(1, o.kids, 6);
    PostEnd([0], o.kids, 1);
    assert [INVALID] == [0] by { InvalidIsZero(); }
    assert [0] + ([4, 3, 2] + [1]) == [0, 4, 3, 2, 1];
  }

  lemma {:induction false} InvalidIsZero()
    ensures INVALID == 0
  {}

  lemma {:induction false} CanonicalOrder(s: Store, root: Id, kids: Forest, t: Store, newRoot: Id, o: Outcome)
    requires Canonical(s, root, kids, t, newRoot, o)
    ensures Renumbered(o.mid, t, o.order, o.inv) && newRoot == 1 + Size(kids) && o.order == OrderOf(root, o.kids, |s|)
  {
    hide Resorted, Tree, Renumbered, OrderOf;
  }

  lemma {:induction false} SameOrder(s: Store, t: Store, order: seq<Id>, inv: Renaming)
    requires Renumbered(s, t, order, inv)
    ensures |order| == |s| == |t|
  {}

  lemma {:induction false} MovedFour(s: Store, t: Store, order: seq<Id>, inv: Renaming)
    requires Renumbered(s, t, order, inv) && |s| == 6 && order[..5] == [0, 4, 3, 2, 1] && |order| == 6 && s[1].block == Some([4, 3, 2])
    ensures |t| == 6 && t[4].block == Some([1, 2, 3])
    ensures t[1].data == s[4].data && t[2].data == s[3].data && t[3].data == s[2].data
  {
    assert order[1] == order[..5][1] && order[2] == order[..5][2] && order[3] == order[..5][3] && order[4] == order[..5][4];
    assert t[4] == MapRefs(inv, s[1]);
    assert inv[4] == 1 && inv[3] == 2 && inv[2] == 3;
    assert SubIds(inv, [4, 3, 2]) == [1, 2, 3];
    assert t[1] == MapRefs(inv, s[4]) && t[2] == MapRefs(inv, s[3]) && t[3] == MapRefs(inv, s[2]);
  }
}
