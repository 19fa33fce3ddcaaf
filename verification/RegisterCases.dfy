/** Registers that clash: opt/allocate_registers.hpp:16-20 on a sorted module. */
module RegisterCases {
  import opened Wrappers
  import opened Store
  import opened Shapes
  import opened SortWalk
  import opened Renumber
  import opened CanonicalForm
  import opened Edits
  import opened Allocate
  import opened Registers
  import opened AllocatePass

  const NAMES: Names := Names(10, 11, 12)

  function Leaf(parent: Id, links: Links, number: Option<nat>): Entity {
    BLANK.(parent := Some(parent), links := links, data := NO_DATA.(number := number))
  }

  function Value(parent: Id): Entity {
    Leaf(parent, NO_LINKS.(typeOf := Some(11)), Some(7))
  }

  function Begin(parent: Id): Entity {
    Leaf(parent, NO_LINKS.(typeOf := Some(11), call := Some(12)), None)
  }

  function Block(parent: Option<Id>, list: seq<Id>): Entity {
    BLANK.(parent := parent, block := Some(list))
  }

  // Block 9 lists block 3, a call that begins allocation, a value, and block 8 with such a call and a value of its own.
  const CLASH: Store := [
    BLANK, Leaf(3, NO_LINKS, None), Leaf(3, NO_LINKS, None), Block(Some(9), [1, 2]), Begin(9), Value(9),
    Begin(8), Value(8), Block(Some(9), [6, 7]), Block(None, [3, 4, 5, 8]), BLANK, BLANK, BLANK]

  // The shape below 9, from the inside out.
  const F1: Forest := Cons(1, Nil, Cons(2, Nil, Nil))
  const F6: Forest := Cons(6, Nil, Cons(7, Nil, Nil))
  const F3: Forest := Cons(3, F1, Cons(4, Nil, Cons(5, Nil, Cons(8, F6, Nil))))
  const F9: Forest := Cons(9, F3, Nil)

  // Trees in their place: below `p`, numbered from `lo` on.
  ghost predicate Placed(f: Forest, p: Id, lo: nat, n: nat, roots: seq<Id>) {
    && Rep(CLASH, f) && NoDup(f) && Parents(CLASH, f, p) && Consecutive(f, lo)
    && Size(f) == n && Roots(f) == roots
  }

  lemma {:induction false} PlaceNone(p: Id, lo: nat)
    ensures Placed(Nil, p, lo, 0, [])
  {}

  lemma {:induction false} Place(id: Id, kids: Forest, rest: Forest, p: Id, lo: nat, n: nat, m: nat, xs: seq<Id>, ys: seq<Id>, zs: seq<Id>)
    requires zs == [id] + ys && Placed(kids, id, lo, n, xs) && Placed(rest, p, id + 1, m, ys) && id == lo + n
    requires id < |CLASH| && Children(CLASH, id) == xs && CLASH[id].parent == Some(p)
    ensures Placed(Cons(id, kids, rest), p, lo, n + 1 + m, zs)
  {
    hide CLASH, Children, Ids;
    PlacedApart(id, kids, rest, p, lo, n, m, xs, ys);
    assert Rep(CLASH, Cons(id, kids, rest));
    assert NoDup(Cons(id, kids, rest));
    assert Parents(CLASH, Cons(id, kids, rest), p);
  }

  lemma {:induction false} PlacedApart(id: Id, kids: Forest, rest: Forest, p: Id, lo: nat, n: nat, m: nat, xs: seq<Id>, ys: seq<Id>)
    requires Placed(kids, id, lo, n, xs) && Placed(rest, p, id + 1, m, ys) && id == lo + n
    ensures Ids(kids) !! Ids(rest) && id !in Ids(kids) && id !in Ids(rest)
  {
    forall x: Id ensures (x in Ids(kids) <==> lo <= x < lo + n) && (x in Ids(rest) <==> id + 1 <= x < id + 1 + m) {
      Interval(kids, lo, x);
      Interval(rest, id + 1, x);
    }
    hide *;
  }

  lemma {:induction false} Entities()
    ensures |CLASH| == 13 && CLASH[1].parent == Some(3) && CLASH[2].parent == Some(3) && CLASH[3].parent == Some(9) && CLASH[4].parent == Some(9)
    ensures CLASH[5].parent == Some(9) && CLASH[6].parent == Some(8) && CLASH[7].parent == Some(8) && CLASH[8].parent == Some(9)
    ensures Children(CLASH, 1) == Children(CLASH, 2) == Children(CLASH, 4) == Children(CLASH, 5) == Children(CLASH, 6) == Children(CLASH, 7) == []
    ensures Children(CLASH, 3) == [1, 2] && Children(CLASH, 8) == [6, 7] && Children(CLASH, 9) == [3, 4, 5, 8]
  {}

  lemma {:induction false} ClashShape()
    ensures WellFormed(CLASH, 9, F3) && Consecutive(F9, 1)
  {
    hide Placed, CLASH, Children;
    Entities();
    PlaceNone(3, 3);
    PlaceNone(2, 2);
    PlaceNone(1, 1);
    Place(2, Nil, Nil, 3, 2, 0, 0, [], [], [2]);
    Place(1, Nil, Cons(2, Nil, Nil), 3, 1, 0, 1, [], [2], [1, 2]);
    PlaceNone(8, 8);
    PlaceNone(7, 7);
    PlaceNone(6, 6);
    Place(7, Nil, Nil, 8, 7, 0, 0, [], [], [7]);
    Place(6, Nil, Cons(7, Nil, Nil), 8, 6, 0, 1, [], [7], [6, 7]);
    PlaceNone(9, 9);
    Place(8, F6, Nil, 9, 6, 2, 0, [6, 7], [], [8]);
    PlaceNone(5, 5);
    Place(5, Nil, Cons(8, F6, Nil), 9, 5, 0, 3, [], [8], [5, 8]);
    PlaceNone(4, 4);
    Place(4, Nil, Cons(5, Nil, Cons(8, F6, Nil)), 9, 4, 0, 4, [], [5, 8], [4, 5, 8]);
    Place(3, F1, Cons(4, Nil, Cons(5, Nil, Cons(8, F6, Nil))), 9, 1, 2, 5, [1, 2], [4, 5, 8], [3, 4, 5, 8]);
    ClashRoot(F3);
  }

  lemma {:induction false} ClashRoot(f: Forest)
    requires Placed(f, 9, 1, 8, [3, 4, 5, 8])
    ensures WellFormed(CLASH, 9, f) && Consecutive(Cons(9, f, Nil), 1)
  {
    Entities();
    hide CLASH, Children;
    forall x: Id ensures x in Ids(f) <==> 1 <= x < 9 { Interval(f, 1, x); }
    assert Ids(Nil) == {} && Ids(Cons(9, f, Nil)) == {9} + Ids(f) + Ids(Nil);
    hide Rep, NoDup, Parents, Consecutive;
    RootPlaced(f);
  }

  lemma {:induction false} RootPlaced(f: Forest)
    requires Placed(f, 9, 1, 8, [3, 4, 5, 8]) && 9 !in Ids(f)
    ensures Rep(CLASH, Cons(9, f, Nil)) && NoDup(Cons(9, f, Nil)) && Parents(CLASH, f, 9) && Consecutive(Cons(9, f, Nil), 1)
  {
    Entities();
    hide CLASH, Children;
    assert Rep(CLASH, Nil) && NoDup(Nil) && Ids(Nil) == {} && Consecutive(Nil, 10);
  }

  lemma {:induction false} Dequeue(id: Id, kids: Forest, rest: Forest, queue: Forest, order: seq<Id>)
    requires Append(rest, kids) == queue && Bfs(queue) == order
    ensures Bfs(Cons(id, kids, rest)) == [id] + order
  {}

  lemma {:induction false} Queued(id: Id, kids: Forest, rest: Forest, g: Forest, queue: Forest)
    requires Append(rest, g) == queue
    ensures Append(Cons(id, kids, rest), g) == Cons(id, kids, queue)
  {}

  lemma {:induction false} QueueEnds(f: Forest)
    ensures Append(Nil, f) == f && Append(f, Nil) == f && Bfs(Nil) == []
  {
    AppendNil(f);
  }

  // The queue, visit by visit.
  lemma {:induction false} LastVisits()
    ensures Bfs(Cons(1, Nil, Cons(2, Nil, F6))) == [1, 2, 6, 7]
    ensures Append(F1, F6) == Cons(1, Nil, Cons(2, Nil, F6))
  {
    hide Bfs, Append;
    var f7, f2 := Cons(7, Nil, Nil), Cons(2, Nil, F6);
    QueueEnds(Nil);
    Dequeue(7, Nil, Nil, Nil, []);
    QueueEnds(f7);
    Dequeue(6, Nil, f7, f7, [7]);
    QueueEnds(F6);
    Dequeue(2, Nil, F6, F6, [6, 7]);
    QueueEnds(f2);
    Dequeue(1, Nil, f2, f2, [2, 6, 7]);
    Queued(2, Nil, Nil, F6, F6);
    Queued(1, Nil, Cons(2, Nil, Nil), F6, f2);
  }

  lemma {:induction false} MiddleVisits(inner: Forest, outer: Forest, last: seq<Id>)
    requires Bfs(Append(inner, outer)) == last
    ensures Bfs(Cons(4, Nil, Cons(5, Nil, Cons(8, outer, inner)))) == [4, 5, 8] + last
    ensures Append(Cons(4, Nil, Cons(5, Nil, Cons(8, outer, Nil))), inner) == Cons(4, Nil, Cons(5, Nil, Cons(8, outer, inner)))
  {
    hide Bfs, Append;
    var f8 := Cons(8, outer, inner);
    var f5 := Cons(5, Nil, f8);
    Dequeue(8, outer, inner, Append(inner, outer), last);
    QueueEnds(f8);
    Dequeue(5, Nil, f8, f8, [8] + last);
    QueueEnds(f5);
    Dequeue(4, Nil, f5, f5, [5] + ([8] + last));
    assert [4] + ([5] + ([8] + last)) == [4, 5, 8] + last;
    QueueEnds(inner);
    Queued(8, outer, Nil, inner, inner);
    Queued(5, Nil, Cons(8, outer, Nil), inner, f8);
    Queued(4, Nil, Cons(5, Nil, Cons(8, outer, Nil)), inner, f5);
  }

  lemma {:induction false} ClashVisits()
    ensures Bfs(F9) == [9, 3, 4, 5, 8, 1, 2, 6, 7]
  {
    hide Bfs, Append;
    LastVisits();
    MiddleVisits(F1, F6, [1, 2, 6, 7]);
    FirstVisits(F1, Cons(4, Nil, Cons(5, Nil, Cons(8, F6, Nil))), [4, 5, 8] + [1, 2, 6, 7]);
    assert [9, 3] + ([4, 5, 8] + [1, 2, 6, 7]) == [9, 3, 4, 5, 8, 1, 2, 6, 7];
  }

  lemma {:induction false} FirstVisits(inner: Forest, rest: Forest, later: seq<Id>)
    requires Bfs(Append(rest, inner)) == later
    ensures Bfs(Cons(9, Cons(3, inner, rest), Nil)) == [9, 3] + later
  {
    hide Bfs, Append;
    var f3 := Cons(3, inner, rest);
    Dequeue(3, inner, rest, Append(rest, inner), later);
    QueueEnds(f3);
    Dequeue(9, f3, Nil, f3, [3] + later);
    assert [9] + ([3] + later) == [9, 3] + later;
  }

  lemma {:induction false} Turn(a: State, e: Id, order: seq<Id>, x: Id)
    ensures Assigned(CLASH, NAMES, a, [e] + order, x) ==
            if e == x then Visited(CLASH, NAMES, a, x).1 else Assigned(CLASH, NAMES, Visited(CLASH, NAMES, a, e).0, order, x)
  {
    assert ([e] + order)[1..] == order;
  }

  // The state after each visit.
  lemma {:induction false} ClashStates()
    ensures Visited(CLASH, NAMES, FIRST, 9).0 == FIRST && Visited(CLASH, NAMES, FIRST, 3).0 == State(false, 1)
    ensures Visited(CLASH, NAMES, State(false, 1), 4).0 == State(true, 1) && Visited(CLASH, NAMES, State(true, 1), 5) == (State(true, 2), Some(1))
    ensures Visited(CLASH, NAMES, State(true, 2), 8).0 == State(true, 2) && Visited(CLASH, NAMES, State(true, 2), 1).0 == State(false, 1)
    ensures Visited(CLASH, NAMES, State(false, 1), 2).0 == State(false, 1) && Visited(CLASH, NAMES, State(false, 1), 6).0 == State(true, 1)
    ensures Visited(CLASH, NAMES, State(true, 1), 7) == (State(true, 2), Some(1))
  {}

  lemma {:induction false} ClashAssigned()
    ensures Assigned(CLASH, NAMES, FIRST, [9, 3, 4, 5, 8, 1, 2, 6, 7], 5) == Some(1)
    ensures Assigned(CLASH, NAMES, FIRST, [9, 3, 4, 5, 8, 1, 2, 6, 7], 7) == Some(1)
  {
    hide *;
    ClashStates();
    assert [9, 3, 4, 5, 8, 1, 2, 6, 7] == [9] + [3, 4, 5, 8, 1, 2, 6, 7];
    assert [3, 4, 5, 8, 1, 2, 6, 7] == [3] + [4, 5, 8, 1, 2, 6, 7];
    assert [4, 5, 8, 1, 2, 6, 7] == [4] + [5, 8, 1, 2, 6, 7];
    assert [5, 8, 1, 2, 6, 7] == [5] + [8, 1, 2, 6, 7];
    assert [8, 1, 2, 6, 7] == [8] + [1, 2, 6, 7];
    assert [1, 2, 6, 7] == [1] + [2, 6, 7];
    assert [2, 6, 7] == [2] + [6, 7];
    assert [6, 7] == [6] + [7];
    assert [7] == [7] + [];
    Turn(State(true, 1), 7, [], 7);
    Turn(State(false, 1), 6, [7], 7);
    Turn(State(false, 1), 2, [6, 7], 7);
    Turn(State(true, 2), 1, [2, 6, 7], 7);
    Turn(State(true, 2), 8, [1, 2, 6, 7], 7);
    Turn(State(true, 1), 5, [8, 1, 2, 6, 7], 7);
    Turn(State(true, 1), 5, [8, 1, 2, 6, 7], 5);
    Turn(State(false, 1), 4, [5, 8, 1, 2, 6, 7], 7);
    Turn(State(false, 1), 4, [5, 8, 1, 2, 6, 7], 5);
    Turn(FIRST, 3, [4, 5, 8, 1, 2, 6, 7], 7);
    Turn(FIRST, 3, [4, 5, 8, 1, 2, 6, 7], 5);
    Turn(FIRST, 9, [3, 4, 5, 8, 1, 2, 6, 7], 7);
    Turn(FIRST, 9, [3, 4, 5, 8, 1, 2, 6, 7], 5);
  }

  lemma {:induction false} ClashAllocatable(f: Forest)
    requires WellFormed(CLASH, 9, f)
    ensures Allocatable(CLASH, 9, f)
  {
    forall x: Id | x < |CLASH| && HasValue(CLASH[x]) ensures CLASH[x].links.typeOf.Some? {
      assert x == 4 || x == 5 || x == 6 || x == 7;
    }
    assert 9 < |CLASH| && !HasValue(CLASH[9]);
    hide WellFormed, CLASH, HasValue;
  }

  /**
   In a sorted linked tree two values can get the same register: an inner block with a low id is visited
   between them, the count starts again, and a second call begins allocation anew.
   */
  lemma {:induction false} ClashInSortedTree()
    ensures WellFormed(CLASH, 9, F3) && Consecutive(F9, 1) && Allocatable(CLASH, 9, F3)
    ensures Assigned(CLASH, NAMES, FIRST, Bfs(F9), 5) == Some(1) == Assigned(CLASH, NAMES, FIRST, Bfs(F9), 7)
    ensures !LowApart(CLASH, NAMES, FIRST, Bfs(F9))
  {
    hide *;
    ClashShape();
    ClashVisits();
    ClashAssigned();
    ClashAllocatable(F3);
    var order := [9, 3, 4, 5, 8, 1, 2, 6, 7];
    assert order[3] == 5 && order[8] == 7 && 5 !in order[..3] && 7 !in order[..8];
    AssignedAt(CLASH, NAMES, FIRST, order, 3);
    AssignedAt(CLASH, NAMES, FIRST, order, 8);
    SameRegister(order, 3, 8);
  }

  lemma {:induction false} SameRegister(order: seq<Id>, i: nat, k: nat)
    requires i < k < |order| && RegisterAt(CLASH, NAMES, FIRST, order, i) == RegisterAt(CLASH, NAMES, FIRST, order, k) == Some(1)
    ensures !LowApart(CLASH, NAMES, FIRST, order)
  {
    RegistersDifferIff(CLASH, NAMES, FIRST, order);
    hide RegisterAt, LowApart;
    assert Given(CLASH, NAMES, FIRST, order, i) && Given(CLASH, NAMES, FIRST, order, k);
  }
}
