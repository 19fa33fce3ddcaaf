/**
 The walkers of systems.hpp that visit children before parents.  A visitor is any step on a state of its
 own that can ask to stop; it leaves the child lists alone.
 */
module Walk {
  import opened Wrappers
  import opened Store
  import opened Shapes
  import opened SortWalk
  import opened Renumber
  import opened CanonicalForm

  // Visiting a list of entities in turn, up to the first visit that fails.
  function Run<S>(visit: (S, Id) -> (bool, S), state: S, xs: seq<Id>): (bool, S)
    decreases |xs|
  {
    if xs == [] then (true, state)
    else
      var step := visit(state, xs[0]);
      if step.0 then Run(visit, step.1, xs[1..]) else step
  }

  lemma {:induction false} RunAppend<S>(visit: (S, Id) -> (bool, S), state: S, xs: seq<Id>, ys: seq<Id>)
    ensures var first := Run(visit, state, xs);
            Run(visit, state, xs + ys) == if first.0 then Run(visit, first.1, ys) else first
    decreases |xs|
  {
    if xs == [] {
      assert xs + ys == ys;
    } else {
      assert (xs + ys)[1..] == xs[1..] + ys;
      var step := visit(state, xs[0]);
      if step.0 { RunAppend(visit, step.1, xs[1..], ys); }
    }
  }

  lemma {:induction false} RunOne<S>(visit: (S, Id) -> (bool, S), state: S, e: Id)
    ensures Run(visit, state, [e]) == visit(state, e)
  {
    var step := visit(state, e);
    assert [e][1..] == [];
    assert step.0 ==> Run(visit, step.1, []) == (true, step.1);
  }

  // ---------- depth first, with an explicit stack ----------

  datatype Frame = Frame(entity: Id, childIndex: nat)

  // What a stack still has to visit, given the children each frame has left.
  ghost function Remaining(stack: seq<Frame>, left: seq<Forest>): seq<Id>
    requires |stack| == |left|
    decreases |stack|
  {
    if stack == [] then []
    else
      var k := |stack| - 1;
      Post(left[k]) + [stack[k].entity] + Remaining(stack[..k], left[..k])
  }

  ghost predicate Pending(s: Store, frame: Frame, left: Forest) {
    && frame.entity < |s| && Rep(s, left) && frame.childIndex <= |Children(s, frame.entity)|
    && Roots(left) == Children(s, frame.entity)[frame.childIndex..]
  }

  ghost predicate Stacked(s: Store, stack: seq<Frame>, left: seq<Forest>) {
    |stack| == |left| && forall k :: 0 <= k < |stack| ==> Pending(s, stack[k], left[k])
  }

  lemma {:induction false} RemainingTop(stack: seq<Frame>, left: seq<Forest>, frame: Frame, kids: Forest)
    requires |stack| == |left|
    ensures Remaining(stack + [frame], left + [kids]) == Post(kids) + [frame.entity] + Remaining(stack, left)
  {
    assert (stack + [frame])[..|stack|] == stack && (left + [kids])[..|left|] == left;
  }

  lemma {:induction false} RemainingLength(stack: seq<Frame>, left: seq<Forest>)
    requires |stack| == |left|
    ensures |Remaining(stack, left)| >= |stack|
    decreases |stack|
  {
    if stack != [] { RemainingLength(stack[..|stack| - 1], left[..|left| - 1]); }
  }

  // Descending into the next child does not change what is to be visited.
  lemma {:induction false} PushKeeps(stack: seq<Frame>, left: seq<Forest>, frame: Frame, kids: Forest)
    requires |stack| == |left| && kids.Cons?
    ensures var deeper := stack + [frame.(childIndex := frame.childIndex + 1)] + [Frame(kids.id, 0)];
            Remaining(deeper, left + [kids.rest] + [kids.kids]) == Remaining(stack + [frame], left + [kids])
  {
    var frame' := frame.(childIndex := frame.childIndex + 1);
    RemainingTop(stack, left, frame, kids);
    RemainingTop(stack, left, frame', kids.rest);
    RemainingTop(stack + [frame'], left + [kids.rest], Frame(kids.id, 0), kids.kids);
    hide Remaining;
    assert Post(kids) == Post(kids.kids) + [kids.id] + Post(kids.rest);
    Regroup(Post(kids.kids), [kids.id], Post(kids.rest), [frame.entity], Remaining(stack, left));
  }

  lemma {:induction false} Regroup(a: seq<Id>, b: seq<Id>, c: seq<Id>, d: seq<Id>, e: seq<Id>)
    ensures a + b + (c + d + e) == (a + b + c) + d + e
  {}

  method DepthFirst<S>(s: Store, root: Id, visit: (S, Id) -> (bool, S), start: S, ghost kids: Forest) returns (ok: bool, state: S)
    requires Rep(s, Cons(root, kids, Nil))
    ensures (ok, state) == Run(visit, start, Post(Cons(root, kids, Nil)))
  {
    hide Remaining, Run, Post, Rep, Pending;
    state := start;
    var stack := [Frame(root, 0)];
    ghost var left := [kids];
    StackStart(s, root, kids);
    ghost var all := Remaining(stack, left);
    while stack != []
      invariant Stacked(s, stack, left)
      invariant Run(visit, start, Post(Cons(root, kids, Nil))) == Run(visit, state, Remaining(stack, left))
      invariant |Remaining(stack, left)| >= |stack|
      decreases 2 * |Remaining(stack, left)| - |stack|
    {
      var k := |stack| - 1;
      var frame := stack[k];
      ghost var rest, lower := left[..k], left[k];
      assert stack == stack[..k] + [frame] && left == rest + [lower];
      PendingParts(s, frame, lower);
      RemainingTop(stack[..k], rest, frame, lower);
      if s[frame.entity].block.Some? && frame.childIndex < |s[frame.entity].block.value| {
        var child := s[frame.entity].block.value[frame.childIndex];
        PushKeeps(stack[..k], rest, frame, lower);
        PushPending(s, frame, lower);
        stack := stack[..k] + [frame.(childIndex := frame.childIndex + 1)] + [Frame(child, 0)];
        left := rest + [lower.rest] + [lower.kids];
      } else {
        NothingLeft(s, frame, lower);
        RunStep(visit, state, frame.entity, Remaining(stack[..k], rest));
        var step := visit(state, frame.entity);
        state := step.1;
        if !step.0 { return false, state; }
        stack, left := stack[..k], rest;
      }
      RemainingLength(stack, left);
    }
    RunNothing(visit, state, left);
    ok := true;
  }

  lemma {:induction false} StackStart(s: Store, root: Id, kids: Forest)
    requires Rep(s, Cons(root, kids, Nil))
    ensures Stacked(s, [Frame(root, 0)], [kids])
    ensures Remaining([Frame(root, 0)], [kids]) == Post(Cons(root, kids, Nil))
    ensures |Remaining([Frame(root, 0)], [kids])| >= 1
  {
    RemainingTop([], [], Frame(root, 0), kids);
    assert [] + [Frame(root, 0)] == [Frame(root, 0)] && [] + [kids] == [kids];
    assert Pending(s, Frame(root, 0), kids);
  }

  lemma {:induction false} PendingParts(s: Store, frame: Frame, kids: Forest)
    requires Pending(s, frame, kids)
    ensures frame.entity < |s| && frame.childIndex <= |Children(s, frame.entity)|
    ensures Roots(kids) == Children(s, frame.entity)[frame.childIndex..]
  {}

  lemma {:induction false} PushPending(s: Store, frame: Frame, kids: Forest)
    requires Pending(s, frame, kids) && frame.childIndex < |Children(s, frame.entity)|
    ensures kids.Cons? && kids.id == Children(s, frame.entity)[frame.childIndex]
    ensures Pending(s, frame.(childIndex := frame.childIndex + 1), kids.rest) && Pending(s, Frame(kids.id, 0), kids.kids)
  {
    assert Roots(kids)[0] == kids.id && Roots(kids.rest) == Roots(kids)[1..];
  }

  lemma {:induction false} NothingLeft(s: Store, frame: Frame, kids: Forest)
    requires Pending(s, frame, kids) && frame.childIndex == |Children(s, frame.entity)|
    ensures kids == Nil && Post(kids) == []
  {
    RootsNonEmpty(kids);
  }

  lemma {:induction false} RunStep<S>(visit: (S, Id) -> (bool, S), state: S, e: Id, xs: seq<Id>)
    ensures var step := visit(state, e);
            Run(visit, state, [] + [e] + xs) == if step.0 then Run(visit, step.1, xs) else step
  {
    assert ([] + [e] + xs)[1..] == xs;
  }

  lemma {:induction false} RunNothing<S>(visit: (S, Id) -> (bool, S), state: S, left: seq<Forest>)
    requires |left| == 0
    ensures Run(visit, state, Remaining([], left)) == (true, state)
  {}

  // ---------- the index loop over a sorted subtree ----------

  // In a consecutive shape a tree's members, in post-order, are the numbers up to its root.
  lemma {:induction false} TreeRange(root: Id, kids: Forest, lo: nat)
    requires Consecutive(Cons(root, kids, Nil), lo)
    ensures lo <= root && Post(Cons(root, kids, Nil)) == Range(lo, root + 1 - lo)
  {
    ConsecutivePost(Cons(root, kids, Nil), lo);
  }

  lemma {:induction false} RangeStep(lo: nat, n: nat)
    ensures Range(lo, n + 1) == Range(lo, n) + [lo + n]
  {}

  /**
   Visits a canonically numbered subtree by counting: the first child's own range first, by recursion,
   then every number up to the root.  The same visits, in the same order, as the walk over child lists.
   */
  method SortedLoop<S>(s: Store, subtree: Id, visit: (S, Id) -> (bool, S), start: S, ghost kids: Forest, ghost lo: nat)
    returns (ok: bool, state: S)
    requires Rep(s, Cons(subtree, kids, Nil)) && Consecutive(Cons(subtree, kids, Nil), lo)
    ensures (ok, state) == Run(visit, start, Post(Cons(subtree, kids, Nil)))
    decreases subtree
  {
    hide Run, Post, Rep, Consecutive, Roots;
    LoopStart(s, subtree, kids, lo);
    TreeRange(subtree, kids, lo);
    if s[subtree].block.None? || s[subtree].block.value == [] {
      RunOne(visit, start, subtree);
      var step := visit(start, subtree);
      return step.0, step.1;
    }
    var first := s[subtree].block.value[0];
    state := start;
    var e := first;
    while e <= subtree
      invariant first <= e <= subtree + 1
      invariant e == first ==> state == start
      invariant e > first ==> Run(visit, start, Range(lo, e - lo)) == (true, state)
    {
      if e == first {
        ok, state := SortedLoop(s, e, visit, state, kids.kids, lo);
        if !ok {
          RangeSplit(lo, first, subtree);
          RunAppend(visit, start, Range(lo, first + 1 - lo), Range(first + 1, subtree - first));
          return;
        }
      } else {
        var step := visit(state, e);
        RangeStep(lo, e - lo);
        RunAppend(visit, start, Range(lo, e - lo), [e]);
        RunOne(visit, state, e);
        state := step.1;
        if !step.0 {
          RangeSplit(lo, e, subtree);
          RunAppend(visit, start, Range(lo, e + 1 - lo), Range(e + 1, subtree - e));
          return false, state;
        }
      }
      e := e + 1;
    }
    ok := true;
  }

  lemma {:induction false} RangeSplit(lo: nat, e: nat, hi: nat)
    requires lo <= e <= hi
    ensures Range(lo, hi + 1 - lo) == Range(lo, e + 1 - lo) + Range(e + 1, hi - e)
  {}

  lemma {:induction false} LoopStart(s: Store, subtree: Id, kids: Forest, lo: nat)
    requires Rep(s, Cons(subtree, kids, Nil)) && Consecutive(Cons(subtree, kids, Nil), lo)
    ensures subtree < |s|
    ensures s[subtree].block.None? || s[subtree].block.value == [] ==> Post(Cons(subtree, kids, Nil)) == [subtree]
    ensures kids.Nil? <==> s[subtree].block.None? || s[subtree].block.value == []
    ensures kids.Cons? ==> kids.id == s[subtree].block.value[0] && lo <= kids.id < subtree
    ensures kids.Cons? ==> Rep(s, Cons(kids.id, kids.kids, Nil)) && Consecutive(Cons(kids.id, kids.kids, Nil), lo)
    ensures kids.Cons? ==> Post(Cons(kids.id, kids.kids, Nil)) == Range(lo, kids.id + 1 - lo)
  {
    RootsNonEmpty(kids);
    if kids.Cons? {
      assert Roots(kids)[0] == kids.id;
      TreeRange(kids.id, kids.kids, lo);
    }
  }

  // The low end of a subtree's range, found by following first children.
  ghost function LowEnd(id: Id, kids: Forest): Id
    decreases kids
  {
    if kids.Nil? then id else LowEnd(kids.id, kids.kids)
  }

  /** Every child is numbered below its parent, and every subtree is one interval, from its low end to its root. */
  lemma {:induction false} SubtreeInterval(s: Store, root: Id, kids: Forest, lo: nat, x: Id)
    requires Rep(s, Cons(root, kids, Nil)) && Consecutive(Cons(root, kids, Nil), lo)
    ensures LowEnd(root, kids) == lo
    ensures x in Ids(Cons(root, kids, Nil)) <==> lo <= x <= root
    ensures x in Children(s, root) ==> lo <= x < root
    decreases kids
  {
    Interval(Cons(root, kids, Nil), lo, x);
    Interval(kids, lo, x);
    if kids.Cons? { SubtreeInterval(s, kids.id, kids.kids, lo, x); }
    if x in Children(s, root) {
      var i :| 0 <= i < |Roots(kids)| && Roots(kids)[i] == x;
      RootsInIds(kids, i);
    }
  }
}
