/** The allocate pass over a whole tree: systems.hpp:56-77 with opt/allocate_registers.hpp:12-54. */
module AllocatePass {
  import opened Wrappers
  import opened Store
  import opened Shapes
  import opened SortWalk
  import opened Renumber
  import opened NameLookup
  import opened Edits
  import opened EditRuns
  import opened Allocate

  // ---------- breadth first ----------

  // The visits when the trees of `q` are queued.
  function Bfs(q: Forest): seq<Id>
    decreases Size(q)
  {
    match q
    case Nil => []
    case Cons(id, kids, rest) => [id] + Bfs(Append(rest, kids))
  }

  lemma {:induction false} BfsIds(q: Forest, x: Id)
    ensures |Bfs(q)| == Size(q) && (x in Bfs(q) <==> x in Ids(q))
    decreases Size(q)
  {
    if q.Cons? { BfsIds(Append(q.rest, q.kids), x); }
  }

  lemma {:induction false} BfsDistinct(q: Forest)
    requires NoDup(q)
    ensures Distinct(Bfs(q))
    decreases Size(q)
  {
    if q.Cons? {
      var more := Append(q.rest, q.kids);
      NoDupAppend(q.rest, q.kids);
      BfsDistinct(more);
      BfsIds(more, q.id);
      hide NoDup, Append;
      forall i, j | 0 <= i < j < |Bfs(q)| ensures Bfs(q)[i] != Bfs(q)[j] {
        if i == 0 { assert Bfs(more)[j - 1] in Bfs(more); }
      }
    }
  }

  // ---------- lists with pins in them ----------

  datatype Pin = Pin(number: Id, register: nat)

  type Pins = seq<Option<Pin>>

  function PinOf(at: Pins, e: Id): Option<Pin> {
    if e < |at| then at[e] else None
  }

  function Pair(p: Option<Pin>): seq<Id> {
    if p.Some? then [p.value.number, p.value.number + 1] else []
  }

  // Every value is followed by the two entities of its pin.
  function Threads(xs: seq<Id>, at: Pins): seq<Id> {
    if xs == [] then [] else [xs[0]] + Pair(PinOf(at, xs[0])) + Threads(xs[1..], at)
  }

  // The pins are new entities.
  ghost predicate Fresh(at: Pins) {
    forall e {:trigger at[e]} :: 0 <= e < |at| && at[e].Some? ==> at[e].value.number >= |at|
  }

  lemma {:induction false} ThreadsMember(xs: seq<Id>, at: Pins, x: Id)
    requires Fresh(at) && x < |at|
    ensures x in Threads(xs, at) <==> x in xs
    decreases |xs|
  {
    if xs != [] {
      ThreadsMember(xs[1..], at, x);
      assert x !in Pair(PinOf(at, xs[0]));
    }
  }

  lemma {:induction false} ThreadsOther(xs: seq<Id>, at: Pins, e: Id, p: Option<Pin>)
    requires e < |at| && e !in xs
    ensures Threads(xs, at[e := p]) == Threads(xs, at)
    decreases |xs|
  {
    if xs != [] { ThreadsOther(xs[1..], at, e, p); }
  }

  lemma {:induction false} IndexAfter(front: seq<Id>, back: seq<Id>, e: Id)
    requires e !in front && e in back
    ensures e in front + back && IndexIn(front + back, e) == |front| + IndexIn(back, e)
    decreases |front|
  {
    if front == [] {
      assert front + back == back;
    } else {
      assert (front + back)[1..] == front[1..] + back;
      IndexAfter(front[1..], back, e);
    }
  }

  // Putting a pin behind a value is giving the value a pin.
  lemma {:induction false} ThreadsInsert(xs: seq<Id>, at: Pins, e: Id, p: Pin)
    requires Fresh(at) && e < |at| && at[e].None? && e in xs && Distinct(xs)
    ensures e in Threads(xs, at)
    ensures var ys := Threads(xs, at); var i := IndexIn(ys, e) + 1;
            ys[..i] + [p.number, p.number + 1] + ys[i..] == Threads(xs, at[e := Some(p)])
    decreases |xs|
  {
    ThreadsMember(xs, at, e);
    if xs[0] == e {
      ThreadsInsertHere(xs, at, e, p);
    } else {
      assert e in xs[1..];
      assert Distinct(xs[1..]);
      ThreadsInsert(xs[1..], at, e, p);
      ThreadsInsertLater(xs, at, e, p);
    }
  }

  lemma {:induction false} ThreadsInsertHere(xs: seq<Id>, at: Pins, e: Id, p: Pin)
    requires e < |at| && at[e].None? && xs != [] && xs[0] == e && Distinct(xs)
    ensures e in Threads(xs, at)
    ensures var ys := Threads(xs, at); var i := IndexIn(ys, e) + 1;
            ys[..i] + [p.number, p.number + 1] + ys[i..] == Threads(xs, at[e := Some(p)])
  {
    var back := Threads(xs[1..], at);
    var ys := Threads(xs, at);
    assert ys == [e] + back;
    assert e !in xs[1..] by { forall i | 0 <= i < |xs[1..]| ensures xs[1..][i] != e { assert xs[0] != xs[i + 1]; } }
    ThreadsOther(xs[1..], at, e, Some(p));
    assert Threads(xs, at[e := Some(p)]) == [e] + [p.number, p.number + 1] + back;
    assert ys[..1] == [e] && ys[1..] == back && IndexIn(ys, e) == 0;
  }

  lemma {:induction false} ThreadsInsertLater(xs: seq<Id>, at: Pins, e: Id, p: Pin)
    requires Fresh(at) && e < |at| && at[e].None? && xs != [] && xs[0] != e && e in Threads(xs[1..], at)
    requires var ys := Threads(xs[1..], at); var i := IndexIn(ys, e) + 1;
             ys[..i] + [p.number, p.number + 1] + ys[i..] == Threads(xs[1..], at[e := Some(p)])
    ensures e in Threads(xs, at)
    ensures var ys := Threads(xs, at); var i := IndexIn(ys, e) + 1;
            ys[..i] + [p.number, p.number + 1] + ys[i..] == Threads(xs, at[e := Some(p)])
  {
    var front, back, next := [xs[0]] + Pair(PinOf(at, xs[0])), Threads(xs[1..], at), Threads(xs[1..], at[e := Some(p)]);
    PairOld(xs, at, e);
    ThreadsCons(xs, at);
    ThreadsCons(xs, at[e := Some(p)]);
    PairSame(at, e, p, xs[0]);
    hide *;
    assert Threads(xs, at) == front + back && Threads(xs, at[e := Some(p)]) == front + next;
    InsertBehind(front, back, [p.number, p.number + 1], next, e);
  }

  // What is put behind a member of the back stays there when a front without it comes before.
  lemma {:induction false} InsertBehind(front: seq<Id>, back: seq<Id>, mid: seq<Id>, next: seq<Id>, e: Id)
    requires e !in front && e in back
    requires var i := IndexIn(back, e) + 1; back[..i] + mid + back[i..] == next
    ensures e in front + back
    ensures var ys := front + back; var i := IndexIn(ys, e) + 1; ys[..i] + mid + ys[i..] == front + next
  {
    hide *;
    IndexAfter(front, back, e);
    Splice(front, back, IndexIn(back, e) + 1, mid);
  }

  lemma {:induction false} PairOld(xs: seq<Id>, at: Pins, e: Id)
    requires Fresh(at) && e < |at| && xs != [] && xs[0] != e
    ensures e !in [xs[0]] + Pair(PinOf(at, xs[0]))
  {}

  lemma {:induction false} PairSame(at: Pins, e: Id, p: Pin, x: Id)
    requires e < |at| && x != e
    ensures PinOf(at[e := Some(p)], x) == PinOf(at, x)
  {}

  lemma {:induction false} ThreadsCons(xs: seq<Id>, at: Pins)
    requires xs != []
    ensures Threads(xs, at) == [xs[0]] + Pair(PinOf(at, xs[0])) + Threads(xs[1..], at)
  {}

  lemma {:induction false} Splice(front: seq<Id>, back: seq<Id>, i: nat, mid: seq<Id>)
    requires i <= |back|
    ensures (front + back)[..|front| + i] + mid + (front + back)[|front| + i..] == front + (back[..i] + mid + back[i..])
  {}

  // ---------- the pass ----------

  // What the pass has made of `s`: pins threaded into the child lists of the tree, everything else in place.
  ghost predicate Threaded(s: Store, t: Store, names: Names, ids: set<Id>, at: Pins) {
    && |at| == |s| <= |t| && Fresh(at)
    && (forall y {:trigger t[y]} :: 0 <= y < |s| ==>
          && t[y] == s[y].(block := t[y].block) && (t[y].block.Some? <==> s[y].block.Some?)
          && Children(t, y) == if y in ids then Threads(Children(s, y), at) else Children(s, y))
    && (forall e {:trigger at[e]} :: 0 <= e < |s| && at[e].Some? ==> PinThere(s, t, names, e, at[e].value))
    && forall y {:trigger t[y]} :: |s| <= y < |t| ==> t[y].links.alias.None?
  }

  // The pin of `e`: a number entity with its register, and the call that ties the two.
  ghost predicate PinThere(s: Store, t: Store, names: Names, e: Id, p: Pin) {
    && e < |s| && s[e].parent.Some? && s[e].links.typeOf.Some? && p.number + 1 < |t|
    && t[p.number] == PinNumber(s[e].parent.value, names, p.register)
    && t[p.number + 1] == PinCall(s[e].parent.value, names, s[e].links.typeOf.value, e, p.number)
  }

  function RegisterOf(at: Pins, e: Id): Option<nat> {
    if PinOf(at, e).Some? then Some(PinOf(at, e).value.register) else None
  }

  /** The outcome: the entities of the tree have the registers their visits gave out. */
  ghost predicate AllocatedAll(s: Store, t: Store, names: Names, root: Id, kids: Forest, a: State, at: Pins) {
    && Threaded(s, t, names, {root} + Ids(kids), at)
    && forall x: Id {:trigger RegisterOf(at, x)} :: RegisterOf(at, x) == Assigned(s, names, a, Bfs(Cons(root, kids, Nil)), x)
  }

  // The state of the walker.
  ghost predicate Passing(s: Store, t: Store, names: Names, root: Id, kids: Forest, a: State, at: Pins, q: Forest, now: State) {
    && Threaded(s, t, names, {root} + Ids(kids), at)
    && Rep(s, q) && NoDup(q) && Ids(q) <= {root} + Ids(kids)
    && (forall x: Id {:trigger x in Ids(q)} :: x in Ids(q) ==>
          (RegisterOf(at, x) == None && Assigned(s, names, a, Bfs(Cons(root, kids, Nil)), x) == Assigned(s, names, now, Bfs(q), x)))
    && forall x: Id {:trigger RegisterOf(at, x)} :: x !in Ids(q) ==> RegisterOf(at, x) == Assigned(s, names, a, Bfs(Cons(root, kids, Nil)), x)
  }

  // The values say their type, and the root is not one of them.
  ghost predicate Allocatable(s: Store, root: Id, kids: Forest) {
    && WellFormed(s, root, kids) && root < |s| && !HasValue(s[root])
    && forall x {:trigger x in Ids(kids)} :: x in Ids(kids) && x < |s| && HasValue(s[x]) && s[x].data.register.None? ==> s[x].links.typeOf.Some?
  }

  /**
   Allocates registers in the whole tree.  The pass ends: the pins it inserts are never visited.
   */
  method AllocateAll(mod: Module, alloc: Allocator, root: Id, names: Names, ghost kids: Forest) returns (ghost at: Pins, ghost visits: nat)
    requires Allocatable(mod.ents, root, kids)
    modifies mod, alloc
    ensures AllocatedAll(old(mod.ents), mod.ents, names, root, kids, old(alloc.state), at)
    ensures visits == 1 + Size(kids)
  {
    hide *;
    ghost var s, a := mod.ents, alloc.state;
    var queue := [root];
    ghost var q := Cons(root, kids, Nil);
    at := PassStart(s, names, root, kids, a);
    visits := 0;
    while queue != []
      invariant Passing(s, mod.ents, names, root, kids, a, at, q, alloc.state)
      invariant queue == Roots(q) && visits + Size(q) == 1 + Size(kids)
      decreases Size(q)
    {
      var e := queue[0];
      ghost var t, now, before := mod.ents, alloc.state, at;
      PassParts(s, t, names, root, kids, a, at, q, now, e);
      PassParent(s, t, names, root, kids, a, at, q, now);
      alloc.AllocateRegisters(mod, e, names);
      at := PassVisit(s, t, mod.ents, names, root, kids, a, at, q, now, alloc.state);
      PassNext(s, t, mod.ents, names, root, kids, a, before, at, q, alloc.state, now);
      ChildList(mod.ents, e);
      queue := queue[1..] + (if mod.ents[e].block.Some? then mod.ents[e].block.value else []);
      q := Append(q.rest, q.kids);
      visits := visits + 1;
    }
    PassEnd(s, mod.ents, names, root, kids, a, at, q, alloc.state);
  }

  lemma {:induction false} ChildList(s: Store, e: Id)
    requires e < |s|
    ensures (if s[e].block.Some? then s[e].block.value else []) == Children(s, e)
  {}

  lemma {:induction false} PassStart(s: Store, names: Names, root: Id, kids: Forest, a: State) returns (at: Pins)
    requires Allocatable(s, root, kids)
    ensures Passing(s, s, names, root, kids, a, at, Cons(root, kids, Nil), a)
    ensures Roots(Cons(root, kids, Nil)) == [root] && Size(Cons(root, kids, Nil)) == 1 + Size(kids)
  {
    at := seq(|s|, _ => None);
    var tree := Cons(root, kids, Nil);
    assert Rep(s, tree) && NoDup(tree) && Ids(tree) == {root} + Ids(kids);
    hide *;
    StartThreaded(s, names, {root} + Ids(kids), at);
    forall x: Id ensures RegisterOf(at, x) == None { NoPins(at, x); }
    forall x: Id | x !in Ids(tree) ensures Assigned(s, names, a, Bfs(tree), x) == None {
      BfsIds(tree, x);
      NotAssigned(s, names, a, Bfs(tree), x);
    }
    PassingStart(s, names, root, kids, a, at);
  }

  lemma {:induction false} NoPins(at: Pins, x: Id)
    requires forall e {:trigger at[e]} :: 0 <= e < |at| ==> at[e] == None
    ensures RegisterOf(at, x) == None
  {}

  lemma {:induction false} PassingStart(s: Store, names: Names, root: Id, kids: Forest, a: State, at: Pins)
    requires Threaded(s, s, names, {root} + Ids(kids), at)
    requires var tree := Cons(root, kids, Nil);
             && Rep(s, tree) && NoDup(tree) && Ids(tree) == {root} + Ids(kids)
             && (forall x: Id :: x !in Ids(tree) ==> Assigned(s, names, a, Bfs(tree), x) == None)
    requires forall x: Id :: RegisterOf(at, x) == None
    ensures Passing(s, s, names, root, kids, a, at, Cons(root, kids, Nil), a)
    ensures Roots(Cons(root, kids, Nil)) == [root] && Size(Cons(root, kids, Nil)) == 1 + Size(kids)
  {
    hide Threaded, Rep, NoDup, Ids, Assigned, Bfs, RegisterOf;
  }

  lemma {:induction false} StartThreaded(s: Store, names: Names, ids: set<Id>, at: Pins)
    requires |at| == |s| && forall e {:trigger at[e]} :: 0 <= e < |at| ==> at[e] == None
    ensures Threaded(s, s, names, ids, at)
  {
    forall y: Id | y < |s| ensures Threads(Children(s, y), at) == Children(s, y) { NoThreads(Children(s, y), at); }
    hide Threads, PinThere, Children;
    forall y: Id | y < |s| ensures s[y] == s[y].(block := s[y].block) {}
  }

  lemma {:induction false} NoThreads(xs: seq<Id>, at: Pins)
    requires forall e {:trigger at[e]} :: 0 <= e < |at| ==> at[e] == None
    ensures Threads(xs, at) == xs
    decreases |xs|
  {
    if xs != [] { NoThreads(xs[1..], at); }
  }

  lemma {:induction false} PassParts(s: Store, t: Store, names: Names, root: Id, kids: Forest, a: State, at: Pins, q: Forest, now: State, e: Id)
    requires Passing(s, t, names, root, kids, a, at, q, now) && Roots(q) != [] && e == Roots(q)[0]
    ensures q.Cons? && q.id == e && e < |s| <= |t| && e in {root} + Ids(kids)
    ensures Size(Append(q.rest, q.kids)) + 1 == Size(q)
    ensures t[e] == s[e].(block := t[e].block)
  {
    hide Threads, Assigned, PinThere;
    RootsNonEmpty(q);
    assert e in Ids(q);
  }

  // The block an entity is pinned in is the one that lists it.
  lemma {:induction false} PassParent(s: Store, t: Store, names: Names, root: Id, kids: Forest, a: State, at: Pins, q: Forest, now: State)
    requires Allocatable(s, root, kids) && Passing(s, t, names, root, kids, a, at, q, now) && q.Cons? && q.id < |s| <= |t|
    ensures HasValue(t[q.id]) && t[q.id].data.register.None? ==>
              && t[q.id].links.typeOf.Some? && FindParent(t, q.id) < |t|
              && t[FindParent(t, q.id)].block.Some? && q.id in Children(t, FindParent(t, q.id))
    ensures HasValue(s[q.id]) ==> s[q.id].parent.Some? && FindParent(t, q.id) == s[q.id].parent.value && q.id != root
    ensures HasValue(t[q.id]) <==> HasValue(s[q.id])
  {
    var e := q.id;
    assert e in Ids(q) && e in {root} + Ids(kids);
    assert t[e] == s[e].(block := t[e].block);
    if HasValue(s[e]) {
      assert e in Ids(kids);
      TreeAndParents(s, root, kids);
      CachedParent(s, root, kids, e);
      var p := s[e].parent.value;
      TreeBelow(s, root, kids, p) by { assert p in {root} + Ids(kids); }
      assert t[p].block.Some? && Children(t, p) == Threads(Children(s, p), at);
      hide Passing, Allocatable, WellFormed, Tree, Parents, FindBlock;
      FindBlockAt(t, p, INVALID, p);
      ThreadsMember(Children(s, p), at, e);
    }
  }

  lemma {:induction false} TreeAndParents(s: Store, root: Id, kids: Forest)
    requires Allocatable(s, root, kids)
    ensures WellFormed(s, root, kids) && Tree(s, root, kids) && Parents(s, kids, root) && Ids(Cons(root, kids, Nil)) == {root} + Ids(kids)
  {}

  // One visit: either nothing happens, or the entity gets its pin.
  lemma {:induction false} PassVisit(s: Store, t: Store, u: Store, names: Names, root: Id, kids: Forest, a: State, at: Pins, q: Forest, now: State, later: State)
    returns (at': Pins)
    requires Allocatable(s, root, kids) && Passing(s, t, names, root, kids, a, at, q, now) && q.Cons? && q.id < |s| <= |t|
    requires t[q.id] == s[q.id].(block := t[q.id].block) && q.id in {root} + Ids(kids)
    requires later == Visited(t, names, now, q.id).0
    requires Visited(t, names, now, q.id).1.None? ==> u == t
    requires var r := Visited(t, names, now, q.id).1;
             r.Some? ==>
               var p := FindParent(t, q.id);
               && p < |t| && t[p].block.Some? && q.id in Children(t, p) && t[q.id].links.typeOf.Some?
               && u == PairPushed(t, p, IndexIn(Children(t, p), q.id) + 1, PinNumber(p, names, r.value),
                                  PinCall(p, names, t[q.id].links.typeOf.value, q.id, |t|))
    requires HasValue(s[q.id]) ==> s[q.id].parent.Some? && FindParent(t, q.id) == s[q.id].parent.value && q.id != root
    ensures Threaded(s, u, names, {root} + Ids(kids), at')
    ensures Visited(s, names, now, q.id).0 == later && RegisterOf(at', q.id) == Visited(s, names, now, q.id).1
    ensures forall x: Id :: x != q.id ==> RegisterOf(at', x) == RegisterOf(at, x)
    ensures q.id < |at'| == |s|
  {
    hide Passing, Allocatable, Threaded, Visited, FindParent, PairPushed, IndexIn, PinNumber, PinCall, Children;
    var e := q.id;
    VisitSame(s, t, names, now, e);
    PassUnpinned(s, t, names, root, kids, a, at, q, now);
    at' := at;
    if Visited(s, names, now, e).1.Some? {
      VisitHasValue(s, names, now, e);
      var r := Visited(s, names, now, e).1.value;
      at' := at[e := Some(Pin(|t|, r))];
      PassPin(s, t, u, names, root, kids, at, e, r);
    }
  }

  lemma {:induction false} VisitHasValue(s: Store, names: Names, a: State, e: Id)
    requires Visited(s, names, a, e).1.Some?
    ensures e < |s| && HasValue(s[e])
  {}

  lemma {:induction false} VisitSame(s: Store, t: Store, names: Names, a: State, e: Id)
    requires e < |s| <= |t| && t[e] == s[e].(block := t[e].block)
    ensures Visited(t, names, a, e) == Visited(s, names, a, e)
  {}

  lemma {:induction false} PassUnpinned(s: Store, t: Store, names: Names, root: Id, kids: Forest, a: State, at: Pins, q: Forest, now: State)
    requires Passing(s, t, names, root, kids, a, at, q, now) && q.Cons?
    ensures Threaded(s, t, names, {root} + Ids(kids), at) && q.id < |at| == |s| && at[q.id] == None
  {
    hide Assigned, Threaded, Threads;
    assert q.id in Ids(q);
    assert RegisterOf(at, q.id) == None;
    assert |at| == |s| by { ThreadedSize(s, t, names, {root} + Ids(kids), at); }
  }

  lemma {:induction false} ThreadedSize(s: Store, t: Store, names: Names, ids: set<Id>, at: Pins)
    requires Threaded(s, t, names, ids, at)
    ensures |at| == |s| <= |t| && Fresh(at)
  {}

  // `u` is `t` with the pin of `e` behind it in its block `p`.
  ghost predicate PinnedBy(s: Store, t: Store, u: Store, names: Names, at: Pins, at': Pins, e: Id, pin: Pin, p: Id) {
    && e < |s| == |at| && |s| <= |t| && p < |s| && s[e].parent == Some(p) && s[e].links.typeOf.Some? && e in Children(s, p)
    && at' == at[e := Some(pin)] && pin.number == |t| && |u| == |t| + 2
    && u[|t|] == PinNumber(p, names, pin.register) && u[|t| + 1] == PinCall(p, names, s[e].links.typeOf.value, e, |t|)
    && (forall z {:trigger u[z]} :: 0 <= z < |t| && z != p ==> u[z] == t[z])
    && t[p].block.Some? && u[p].block.Some? && u[p] == t[p].(block := u[p].block)
    && Children(u, p) == Threads(Children(s, p), at')
  }

  lemma {:induction false} PassPin(s: Store, t: Store, u: Store, names: Names, root: Id, kids: Forest, at: Pins, e: Id, r: nat)
    requires Allocatable(s, root, kids) && Threaded(s, t, names, {root} + Ids(kids), at)
    requires e < |s| <= |t| && |at| == |s| && at[e].None? && e in Ids(kids) && s[e].parent.Some? && s[e].links.typeOf.Some?
    requires var p := s[e].parent.value;
             && p < |t| && t[p].block.Some? && e in Children(t, p)
             && u == PairPushed(t, p, IndexIn(Children(t, p), e) + 1, PinNumber(p, names, r), PinCall(p, names, s[e].links.typeOf.value, e, |t|))
    ensures Threaded(s, u, names, {root} + Ids(kids), at[e := Some(Pin(|t|, r))])
  {
    hide *;
    var p, pin, at' := s[e].parent.value, Pin(|t|, r), at[e := Some(Pin(|t|, r))];
    PinPlace(s, root, kids, e);
    PinMade(s, t, u, names, {root} + Ids(kids), at, at', e, pin, p);
    PinLists(s, t, u, names, root, kids, at, at', e, pin, p);
    PinsKept(s, t, u, names, {root} + Ids(kids), at, at', e, pin, p);
    ThreadedIntro(s, u, names, {root} + Ids(kids), at');
  }

  lemma {:induction false} PinMade(s: Store, t: Store, u: Store, names: Names, ids: set<Id>, at: Pins, at': Pins, e: Id, pin: Pin, p: Id)
    requires Threaded(s, t, names, ids, at) && e < |s| <= |t| && |at| == |s| && at[e].None? && p in ids && p < |s|
    requires s[e].parent == Some(p) && s[e].links.typeOf.Some? && e in Children(s, p) && Distinct(Children(s, p))
    requires t[p].block.Some? && e in Children(t, p) && pin.number == |t| && at' == at[e := Some(pin)]
    requires u == PairPushed(t, p, IndexIn(Children(t, p), e) + 1, PinNumber(p, names, pin.register), PinCall(p, names, s[e].links.typeOf.value, e, |t|))
    ensures PinnedBy(s, t, u, names, at, at', e, pin, p) && |s| <= |u|
  {
    hide Threads, IndexIn, PinNumber, PinCall, Distinct, PairPushed;
    ThreadedSize(s, t, names, ids, at);
    ThreadedAt(s, t, names, ids, at, p);
    hide Threaded;
    ThreadsInsert(Children(s, p), at, e, pin);
    PairFacts(t, p, IndexIn(Children(t, p), e) + 1, PinNumber(p, names, pin.register), PinCall(p, names, s[e].links.typeOf.value, e, |t|));
  }

  // The child lists once `e` has its pin.
  lemma {:induction false} PinLists(s: Store, t: Store, u: Store, names: Names, root: Id, kids: Forest, at: Pins, at': Pins, e: Id, pin: Pin, p: Id)
    requires WellFormed(s, root, kids) && Threaded(s, t, names, {root} + Ids(kids), at) && (p == root || p in Ids(kids))
    requires PinnedBy(s, t, u, names, at, at', e, pin, p) && |s| <= |u|
    ensures forall y: Id {:trigger u[y]} {:trigger Children(u, y)} :: y < |s| ==>
              && u[y] == s[y].(block := u[y].block) && (u[y].block.Some? <==> s[y].block.Some?)
              && Children(u, y) == if y in {root} + Ids(kids) then Threads(Children(s, y), at') else Children(s, y)
  {
    hide *;
    forall y: Id {:trigger u[y]} {:trigger Children(u, y)} | y < |s|
      ensures u[y] == s[y].(block := u[y].block) && (u[y].block.Some? <==> s[y].block.Some?)
      ensures Children(u, y) == if y in {root} + Ids(kids) then Threads(Children(s, y), at') else Children(s, y)
    {
      ThreadedAt(s, t, names, {root} + Ids(kids), at, y);
      PinElsewhere(s, t, u, names, root, kids, at, at', e, pin, p, y);
    }
  }

  lemma {:induction false} PinPlace(s: Store, root: Id, kids: Forest, e: Id)
    requires Allocatable(s, root, kids) && e in Ids(kids) && e < |s| && s[e].parent.Some?
    ensures WellFormed(s, root, kids) && e in Ids(kids)
    ensures var p := s[e].parent.value; p in {root} + Ids(kids) && p < |s| && e in Children(s, p) && Distinct(Children(s, p))
  {
    TreeAndParents(s, root, kids);
    ParentInTree(s, root, kids, e);
    hide WellFormed, Tree, Parents;
    ChildrenDistinct(s, root, kids, s[e].parent.value);
  }

  lemma {:induction false} ThreadedAt(s: Store, t: Store, names: Names, ids: set<Id>, at: Pins, y: Id)
    requires Threaded(s, t, names, ids, at) && y < |s|
    ensures y < |t| && t[y] == s[y].(block := t[y].block) && (t[y].block.Some? <==> s[y].block.Some?)
    ensures Children(t, y) == if y in ids then Threads(Children(s, y), at) else Children(s, y)
  {
    hide PinThere, Fresh, Threads;
  }

  lemma {:induction false} ThreadedIntro(s: Store, t: Store, names: Names, ids: set<Id>, at: Pins)
    requires |at| == |s| <= |t| && Fresh(at)
    requires forall y: Id {:trigger t[y]} {:trigger Children(t, y)} :: y < |s| ==>
               && t[y] == s[y].(block := t[y].block) && (t[y].block.Some? <==> s[y].block.Some?)
               && Children(t, y) == if y in ids then Threads(Children(s, y), at) else Children(s, y)
    requires forall e {:trigger at[e]} :: 0 <= e < |s| && at[e].Some? ==> PinThere(s, t, names, e, at[e].value)
    requires forall y {:trigger t[y]} :: |s| <= y < |t| ==> t[y].links.alias.None?
    ensures Threaded(s, t, names, ids, at)
  {
    hide PinThere, Threads, Children;
  }

  lemma {:induction false} PairFacts(t: Store, p: Id, at: nat, x: Entity, y: Entity)
    requires HasBlock(t, p) && at <= |Children(t, p)|
    ensures var u, ys := PairPushed(t, p, at, x, y), Children(t, p);
            && |u| == |t| + 2 && u[|t|] == x && u[|t| + 1] == y
            && (forall z {:trigger u[z]} :: 0 <= z < |t| && z != p ==> u[z] == t[z])
            && u[p] == t[p].(block := Some(ys[..at] + [|t|, |t| + 1] + ys[at..]))
  {}

  lemma {:induction false} PinsKept(s: Store, t: Store, u: Store, names: Names, ids: set<Id>, at: Pins, at': Pins, e: Id, pin: Pin, p: Id)
    requires Threaded(s, t, names, ids, at) && PinnedBy(s, t, u, names, at, at', e, pin, p)
    ensures |at'| == |s| && Fresh(at')
    ensures forall x {:trigger at'[x]} :: 0 <= x < |s| && at'[x].Some? ==> PinThere(s, u, names, x, at'[x].value)
    ensures |s| <= |u| && forall y {:trigger u[y]} :: |s| <= y < |u| ==> u[y].links.alias.None?
  {
    ThreadedSize(s, t, names, ids, at);
    NoAliases(p, names, pin.register, if s[e].links.typeOf.Some? then s[e].links.typeOf.value else 0, e, |t|);
    hide PinNumber, PinCall, Threads;
    forall x {:trigger at'[x]} | 0 <= x < |s| && at'[x].Some? ensures PinThere(s, u, names, x, at'[x].value) {
      if x != e {
        assert PinThere(s, t, names, x, at[x].value);
        PinKept(s, t, u, names, x, at[x].value, p);
      }
    }
  }

  lemma {:induction false} NoAliases(p: Id, names: Names, r: nat, ty: Id, e: Id, number: Id)
    ensures PinNumber(p, names, r).links.alias.None? && PinCall(p, names, ty, e, number).links.alias.None?
  {}

  lemma {:induction false} PinKept(s: Store, t: Store, u: Store, names: Names, x: Id, pin: Pin, p: Id)
    requires PinThere(s, t, names, x, pin) && |t| <= |u| && p < |s| && pin.number >= |s|
    requires forall y {:trigger u[y]} :: 0 <= y < |t| && y != p ==> u[y] == t[y]
    ensures PinThere(s, u, names, x, pin)
  {
    hide PinNumber, PinCall;
  }

  lemma {:induction false} ChildrenDistinct(s: Store, root: Id, kids: Forest, b: Id)
    requires WellFormed(s, root, kids) && (b == root || b in Ids(kids))
    ensures Distinct(Children(s, b))
  {
    TreeBelow(s, root, kids, b);
    var below := BelowTree(root, kids, b);
    hide WellFormed, BelowTree, NoDup, Rep, Parents;
    forall i, j | 0 <= i < j < |Roots(below)| ensures Roots(below)[i] != Roots(below)[j] { RootsDistinct(below, i, j); }
  }

  lemma {:induction false} PinElsewhere(s: Store, t: Store, u: Store, names: Names, root: Id, kids: Forest, at: Pins, at': Pins, e: Id, pin: Pin, p: Id, y: Id)
    requires WellFormed(s, root, kids) && (p == root || p in Ids(kids)) && PinnedBy(s, t, u, names, at, at', e, pin, p) && y < |s|
    requires t[y] == s[y].(block := t[y].block) && (t[y].block.Some? <==> s[y].block.Some?)
    requires Children(t, y) == if y == root || y in Ids(kids) then Threads(Children(s, y), at) else Children(s, y)
    ensures y < |u| && u[y] == s[y].(block := u[y].block) && (u[y].block.Some? <==> s[y].block.Some?)
    ensures Children(u, y) == if y == root || y in Ids(kids) then Threads(Children(s, y), at') else Children(s, y)
  {
    hide Threads, WellFormed, PinNumber, PinCall;
    if y != p {
      assert u[y] == t[y];
      if y == root || y in Ids(kids) {
        if e in Children(s, y) { TreeOnce(s, root, kids, p, y, e); }
        ThreadsOther(Children(s, y), at, e, Some(pin));
      }
    }
  }

  lemma {:induction false} TreeOnce(s: Store, root: Id, kids: Forest, p: Id, q: Id, e: Id)
    requires WellFormed(s, root, kids) && (p == root || p in Ids(kids)) && (q == root || q in Ids(kids))
    requires e in Children(s, p) && e in Children(s, q)
    ensures p == q
  {
    var tree := Cons(root, kids, Nil);
    assert Rep(s, tree) && NoDup(tree) && Ids(tree) == {root} + Ids(kids);
    hide Rep, NoDup, Ids, WellFormed;
    ListedOnce(s, tree, p, q, e);
  }

  // The children of an entity that is visited have no pins among them yet.
  lemma {:induction false} PassNext(s: Store, t: Store, u: Store, names: Names, root: Id, kids: Forest, a: State,
                                    at: Pins, at': Pins, q: Forest, later: State, now: State)
    requires Passing(s, t, names, root, kids, a, at, q, now) && q.Cons? && q.id < |s|
    requires Threaded(s, u, names, {root} + Ids(kids), at') && later == Visited(s, names, now, q.id).0
    requires RegisterOf(at', q.id) == Visited(s, names, now, q.id).1
    requires forall x: Id {:trigger RegisterOf(at', x)} :: x != q.id ==> RegisterOf(at', x) == RegisterOf(at, x)
    ensures Passing(s, u, names, root, kids, a, at', Append(q.rest, q.kids), later)
    ensures Children(u, q.id) == Roots(q.kids) && Roots(q)[1..] + Roots(q.kids) == Roots(Append(q.rest, q.kids)) && q.id < |u|
  {
    hide Visited, Threaded, Assigned, Bfs, RegisterOf;
    PassShape(s, t, names, root, kids, a, at, q, now);
    PassAssigned(s, names, root, kids, a, at', q, later, now);
    PassChildren(s, u, names, root, kids, at', q);
  }

  lemma {:induction false} PassShape(s: Store, t: Store, names: Names, root: Id, kids: Forest, a: State, at: Pins, q: Forest, now: State)
    requires Passing(s, t, names, root, kids, a, at, q, now) && q.Cons?
    ensures var more := Append(q.rest, q.kids);
            && Rep(s, more) && NoDup(more) && Ids(more) <= {root} + Ids(kids)
            && q.id in Ids(q) && q.id !in Ids(more) && Ids(q) == {q.id} + Ids(more) && Ids(q.kids) <= Ids(more)
            && Roots(q)[1..] + Roots(q.kids) == Roots(more) && Children(s, q.id) == Roots(q.kids) && q.id in {root} + Ids(kids)
  {
    hide Threaded, Assigned, Bfs, RegisterOf;
    assert Roots(q)[1..] == Roots(q.rest);
    RepAppend(s, q.rest, q.kids);
    NoDupAppend(q.rest, q.kids);
  }

  lemma {:induction false} PassChildren(s: Store, u: Store, names: Names, root: Id, kids: Forest, at': Pins, q: Forest)
    requires q.Cons? && q.id < |s| && q.id in {root} + Ids(kids) && Threaded(s, u, names, {root} + Ids(kids), at')
    requires Children(s, q.id) == Roots(q.kids)
    requires forall x: Id {:trigger RegisterOf(at', x)} :: x in Ids(q.kids) ==> RegisterOf(at', x) == None
    ensures Children(u, q.id) == Roots(q.kids) && q.id < |u|
  {
    ThreadedSize(s, u, names, {root} + Ids(kids), at');
    assert Children(u, q.id) == Threads(Roots(q.kids), at');
    hide Threaded;
    forall x | x in Roots(q.kids) ensures PinOf(at', x) == None {
      ListedBelow(q.kids, x);
      assert RegisterOf(at', x) == None;
    }
    UnpinnedList(Roots(q.kids), at');
  }

  lemma {:induction false} UnpinnedList(xs: seq<Id>, at: Pins)
    requires forall x :: x in xs ==> PinOf(at, x) == None
    ensures Threads(xs, at) == xs
    decreases |xs|
  {
    if xs != [] {
      assert forall x :: x in xs[1..] ==> x in xs;
      UnpinnedList(xs[1..], at);
    }
  }

  lemma {:induction false} PassAssigned(s: Store, names: Names, root: Id, kids: Forest, a: State, at': Pins, q: Forest, later: State, now: State)
    requires q.Cons? && later == Visited(s, names, now, q.id).0 && RegisterOf(at', q.id) == Visited(s, names, now, q.id).1
    requires var more := Append(q.rest, q.kids); q.id in Ids(q) && q.id !in Ids(more) && Ids(q) == {q.id} + Ids(more)
    requires forall x: Id {:trigger x in Ids(q)} :: x in Ids(q) ==>
               ((x != q.id ==> RegisterOf(at', x) == None)
                && Assigned(s, names, a, Bfs(Cons(root, kids, Nil)), x) == Assigned(s, names, now, Bfs(q), x))
    requires forall x: Id {:trigger RegisterOf(at', x)} :: x !in Ids(q) ==> RegisterOf(at', x) == Assigned(s, names, a, Bfs(Cons(root, kids, Nil)), x)
    ensures var more := Append(q.rest, q.kids);
            && (forall x: Id {:trigger x in Ids(more)} :: x in Ids(more) ==>
                  (RegisterOf(at', x) == None && Assigned(s, names, a, Bfs(Cons(root, kids, Nil)), x) == Assigned(s, names, later, Bfs(more), x)))
            && forall x: Id {:trigger RegisterOf(at', x)} :: x !in Ids(more) ==> RegisterOf(at', x) == Assigned(s, names, a, Bfs(Cons(root, kids, Nil)), x)
  {
    var more := Append(q.rest, q.kids);
    assert Bfs(q) == [q.id] + Bfs(more) && Bfs(q)[1..] == Bfs(more) && Bfs(q)[0] == q.id;
    hide Visited, Ids, Bfs, Append, RegisterOf;
    forall x: Id | x in Ids(q) ensures x != q.id ==> Assigned(s, names, now, Bfs(q), x) == Assigned(s, names, later, Bfs(more), x) {}
    assert Assigned(s, names, now, Bfs(q), q.id) == Visited(s, names, now, q.id).1;
  }

  lemma {:induction false} PassEnd(s: Store, t: Store, names: Names, root: Id, kids: Forest, a: State, at: Pins, q: Forest, now: State)
    requires Passing(s, t, names, root, kids, a, at, q, now) && Roots(q) == []
    ensures AllocatedAll(s, t, names, root, kids, a, at) && Size(q) == 0
  {
    RootsNonEmpty(q);
    hide Threaded, Assigned, Bfs;
    assert Ids(q) == {};
  }

  // ---------- what the outcome means ----------

  // The entities there were before.
  function Old(xs: seq<Id>, n: nat): seq<Id> {
    if xs == [] then [] else (if xs[0] < n then [xs[0]] else []) + Old(xs[1..], n)
  }

  lemma {:induction false} OldAppend(xs: seq<Id>, ys: seq<Id>, n: nat)
    ensures Old(xs + ys, n) == Old(xs, n) + Old(ys, n)
    decreases |xs|
  {
    if xs == [] {
      assert xs + ys == ys;
    } else {
      assert (xs + ys)[1..] == xs[1..] + ys;
      OldAppend(xs[1..], ys, n);
    }
  }

  lemma {:induction false} OldPair(a: Id, n: nat)
    requires a >= n
    ensures Old([a, a + 1], n) == []
  {
    assert [a, a + 1][1..] == [a + 1] && [a + 1][1..] == [];
    assert Old([a + 1], n) == [];
  }

  /** Taking the pins out of a list gives back the list in its order. */
  lemma {:induction false} PinsErased(xs: seq<Id>, at: Pins)
    requires Fresh(at) && forall x :: x in xs ==> x < |at|
    ensures Old(Threads(xs, at), |at|) == xs
    decreases |xs|
  {
    hide *;
    if xs == [] {
      ThreadsNothing(at);
    } else {
      var x, pair, rest := xs[0], Pair(PinOf(at, xs[0])), Threads(xs[1..], at);
      assert x in xs && forall y :: y in xs[1..] ==> y in xs;
      PinsErased(xs[1..], at);
      ThreadsCons(xs, at);
      OldPins(at, x);
      OldAppend([x] + pair, rest, |at|);
      OldAppend([x], pair, |at|);
      OldOne(x, |at|);
      assert xs == [x] + xs[1..];
    }
  }

  lemma {:induction false} ThreadsNothing(at: Pins)
    ensures Old(Threads([], at), |at|) == []
  {}

  lemma {:induction false} OldOne(x: Id, n: nat)
    requires x < n
    ensures Old([x], n) == [x]
  {
    assert [x][1..] == [];
  }

  lemma {:induction false} OldPins(at: Pins, x: Id)
    requires Fresh(at)
    ensures Old(Pair(PinOf(at, x)), |at|) == []
  {
    if x < |at| && at[x].Some? { OldPair(at[x].value.number, |at|); }
  }

  /** A value that has a pin is followed by it at once, the number with its register first. */
  lemma {:induction false} PinFollows(xs: seq<Id>, at: Pins, e: Id) returns (i: nat)
    requires e in xs && PinOf(at, e).Some?
    ensures var ys, p := Threads(xs, at), PinOf(at, e).value;
            i + 2 < |ys| && ys[i] == e && ys[i + 1] == p.number && ys[i + 2] == p.number + 1
    decreases |xs|
  {
    if xs[0] == e {
      i := 0;
    } else {
      var k := PinFollows(xs[1..], at, e);
      i := 1 + |Pair(PinOf(at, xs[0]))| + k;
    }
  }

  /** In the tree, after the pass: every block has its old children in their old order. */
  lemma {:induction false} OrderKept(s: Store, t: Store, names: Names, root: Id, kids: Forest, a: State, at: Pins, b: Id)
    requires Allocatable(s, root, kids) && AllocatedAll(s, t, names, root, kids, a, at) && (b == root || b in Ids(kids))
    ensures b < |s| <= |t| && Old(Children(t, b), |s|) == Children(s, b)
  {
    TreeAndParents(s, root, kids);
    TreeBelow(s, root, kids, b);
    var ids := {root} + Ids(kids);
    ThreadedSize(s, t, names, ids, at);
    ThreadedAt(s, t, names, ids, at, b);
    var below := BelowTree(root, kids, b);
    hide Threaded, WellFormed, Allocatable, Threads, Old, BelowTree, Assigned;
    forall x | x in Children(s, b) ensures x < |at| {
      ListedBelow(below, x);
      RepInStore(s, below, x);
    }
    PinsErased(Children(s, b), at);
  }
}
