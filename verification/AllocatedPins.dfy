/** The pin pass after the allocate pass: opt/allocate_registers.hpp:12-54 with opt/pin_registers.hpp:14-41. */
module AllocatedPins {
  import opened Wrappers
  import opened Store
  import opened Shapes
  import opened Builder
  import opened SortWalk
  import opened Renumber
  import opened NameLookup
  import opened Edits
  import opened Allocate
  import opened Registers
  import opened AllocatePass
  import opened PinRegisters

  // ---------- the tree with pins ----------

  function PairForest(p: Option<Pin>, rest: Forest): Forest {
    if p.Some? then Cons(p.value.number, Nil, Cons(p.value.number + 1, Nil, rest)) else rest
  }

  function WithPins(f: Forest, at: Pins): Forest {
    match f
    case Nil => Nil
    case Cons(id, kids, rest) => Cons(id, WithPins(kids, at), PairForest(PinOf(at, id), WithPins(rest, at)))
  }

  lemma {:induction false} WithPinsRoots(f: Forest, at: Pins)
    ensures Roots(WithPins(f, at)) == Threads(Roots(f), at)
  {
    if f.Cons? {
      WithPinsRoots(f.rest, at);
      assert Roots(f)[1..] == Roots(f.rest) && Roots(f)[0] == f.id;
      var p := PinOf(at, f.id);
      assert Roots(PairForest(p, WithPins(f.rest, at))) == Pair(p) + Roots(WithPins(f.rest, at));
    }
  }

  lemma {:induction false} PinLeaf(s: Store, t: Store, names: Names, ids: set<Id>, at: Pins, e: Id)
    requires Threaded(s, t, names, ids, at) && PinOf(at, e).Some?
    ensures var n := PinOf(at, e).value.number; n + 1 < |t| && Children(t, n) == [] && Children(t, n + 1) == []
  {
    hide Threads;
    assert PinThere(s, t, names, e, at[e].value);
  }

  lemma {:induction false} WithPinsRep(s: Store, t: Store, names: Names, ids: set<Id>, at: Pins, f: Forest)
    requires Threaded(s, t, names, ids, at) && Rep(s, f) && Ids(f) <= ids
    ensures Rep(t, WithPins(f, at))
  {
    if f.Cons? {
      hide Threaded, Threads;
      assert f.id in Ids(f);
      WithPinsRep(s, t, names, ids, at, f.kids);
      WithPinsRep(s, t, names, ids, at, f.rest);
      ThreadedAt(s, t, names, ids, at, f.id);
      WithPinsRoots(f.kids, at);
      PairRep(s, t, names, ids, at, f.id, WithPins(f.rest, at));
    }
  }

  lemma {:induction false} PairRep(s: Store, t: Store, names: Names, ids: set<Id>, at: Pins, e: Id, rest: Forest)
    requires Threaded(s, t, names, ids, at) && Rep(t, rest)
    ensures Rep(t, PairForest(PinOf(at, e), rest))
  {
    if PinOf(at, e).Some? { PinLeaf(s, t, names, ids, at, e); }
    hide Threaded, Children;
    assert Rep(t, Nil) && Roots(Nil) == [];
  }

  // The walk over the tree with pins.
  function PinnedPost(f: Forest, at: Pins): seq<Id> {
    Post(WithPins(f, at))
  }

  lemma {:induction false} PinnedPostCons(f: Forest, at: Pins)
    requires f.Cons?
    ensures PinnedPost(f, at) == PinnedPost(f.kids, at) + [f.id] + Pair(PinOf(at, f.id)) + PinnedPost(f.rest, at)
  {
    var p := PinOf(at, f.id);
    if p.Some? {
      var rest := WithPins(f.rest, at);
      assert Post(Cons(p.value.number + 1, Nil, rest)) == [] + [p.value.number + 1] + Post(rest);
      assert Post(PairForest(p, rest)) == [] + [p.value.number] + ([] + [p.value.number + 1] + Post(rest));
    }
  }

  // ---------- what the pins assign ----------

  // In `t` the old pins assign what they did in `s`, and the new ones the registers given out.
  ghost predicate PinsKnown(s: Store, t: Store, names: Names, at: Pins, ids: set<Id>) {
    && (forall e: Id {:trigger e in ids} :: e in ids ==> Assigns(t, names.pinRegister, e) == Assigns(s, names.pinRegister, e))
    && (forall e {:trigger at[e]} :: 0 <= e < |at| && at[e].Some? ==>
          Assigns(t, names.pinRegister, at[e].value.number) == None
          && Assigns(t, names.pinRegister, at[e].value.number + 1) == Some(Assignment(e, at[e].value.register)))
  }

  lemma {:induction false} PairAssigns(s: Store, t: Store, names: Names, at: Pins, ids: set<Id>, e: Id, x: Id, r: Option<nat>)
    requires PinsKnown(s, t, names, at, ids)
    ensures RegisterAfter(t, names.pinRegister, Pair(PinOf(at, e)), x, r) ==
            if PinOf(at, e).Some? && e == x then Some(PinOf(at, e).value.register) else r
  {
    hide Assigns;
    var p := PinOf(at, e);
    if p.Some? {
      assert at[e].Some?;
      assert Pair(p) == [p.value.number] + [p.value.number + 1];
      RegisterAfterAppend(t, names.pinRegister, [p.value.number], [p.value.number + 1], x, r);
      RegisterAfterOne(t, names.pinRegister, p.value.number, x, r);
      RegisterAfterOne(t, names.pinRegister, p.value.number + 1, x, r);
    }
  }

  lemma {:induction false} StepAfter(t: Store, pr: Id, f: Forest, at: Pins, x: Id, r: Option<nat>)
    requires f.Cons?
    ensures RegisterAfter(t, pr, PinnedPost(f, at), x, r) ==
            RegisterAfter(t, pr, PinnedPost(f.rest, at), x,
              RegisterAfter(t, pr, Pair(PinOf(at, f.id)), x,
                RegisterAfter(t, pr, [f.id], x, RegisterAfter(t, pr, PinnedPost(f.kids, at), x, r))))
  {
    hide *;
    PinnedPostCons(f, at);
    var a, b, c, d := PinnedPost(f.kids, at), [f.id], Pair(PinOf(at, f.id)), PinnedPost(f.rest, at);
    RegisterAfterAppend(t, pr, a + b + c, d, x, r);
    RegisterAfterAppend(t, pr, a + b, c, x, r);
    RegisterAfterAppend(t, pr, a, b, x, r);
  }

  lemma {:induction false} StepBefore(s: Store, pr: Id, f: Forest, x: Id, r: Option<nat>)
    requires f.Cons?
    ensures RegisterAfter(s, pr, Post(f), x, r) ==
            RegisterAfter(s, pr, Post(f.rest), x, RegisterAfter(s, pr, [f.id], x, RegisterAfter(s, pr, Post(f.kids), x, r)))
  {
    assert Post(f) == Post(f.kids) + [f.id] + Post(f.rest);
    hide *;
    RegisterAfterAppend(s, pr, Post(f.kids) + [f.id], Post(f.rest), x, r);
    RegisterAfterAppend(s, pr, Post(f.kids), [f.id], x, r);
  }

  // An entity without a new pin gets what it got before.
  lemma {:induction false} UnpinnedAfter(s: Store, t: Store, names: Names, at: Pins, ids: set<Id>, f: Forest, x: Id, r: Option<nat>)
    requires PinsKnown(s, t, names, at, ids) && Ids(f) <= ids && PinOf(at, x).None?
    ensures RegisterAfter(t, names.pinRegister, PinnedPost(f, at), x, r) == RegisterAfter(s, names.pinRegister, Post(f), x, r)
    decreases f
  {
    if f.Cons? {
      var pr := names.pinRegister;
      assert f.id in ids;
      hide PinnedPost, Assigns, PinsKnown, Post, Pair;
      StepAfter(t, pr, f, at, x, r);
      StepBefore(s, pr, f, x, r);
      UnpinnedAfter(s, t, names, at, ids, f.kids, x, r);
      var r1 := RegisterAfter(s, pr, Post(f.kids), x, r);
      RegisterAfterOne(t, pr, f.id, x, r1);
      RegisterAfterOne(s, pr, f.id, x, r1);
      KnownAt(s, t, names, at, ids, f.id);
      var r2 := RegisterAfter(s, pr, [f.id], x, r1);
      PairAssigns(s, t, names, at, ids, f.id, x, r2);
      UnpinnedAfter(s, t, names, at, ids, f.rest, x, r2);
    } else {
      assert PinnedPost(f, at) == [] && Post(f) == [];
    }
  }

  lemma {:induction false} KnownAt(s: Store, t: Store, names: Names, at: Pins, ids: set<Id>, e: Id)
    requires PinsKnown(s, t, names, at, ids) && e in ids
    ensures Assigns(t, names.pinRegister, e) == Assigns(s, names.pinRegister, e)
  {}

  // An entity with a new pin, and no other, gets the register it was given.
  lemma {:induction false} PinnedAfter(s: Store, t: Store, names: Names, at: Pins, ids: set<Id>, f: Forest, x: Id, r: Option<nat>)
    requires PinsKnown(s, t, names, at, ids) && Ids(f) <= ids && PinOf(at, x).Some?
    requires forall e: Id {:trigger e in ids} :: e in ids ==> Assigns(s, names.pinRegister, e).Some? ==> Assigns(s, names.pinRegister, e).value.target != x
    ensures RegisterAfter(t, names.pinRegister, PinnedPost(f, at), x, r) == if x in Ids(f) then Some(PinOf(at, x).value.register) else r
    ensures r == Some(PinOf(at, x).value.register) ==> RegisterAfter(t, names.pinRegister, PinnedPost(f, at), x, r) == r
    decreases f
  {
    if f.Cons? {
      var pr := names.pinRegister;
      assert f.id in ids;
      hide PinnedPost, Assigns, PinsKnown, Post, Pair;
      StepAfter(t, pr, f, at, x, r);
      PinnedAfter(s, t, names, at, ids, f.kids, x, r);
      var r1 := RegisterAfter(t, pr, PinnedPost(f.kids, at), x, r);
      RegisterAfterOne(t, pr, f.id, x, r1);
      KnownAt(s, t, names, at, ids, f.id);
      PairAssigns(s, t, names, at, ids, f.id, x, r1);
      var r3 := RegisterAfter(t, pr, Pair(PinOf(at, f.id)), x, r1);
      PinnedAfter(s, t, names, at, ids, f.rest, x, r3);
    } else {
      assert PinnedPost(f, at) == [];
    }
  }

  // ---------- the new pins are well-formed ----------

  lemma {:induction false} ResolveKept(s: Store, t: Store, names: Names, ids: set<Id>, at: Pins, e: Id, fuel: nat)
    requires Threaded(s, t, names, ids, at) && ResolveIn(s, e, fuel).Some?
    ensures ResolveIn(t, e, fuel) == ResolveIn(s, e, fuel)
    decreases fuel
  {
    hide Threads, PinThere;
    if e < |s| {
      assert t[e] == s[e].(block := t[e].block);
      if s[e].links.alias.Some? { ResolveKept(s, t, names, ids, at, s[e].links.alias.value, fuel - 1); }
    }
  }

  lemma {:induction false} ResolvedKept(s: Store, t: Store, names: Names, ids: set<Id>, at: Pins, e: Id)
    requires Threaded(s, t, names, ids, at) && Resolve(s, e).Some?
    ensures Resolve(t, e) == Resolve(s, e)
  {
    ResolveKept(s, t, names, ids, at, e, |s|);
    ThreadedSize(s, t, names, ids, at);
    hide Threaded;
    ResolveMore(t, e, |s|, |t|);
  }

  // Pins of the tree are well-formed, and the numbers they name are among the old entities.
  ghost predicate GoodPins(s: Store, names: Names, ids: set<Id>) {
    forall e: Id {:trigger e in ids} :: e in ids ==>
      Pinnable(s, names.pinRegister, e) && (IsPin(s, names.pinRegister, e) && PinInputs(s, e).Some? ==> PinInputs(s, e).value[2] < |s|)
  }

  lemma {:induction false} OldPinKept(s: Store, t: Store, names: Names, ids: set<Id>, at: Pins, e: Id)
    requires Threaded(s, t, names, ids, at) && GoodPins(s, names, ids) && e in ids && e < |s|
    ensures Assigns(t, names.pinRegister, e) == Assigns(s, names.pinRegister, e) && Pinnable(t, names.pinRegister, e)
  {
    ThreadedAt(s, t, names, ids, at, e);
    ThreadedSize(s, t, names, ids, at);
    if IsPin(s, names.pinRegister, e) && |s[e].links.inputs.value| == 3 {
      var xs := s[e].links.inputs.value;
      assert PinInputs(s, e).Some?;
      ResolvedKept(s, t, names, ids, at, xs[0]);
      ResolvedKept(s, t, names, ids, at, xs[1]);
      ResolvedKept(s, t, names, ids, at, xs[2]);
      var n := PinInputs(s, e).value[2];
      ThreadedAt(s, t, names, ids, at, n);
    }
    hide Threaded, Resolve;
  }

  // What is given a register is itself, not an alias, and its type is there.
  ghost predicate PlainValue(s: Store, e: Id) {
    e < |s| && s[e].links.alias.None? && s[e].links.typeOf.Some? && Resolve(s, s[e].links.typeOf.value).Some?
  }

  lemma {:induction false} NewPinAssigns(s: Store, t: Store, names: Names, ids: set<Id>, at: Pins, e: Id)
    requires Threaded(s, t, names, ids, at) && e < |s| && e < |at| && at[e].Some? && PlainValue(s, e)
    ensures var p := at[e].value;
            && p.number + 1 < |t| && Assigns(t, names.pinRegister, p.number) == None && Pinnable(t, names.pinRegister, p.number)
            && Assigns(t, names.pinRegister, p.number + 1) == Some(Assignment(e, p.register)) && Pinnable(t, names.pinRegister, p.number + 1)
  {
    var p := at[e].value;
    assert PinThere(s, t, names, e, p);
    ThreadedAt(s, t, names, ids, at, e);
    ResolvedKept(s, t, names, ids, at, s[e].links.typeOf.value);
    hide Threaded;
    NumberResolves(t, p.number);
    NumberResolves(t, e);
    hide Resolve;
    assert t[p.number + 1].links.inputs == Some([s[e].links.typeOf.value, e, p.number]);
  }

  lemma {:induction false} NumberResolves(t: Store, e: Id)
    requires e < |t| && t[e].links.alias.None?
    ensures Resolve(t, e) == Some(e)
  {}

  // ---------- the two passes together ----------

  // The tree as the first pin pass leaves it: every pinned entity has its register.
  ghost predicate Settled(s: Store, names: Names, ids: set<Id>) {
    forall e: Id {:trigger e in ids} :: e in ids && Assigns(s, names.pinRegister, e).Some? ==>
      var x := Assigns(s, names.pinRegister, e).value.target; x < |s| && s[x].data.register.Some?
  }

  // And no register changes when its pins are gone through again.
  ghost predicate Stable(s: Store, names: Names, root: Id, kids: Forest) {
    forall x {:trigger s[x]} :: 0 <= x < |s| ==>
      RegisterAfter(s, names.pinRegister, Post(Cons(root, kids, Nil)), x, s[x].data.register) == s[x].data.register
  }

  ghost predicate PlainValues(s: Store, ids: set<Id>) {
    forall e: Id {:trigger e in ids} :: e in ids && e < |s| && HasValue(s[e]) && s[e].data.register.None? ==> PlainValue(s, e)
  }

  /**
   After allocation and the pin pass that follows, every entity that was given a register has it, and
   every other entity keeps the register it had: pins of the user's stay as they are.
   */
  lemma {:induction false} AllocatedThenPinned(s: Store, t: Store, u: Store, names: Names, root: Id, kids: Forest, a: State, at: Pins, x: Id)
    requires Allocatable(s, root, kids) && AllocatedAll(s, t, names, root, kids, a, at)
    requires var ids := {root} + Ids(kids); GoodPins(s, names, ids) && Settled(s, names, ids) && PlainValues(s, ids)
    requires Stable(s, names, root, kids) && x < |s| <= |t|
    requires PinnedAll(t, u, names.pinRegister, PinnedPost(Cons(root, kids, Nil), at))
    ensures Rep(t, WithPins(Cons(root, kids, Nil), at))
    ensures x < |u| && u[x].data.register ==
              var r := Assigned(s, names, a, Bfs(Cons(root, kids, Nil)), x); if r.Some? then r else s[x].data.register
  {
    hide *;
    var tree, ids, pr := Cons(root, kids, Nil), {root} + Ids(kids), names.pinRegister;
    AllocatedParts(s, t, names, root, kids, a, at, x);
    WithPinsRep(s, t, names, ids, at, tree);
    AllKnown(s, t, names, root, kids, a, at);
    RegisterKept(s, t, names, ids, at, x);
    PinnedRegister(t, u, pr, PinnedPost(tree, at), x);
    if PinOf(at, x).None? {
      UnpinnedAfter(s, t, names, at, ids, tree, x, s[x].data.register);
      StableAt(s, names, root, kids, x);
    } else {
      NotTargeted(s, t, names, root, kids, a, at, x);
      PinnedAfter(s, t, names, at, ids, tree, x, s[x].data.register);
    }
  }

  lemma {:induction false} StableAt(s: Store, names: Names, root: Id, kids: Forest, x: Id)
    requires Stable(s, names, root, kids) && x < |s|
    ensures RegisterAfter(s, names.pinRegister, Post(Cons(root, kids, Nil)), x, s[x].data.register) == s[x].data.register
  {}

  lemma {:induction false} PinnedRegister(t: Store, u: Store, pr: Id, order: seq<Id>, x: Id)
    requires PinnedAll(t, u, pr, order) && x < |t|
    ensures x < |u| && u[x].data.register == RegisterAfter(t, pr, order, x, t[x].data.register)
  {}

  lemma {:induction false} RegisterKept(s: Store, t: Store, names: Names, ids: set<Id>, at: Pins, x: Id)
    requires Threaded(s, t, names, ids, at) && x < |s|
    ensures x < |t| && t[x].data.register == s[x].data.register
  {
    ThreadedAt(s, t, names, ids, at, x);
  }

  lemma {:induction false} AllocatedParts(s: Store, t: Store, names: Names, root: Id, kids: Forest, a: State, at: Pins, x: Id)
    requires Allocatable(s, root, kids) && AllocatedAll(s, t, names, root, kids, a, at)
    ensures var tree, ids := Cons(root, kids, Nil), {root} + Ids(kids);
            && Threaded(s, t, names, ids, at) && |at| == |s| && Rep(s, tree) && Ids(tree) == ids
            && Assigned(s, names, a, Bfs(tree), x) == (if PinOf(at, x).Some? then Some(PinOf(at, x).value.register) else None)
  {
    TreeAndParents(s, root, kids);
    ThreadedSize(s, t, names, {root} + Ids(kids), at);
    hide Threaded, Assigned, Bfs, Parents, Allocatable;
    assert RegisterOf(at, x) == Assigned(s, names, a, Bfs(Cons(root, kids, Nil)), x);
  }

  // What has a pin is a value of the tree that had no register.
  lemma {:induction false} PinnedIsValue(s: Store, names: Names, a: State, order: seq<Id>, x: Id)
    requires Assigned(s, names, a, order, x).Some?
    ensures x in order && x < |s| && HasValue(s[x]) && s[x].data.register.None?
    decreases |order|
  {
    if order[0] != x {
      PinnedIsValue(s, names, Visited(s, names, a, order[0]).0, order[1..], x);
    }
  }

  lemma {:induction false} PinnedPlace(s: Store, t: Store, names: Names, root: Id, kids: Forest, a: State, at: Pins, x: Id)
    requires Allocatable(s, root, kids) && AllocatedAll(s, t, names, root, kids, a, at) && PinOf(at, x).Some?
    ensures x in {root} + Ids(kids) && x < |s| && HasValue(s[x]) && s[x].data.register.None?
  {
    AllocatedParts(s, t, names, root, kids, a, at, x);
    hide *;
    PinnedIsValue(s, names, a, Bfs(Cons(root, kids, Nil)), x);
    BfsIds(Cons(root, kids, Nil), x);
  }

  lemma {:induction false} NotTargeted(s: Store, t: Store, names: Names, root: Id, kids: Forest, a: State, at: Pins, x: Id)
    requires Allocatable(s, root, kids) && AllocatedAll(s, t, names, root, kids, a, at) && PinOf(at, x).Some?
    requires Settled(s, names, {root} + Ids(kids))
    ensures x in {root} + Ids(kids)
    ensures forall e: Id {:trigger e in {root} + Ids(kids)} :: e in {root} + Ids(kids) ==>
              Assigns(s, names.pinRegister, e).Some? ==> Assigns(s, names.pinRegister, e).value.target != x
  {
    PinnedPlace(s, t, names, root, kids, a, at, x);
    hide Allocatable, AllocatedAll, Assigns;
  }

  lemma {:induction false} AllKnown(s: Store, t: Store, names: Names, root: Id, kids: Forest, a: State, at: Pins)
    requires Allocatable(s, root, kids) && AllocatedAll(s, t, names, root, kids, a, at)
    requires var ids := {root} + Ids(kids); GoodPins(s, names, ids) && PlainValues(s, ids)
    ensures PinsKnown(s, t, names, at, {root} + Ids(kids))
  {
    hide Allocatable, AllocatedAll, GoodPins, Assigns, PlainValue;
    var ids := {root} + Ids(kids);
    AllocatedParts(s, t, names, root, kids, a, at, root);
    hide Threaded, Pinnable, Ids;
    forall e: Id {:trigger e in ids} | e in ids ensures Assigns(t, names.pinRegister, e) == Assigns(s, names.pinRegister, e) {
      TreeSmall(s, root, kids, e);
      OldPinKept(s, t, names, ids, at, e);
    }
    forall e {:trigger at[e]} | 0 <= e < |at| && at[e].Some?
      ensures Assigns(t, names.pinRegister, at[e].value.number) == None
      ensures Assigns(t, names.pinRegister, at[e].value.number + 1) == Some(Assignment(e, at[e].value.register))
    {
      PinnedPlace(s, t, names, root, kids, a, at, e);
      assert e in ids;
      NewPinAssigns(s, t, names, ids, at, e);
    }
  }

  lemma {:induction false} TreeSmall(s: Store, root: Id, kids: Forest, e: Id)
    requires Rep(s, Cons(root, kids, Nil)) && e in {root} + Ids(kids)
    ensures e < |s|
  {
    RepInStore(s, Cons(root, kids, Nil), e);
  }

  ghost predicate PinsDiffer(at: Pins) {
    forall x: Id, y: Id {:trigger PinOf(at, x), PinOf(at, y)} ::
      x != y && PinOf(at, x).Some? && PinOf(at, y).Some? ==> PinOf(at, x).value.register != PinOf(at, y).value.register
  }

  /** All entities that were given a register have different ones if and only if low ids did no harm. */
  lemma {:induction false} AllocatedDiffer(s: Store, t: Store, names: Names, root: Id, kids: Forest, a: State, at: Pins)
    requires Allocatable(s, root, kids) && AllocatedAll(s, t, names, root, kids, a, at)
    ensures PinsDiffer(at) <==> LowApart(s, names, a, Bfs(Cons(root, kids, Nil)))
  {
    hide *;
    var order := Bfs(Cons(root, kids, Nil));
    RegistersDifferIff(s, names, a, order);
    if Differ(s, names, a, order) {
      forall x: Id, y: Id | x != y && PinOf(at, x).Some? && PinOf(at, y).Some?
        ensures PinOf(at, x).value.register != PinOf(at, y).value.register
      {
        var i := PlaceOf(s, t, names, root, kids, a, at, x);
        var j := PlaceOf(s, t, names, root, kids, a, at, y);
        DifferAt(s, names, a, order, i, j);
      }
      PinsDifferIntro(at);
    }
    if PinsDiffer(at) {
      forall i: nat, k: nat | i < k < |order| && Given(s, names, a, order, i) && Given(s, names, a, order, k)
        ensures RegisterAt(s, names, a, order, i) != RegisterAt(s, names, a, order, k)
      {
        PinAt(s, t, names, root, kids, a, at, i);
        PinAt(s, t, names, root, kids, a, at, k);
        PinsDifferElim(at, order[i], order[k]);
      }
      DifferIntro(s, names, a, order);
    }
  }

  lemma {:induction false} DifferAt(s: Store, names: Names, a: State, order: seq<Id>, i: nat, j: nat)
    requires Differ(s, names, a, order) && i < |order| && j < |order| && i != j
    requires RegisterAt(s, names, a, order, i).Some? && RegisterAt(s, names, a, order, j).Some?
    ensures RegisterAt(s, names, a, order, i) != RegisterAt(s, names, a, order, j)
  {
    hide RegisterAt;
    assert Given(s, names, a, order, i) && Given(s, names, a, order, j);
  }

  lemma {:induction false} DifferIntro(s: Store, names: Names, a: State, order: seq<Id>)
    requires forall i: nat, k: nat {:trigger Given(s, names, a, order, i), Given(s, names, a, order, k)} ::
               i < k < |order| && Given(s, names, a, order, i) && Given(s, names, a, order, k) ==>
                 RegisterAt(s, names, a, order, i) != RegisterAt(s, names, a, order, k)
    ensures Differ(s, names, a, order)
  {}

  lemma {:induction false} PinsDifferIntro(at: Pins)
    requires forall x: Id, y: Id {:trigger PinOf(at, x), PinOf(at, y)} ::
               x != y && PinOf(at, x).Some? && PinOf(at, y).Some? ==> PinOf(at, x).value.register != PinOf(at, y).value.register
    ensures PinsDiffer(at)
  {}

  lemma {:induction false} PinsDifferElim(at: Pins, x: Id, y: Id)
    requires PinsDiffer(at) && x != y && PinOf(at, x).Some? && PinOf(at, y).Some?
    ensures PinOf(at, x).value.register != PinOf(at, y).value.register
  {}

  lemma {:induction false} PlaceOf(s: Store, t: Store, names: Names, root: Id, kids: Forest, a: State, at: Pins, x: Id) returns (i: nat)
    requires Allocatable(s, root, kids) && AllocatedAll(s, t, names, root, kids, a, at) && PinOf(at, x).Some?
    ensures var order := Bfs(Cons(root, kids, Nil));
            i < |order| && order[i] == x && RegisterAt(s, names, a, order, i) == Some(PinOf(at, x).value.register)
  {
    var order := Bfs(Cons(root, kids, Nil));
    AllocatedParts(s, t, names, root, kids, a, at, x);
    PinnedIsValue(s, names, a, order, x);
    BfsDistinct(Cons(root, kids, Nil)) by { assert NoDup(Cons(root, kids, Nil)); }
    i :| 0 <= i < |order| && order[i] == x;
    hide Bfs, Assigned, RegisterAt, Allocatable, AllocatedAll;
    assert order[i] !in order[..i];
    AssignedAt(s, names, a, order, i);
  }

  // A visit that gives out a register pins its entity to that register; the visits are of different entities.
  lemma {:induction false} PinAt(s: Store, t: Store, names: Names, root: Id, kids: Forest, a: State, at: Pins, i: nat)
    requires Allocatable(s, root, kids) && AllocatedAll(s, t, names, root, kids, a, at)
    requires Given(s, names, a, Bfs(Cons(root, kids, Nil)), i)
    ensures var order := Bfs(Cons(root, kids, Nil));
            && i < |order| && (forall k :: 0 <= k < |order| && k != i ==> order[k] != order[i])
            && PinOf(at, order[i]).Some? && RegisterAt(s, names, a, order, i) == Some(PinOf(at, order[i]).value.register)
  {
    var order := Bfs(Cons(root, kids, Nil));
    BfsDistinct(Cons(root, kids, Nil)) by { assert NoDup(Cons(root, kids, Nil)); }
    hide Bfs, Assigned, RegisterAt, Allocatable;
    assert order[i] !in order[..i];
    AssignedAt(s, names, a, order, i);
    assert RegisterOf(at, order[i]) == Assigned(s, names, a, order, order[i]);
    hide AllocatedAll;
  }
}
