/** Pin, allocate, pin: the first passes of the Mizu schedule, driver.cpp:95-99. */
module PinSchedule {
  import opened Wrappers
  import opened Store
  import opened Shapes
  import opened SortWalk
  import opened Renumber
  import opened NameLookup
  import opened Edits
  import opened Verify
  import opened Allocate
  import opened Registers
  import opened AllocatePass
  import opened PinRegisters
  import opened AllocatedPins

  // What the three passes ask of a module.
  ghost predicate Schedulable(s: Store, names: Names, root: Id, kids: Forest) {
    var ids := {root} + Ids(kids);
    Allocatable(s, root, kids) && GoodPins(s, names, ids) && PlainValues(s, ids) && TargetsThere(s, names, ids)
  }

  // Pins name entities that are there.
  ghost predicate TargetsThere(s: Store, names: Names, ids: set<Id>) {
    forall e: Id {:trigger e in ids} :: e in ids && Assigns(s, names.pinRegister, e).Some? ==>
      Assigns(s, names.pinRegister, e).value.target < |s|
  }

  lemma {:induction false} PinnedSame(s: Store, t: Store, pr: Id, order: seq<Id>, x: Id)
    requires PinnedAll(s, t, pr, order) && x < |s|
    ensures |t| == |s| && t[x] == s[x].(data := s[x].data.(register := t[x].data.register))
    ensures t[x].data.register.None? ==> s[x].data.register.None?
    ensures t[x].data.register == RegisterAfter(s, pr, order, x, s[x].data.register)
  {
    hide Assigns, RegisterAfter;
    if s[x].data.register.Some? { SomeStays(s, pr, order, x, s[x].data.register); }
  }

  lemma {:induction false} PinnedPlain(s: Store, t: Store, pr: Id, order: seq<Id>, e: Id)
    requires PinnedAll(s, t, pr, order) && PlainValue(s, e)
    ensures PlainValue(t, e)
  {
    PinnedSame(s, t, pr, order, e);
    ResolvePinned(s, t, s[e].links.typeOf.value, |s|);
    hide Assigns, RegisterAfter;
  }

  lemma {:induction false} PinnedInputs(s: Store, t: Store, pr: Id, e: Id)
    requires SameButRegisters(s, t)
    ensures PinInputs(t, e) == PinInputs(s, e) && (IsPin(t, pr, e) <==> IsPin(s, pr, e))
  {
    forall x: Id ensures Resolve(t, x) == Resolve(s, x) { ResolvePinned(s, t, x, |s|); }
    assert e < |s| ==> t[e].links == s[e].links;
    hide Resolve, SameButRegisters;
  }

  // The first pin pass leaves what the other two ask for.
  lemma {:induction false} PinnedSchedulable(s: Store, t: Store, names: Names, root: Id, kids: Forest)
    requires Schedulable(s, names, root, kids) && PinnedAll(s, t, names.pinRegister, Post(Cons(root, kids, Nil)))
    ensures Schedulable(t, names, root, kids)
  {
    var pr, order, ids := names.pinRegister, Post(Cons(root, kids, Nil)), {root} + Ids(kids);
    assert SameButRegisters(s, t);
    SameSize(s, t);
    hide Assigns, Pinnable, PinInputs, IsPin, PlainValue, Allocatable, SameButRegisters, PinnedAll;
    forall e | e in ids
      ensures Pinnable(t, pr, e) && (IsPin(t, pr, e) && PinInputs(t, e).Some? ==> PinInputs(t, e).value[2] < |t|)
      ensures Assigns(t, pr, e).Some? ==> Assigns(t, pr, e).value.target < |t|
      ensures e < |t| && HasValue(t[e]) && t[e].data.register.None? ==> PlainValue(t, e)
    {
      PinsSame(s, t, pr, e);
      PinnedInputs(s, t, pr, e);
      if e < |t| && HasValue(t[e]) && t[e].data.register.None? {
        PinnedSame(s, t, pr, order, e);
        PinnedPlain(s, t, pr, order, e);
      }
    }
    PinnedAllocatable(s, t, names, root, kids);
  }

  lemma {:induction false} PinnedAllocatable(s: Store, t: Store, names: Names, root: Id, kids: Forest)
    requires Allocatable(s, root, kids) && PinnedAll(s, t, names.pinRegister, Post(Cons(root, kids, Nil)))
    ensures Allocatable(t, root, kids)
  {
    var pr, order := names.pinRegister, Post(Cons(root, kids, Nil));
    assert SameButRegisters(s, t);
    SameSize(s, t);
    hide PinnedAll;
    forall x: Id | x < |s| ensures Children(t, x) == Children(s, x) && t[x].parent == s[x].parent { PinnedSame(s, t, pr, order, x); }
    forall x | x in Ids(kids) && x < |t| && HasValue(t[x]) && t[x].data.register.None? ensures t[x].links.typeOf.Some? {
      PinnedSame(s, t, pr, order, x);
    }
    PinnedSame(s, t, pr, order, root);
    hide SameButRegisters, Children, HasValue;
    PinnedWellFormed(s, t, root, kids);
  }

  lemma {:induction false} PinnedWellFormed(s: Store, t: Store, root: Id, kids: Forest)
    requires WellFormed(s, root, kids) && |t| == |s|
    requires forall x: Id :: x < |s| ==> Children(t, x) == Children(s, x) && t[x].parent == s[x].parent
    ensures WellFormed(t, root, kids)
  {
    var tree := Cons(root, kids, Nil);
    forall x | x in Ids(tree) ensures Children(t, x) == Children(s, x) { RepInStore(s, tree, x); }
    RepFrame(s, t, tree);
    ParentsFrame(s, t, kids, root);
  }

  /**
   Pin, allocate, pin.  Nothing is asked about registers to begin with.  In the end an entity that the allocation
   gave a register has it, and every other has the register of the last of the user's pins that names it,
   or else the one it had.
   */
  lemma {:induction false} PinAllocatePin(s0: Store, s: Store, t: Store, u: Store, names: Names, root: Id, kids: Forest, a: State, at: Pins, x: Id)
    requires Schedulable(s0, names, root, kids) && x < |s0|
    requires PinnedAll(s0, s, names.pinRegister, Post(Cons(root, kids, Nil)))
    requires AllocatedAll(s, t, names, root, kids, a, at)
    requires PinnedAll(t, u, names.pinRegister, PinnedPost(Cons(root, kids, Nil), at))
    ensures Allocatable(s, root, kids) && Rep(t, WithPins(Cons(root, kids, Nil), at))
    ensures x < |u| && u[x].data.register ==
              var r := Assigned(s, names, a, Bfs(Cons(root, kids, Nil)), x);
              if r.Some? then r else RegisterAfter(s0, names.pinRegister, Post(Cons(root, kids, Nil)), x, s0[x].data.register)
  {
    hide *;
    var order := Post(Cons(root, kids, Nil));
    PinnedSchedulable(s0, s, names, root, kids);
    SchedulableParts(s, names, root, kids);
    PinnedSame(s0, s, names.pinRegister, order, x);
    FirstPassSettles(s0, s, names, root, kids);
    AllocatedSize(s, t, names, root, kids, a, at);
    AllocatedThenPinned(s, t, u, names, root, kids, a, at, x);
  }

  lemma {:induction false} AllocatedSize(s: Store, t: Store, names: Names, root: Id, kids: Forest, a: State, at: Pins)
    requires AllocatedAll(s, t, names, root, kids, a, at)
    ensures |s| <= |t|
  {}

  lemma {:induction false} SchedulableParts(s: Store, names: Names, root: Id, kids: Forest)
    requires Schedulable(s, names, root, kids)
    ensures Allocatable(s, root, kids)
    ensures var ids := {root} + Ids(kids); GoodPins(s, names, ids) && PlainValues(s, ids) && TargetsThere(s, names, ids)
  {}

  lemma {:induction false} FirstPassSettles(s0: Store, s: Store, names: Names, root: Id, kids: Forest)
    requires PinnedAll(s0, s, names.pinRegister, Post(Cons(root, kids, Nil))) && Schedulable(s, names, root, kids)
    ensures Settled(s, names, {root} + Ids(kids)) && Stable(s, names, root, kids)
  {
    var pr, order, ids := names.pinRegister, Post(Cons(root, kids, Nil)), {root} + Ids(kids);
    SchedulableParts(s, names, root, kids);
    assert |s0| == |s|;
    hide Assigns, RegisterAfter, PinnedAll, Schedulable, GoodPins, PlainValues, Allocatable;
    forall x {:trigger s[x]} | 0 <= x < |s| ensures RegisterAfter(s, pr, order, x, s[x].data.register) == s[x].data.register {
      PinPassSettles(s0, s, pr, order, x, x);
    }
    forall e | e in ids && Assigns(s, pr, e).Some?
      ensures var x := Assigns(s, pr, e).value.target; x < |s| && s[x].data.register.Some?
    {
      PostIds(Cons(root, kids, Nil), e);
      var x := Assigns(s, pr, e).value.target;
      assert Ids(Cons(root, kids, Nil)) == ids by { assert Ids(Nil) == {}; }
      PinPassSettles(s0, s, pr, order, x, e);
    }
  }

  lemma {:induction false} LocalOf(s: Store, c: Context, f: Forest, e: Id)
    requires AllLocal(s, c, f) && e in Ids(f)
    ensures KindVerdict(s, c, e, false) == Valid
  {
    hide KindVerdict;
    if e in Ids(f.kids) { LocalOf(s, c, f.kids, e); }
    else if e in Ids(f.rest) { LocalOf(s, c, f.rest, e); }
  }

  /** In a module that the structure check accepts, no value is an alias and every value says its type. */
  lemma {:induction false} AcceptedValuesPlain(s: Store, c: Context, root: Id, kids: Forest, topLevel: bool, e: Id)
    requires Sound(s, c, root, kids, topLevel) && e in Ids(kids)
    ensures e < |s| && (HasValue(s[e]) ==> s[e].links.alias.None? && s[e].links.typeOf.Some?)
  {
    AliasesAreRejected(s, c, kids, e);
    LocalOf(s, c, kids, e);
    hide TypedVerdict, Sound;
  }
}
