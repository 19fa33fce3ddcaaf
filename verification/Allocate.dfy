/** Giving registers to values: opt/allocate_registers.hpp under the breadth-first walker of systems.hpp. */
module Allocate {
  import opened Wrappers
  import opened Store
  import opened Shapes
  import opened Builder
  import opened SortWalk
  import opened Renumber
  import opened NameLookup
  import opened Edits
  import opened EditRuns

  // The compiler functions and the type the pass looks up by name.
  datatype Names = Names(pinRegister: Id, registerType: Id, begin: Id)

  // The pass's static state.
  datatype State = State(allocating: bool, next: nat)

  const FIRST: State := State(false, 0)

  // Ids below this one reset the pass.
  const LOW: Id := 5

  predicate HasValue(x: Entity) {
    x.data.number.Some? || x.data.text.Some? || x.links.call.Some?
  }

  predicate Begins(s: Store, names: Names, e: Id) {
    e < |s| && s[e].links.call == Some(names.begin)
  }

  // What a visit to an entity of `s` makes of the state, and the register it gives out.
  function Visited(s: Store, names: Names, a: State, e: Id): (State, Option<nat>) {
    var b := if e < LOW then State(false, 1) else a;
    if b.allocating then
      if e < |s| && HasValue(s[e]) && s[e].data.register.None? then (b.(next := b.next + 1), Some(b.next)) else (b, None)
    else (b.(allocating := Begins(s, names, e)), None)
  }

  // The register `x` gets in the course of the visits; `None` when it gets none.
  function Assigned(s: Store, names: Names, a: State, order: seq<Id>, x: Id): Option<nat>
    decreases |order|
  {
    if order == [] then None
    else if order[0] == x then Visited(s, names, a, x).1
    else Assigned(s, names, Visited(s, names, a, order[0]).0, order[1..], x)
  }

  lemma {:induction false} NotAssigned(s: Store, names: Names, a: State, order: seq<Id>, x: Id)
    requires x !in order
    ensures Assigned(s, names, a, order, x) == None
    decreases |order|
  {
    hide Visited;
    if order != [] { NotAssigned(s, names, Visited(s, names, a, order[0]).0, order[1..], x); }
  }

  // ---------- one visit ----------

  function PinNumber(b: Id, names: Names, r: nat): Entity {
    NumberEntity(b, "_", names.registerType, r)
  }

  function PinCall(b: Id, names: Names, ty: Id, e: Id, number: Id): Entity {
    CallEntity(b, "_", names.registerType, names.pinRegister, [ty, e, number])
  }

  function IndexIn(xs: seq<Id>, e: Id): (i: nat)
    requires e in xs
    ensures i < |xs| && xs[i] == e && e !in xs[..i]
    decreases |xs|
  {
    if xs[0] == e then 0 else
      var i := IndexIn(xs[1..], e);
      assert xs[..i + 1] == [xs[0]] + xs[1..][..i];
      i + 1
  }

  method FindIndex(xs: seq<Id>, e: Id) returns (i: nat)
    requires e in xs
    ensures i == IndexIn(xs, e)
  {
    i := 0;
    while xs[i] != e
      invariant i < |xs| && e !in xs[..i] && e in xs[i..] && IndexIn(xs, e) == i + IndexIn(xs[i..], e)
      decreases |xs| - i
    {
      assert xs[i..][0] == xs[i] && xs[i..][1..] == xs[i + 1..];
      assert xs[..i + 1] == xs[..i] + [xs[i]];
      i := i + 1;
    }
    assert xs[i..][0] == e;
  }

  /** The pass over one entity, with its state in place. */
  class Allocator {
    var state: State

    constructor ()
      ensures state == FIRST
    {
      state := FIRST;
    }

    method AllocateRegisters(mod: Module, e: Id, names: Names)
      requires e < |mod.ents|
      requires HasValue(mod.ents[e]) && mod.ents[e].data.register.None? ==>
                 && mod.ents[e].links.typeOf.Some? && FindParent(mod.ents, e) < |mod.ents|
                 && mod.ents[FindParent(mod.ents, e)].block.Some? && e in Children(mod.ents, FindParent(mod.ents, e))
      modifies this, mod
      ensures state == Visited(old(mod.ents), names, old(state), e).0
      ensures Visited(old(mod.ents), names, old(state), e).1.None? ==> mod.ents == old(mod.ents)
      ensures var s, r := old(mod.ents), Visited(old(mod.ents), names, old(state), e).1;
              r.Some? ==>
                var p := FindParent(s, e);
                && p < |s| && s[p].block.Some? && e in Children(s, p) && s[e].links.typeOf.Some?
                && mod.ents == PairPushed(s, p, IndexIn(Children(s, p), e) + 1, PinNumber(p, names, r.value),
                                          PinCall(p, names, s[e].links.typeOf.value, e, |s|))
      // a number, text or call without a register is pinned to the next one while allocation is on
      ensures var s, a := old(mod.ents), old(state);
              5 <= e && a.allocating && (s[e].data.number.Some? || s[e].data.text.Some? || s[e].links.call.Some?) && s[e].data.register.None? ==>
                && state == State(true, a.next + 1) && |mod.ents| == |s| + 2 && s[e].links.typeOf.Some?
                && mod.ents[|s|].data.number == Some(a.next)
                && mod.ents[|s| + 1].links.call == Some(names.pinRegister)
                && mod.ents[|s| + 1].links.inputs == Some([s[e].links.typeOf.value, e, |s|])
      // anything else is left alone; a low id starts again and the call that begins allocation turns it on
      ensures var s, a := old(mod.ents), old(state);
              !(5 <= e && a.allocating && (s[e].data.number.Some? || s[e].data.text.Some? || s[e].links.call.Some?) && s[e].data.register.None?) ==>
                && mod.ents == s
                && state == if 5 <= e && a.allocating then a
                            else State(s[e].links.call == Some(names.begin), if e < 5 then 1 else a.next)
    {
      hide FindBlock, FindParent, IndexIn, PairPushed, PinNumber, PinCall;
      if e < LOW { state := State(false, 1); }
      if state.allocating {
        if !HasValue(mod.ents[e]) { return; }
        if mod.ents[e].data.register.Some? { return; }
        var parent := FindParent(mod.ents, e);
        var ty := mod.ents[e].links.typeOf.value;
        var r := state.next;
        state := state.(next := state.next + 1);
        ghost var s := mod.ents;
        Pin(mod, parent, e, names, ty, r);
        PinnedPair(s, mod.ents, parent, e, names, ty, r);
      } else {
        if mod.ents[e].links.call.None? { return; }
        if mod.ents[e].links.call.value == names.begin { state := state.(allocating := true); }
      }
    }
  }

  lemma {:induction false} PinnedPair(s: Store, t: Store, p: Id, e: Id, names: Names, ty: Id, r: nat)
    requires HasBlock(s, p) && e in Children(s, p)
    requires t == PairPushed(s, p, IndexIn(Children(s, p), e) + 1, PinNumber(p, names, r), PinCall(p, names, ty, e, |s|))
    ensures |t| == |s| + 2 && t[|s|].data.number == Some(r)
    ensures t[|s| + 1].links.call == Some(names.pinRegister) && t[|s| + 1].links.inputs == Some([ty, e, |s|])
  {
    hide IndexIn;
  }

  // The pin goes to the end of the block and is moved behind the value then, the number first.
  method Pin(mod: Module, parent: Id, e: Id, names: Names, ty: Id, r: nat)
    requires HasBlock(mod.ents, parent) && e in Children(mod.ents, parent)
    modifies mod
    ensures var s := old(mod.ents);
            HasBlock(s, parent) && e in Children(s, parent)
            && mod.ents == PairPushed(s, parent, IndexIn(Children(s, parent), e) + 1, PinNumber(parent, names, r), PinCall(parent, names, ty, e, |s|))
  {
    hide IndexIn, PairPushed, PinNumber, PinCall, NumberEntity, CallEntity;
    ghost var s := mod.ents;
    var xs := mod.ents[parent].block.value;
    var number := PushNumber(mod, parent, "_", names.registerType, r);
    var call := PushCall(mod, parent, "_", names.registerType, names.pinRegister, [ty, e, number]);
    var related := mod.ents[parent].block.value;
    PinEntities(parent, names, ty, e, number, r);
    assert related == xs + [number] + [call];
    TwoMore(xs, number, call);
    FirstIndex(xs, [number, call], e);
    var it := FindIndex(related, e);
    related := MoveBehind(related, it + 1);
    mod.ents := mod.ents[parent := mod.ents[parent].(block := Some(related))];
    PairMoved(s, parent, it + 1, related, PinNumber(parent, names, r), PinCall(parent, names, ty, e, number));
  }

  lemma {:induction false} TwoMore(xs: seq<Id>, a: Id, b: Id)
    ensures xs + [a] + [b] == xs + [a, b]
  {}

  lemma {:induction false} PinEntities(b: Id, names: Names, ty: Id, e: Id, number: Id, r: nat)
    ensures PinNumber(b, names, r) == NumberEntity(b, "_", names.registerType, r)
    ensures PinCall(b, names, ty, e, number) == CallEntity(b, "_", names.registerType, names.pinRegister, [ty, e, number])
  {}

  // Twice: the last element goes to position `it`.
  method MoveBehind(xs: seq<Id>, it: nat) returns (ys: seq<Id>)
    requires |xs| >= 2 && it <= |xs| - 2
    ensures ys == xs[..it] + xs[|xs| - 2..] + xs[it..|xs| - 2]
  {
    ys := xs;
    for i := 0 to 2
      invariant |ys| == |xs|
      invariant i == 0 ==> ys == xs
      invariant i == 1 ==> ys == xs[..it] + [xs[|xs| - 1]] + xs[it..|xs| - 1]
      invariant i == 2 ==> ys == xs[..it] + xs[|xs| - 2..] + xs[it..|xs| - 2]
    {
      var last := ys[|ys| - 1];
      MoveOne(ys, it);
      MoveTwo(xs, it);
      ys := ys[..it] + [last] + ys[it..];
      ys := ys[..|ys| - 1];
    }
  }

  lemma {:induction false} FirstIndex(xs: seq<Id>, ys: seq<Id>, e: Id)
    requires e in xs
    ensures e in xs + ys && IndexIn(xs + ys, e) == IndexIn(xs, e)
    decreases |xs|
  {
    if xs[0] != e {
      assert (xs + ys)[1..] == xs[1..] + ys;
      FirstIndex(xs[1..], ys, e);
    }
  }

  lemma {:induction false} PairMoved(s: Store, p: Id, it: nat, related: seq<Id>, x: Entity, y: Entity)
    requires HasBlock(s, p) && it <= |Children(s, p)|
    requires var rs := Children(s, p) + [|s|] + [|s| + 1]; related == rs[..it] + rs[|rs| - 2..] + rs[it..|rs| - 2]
    ensures var u := Pushed(Pushed(s, p, x, true), p, y, true);
            u[p := u[p].(block := Some(related))] == PairPushed(s, p, it, x, y)
  {
    var xs := Children(s, p);
    var rs := xs + [|s|] + [|s| + 1];
    assert rs[..it] == xs[..it] && rs[|rs| - 2..] == [|s|, |s| + 1] && rs[it..|rs| - 2] == xs[it..];
  }

  lemma {:induction false} MoveOne(xs: seq<Id>, it: nat)
    requires it < |xs|
    ensures var ys := xs[..it] + [xs[|xs| - 1]] + xs[it..]; ys[..|ys| - 1] == xs[..it] + [xs[|xs| - 1]] + xs[it..|xs| - 1]
  {}

  lemma {:induction false} MoveTwo(xs: seq<Id>, it: nat)
    requires |xs| >= 2 && it <= |xs| - 2
    ensures var ys := xs[..it] + [xs[|xs| - 1]] + xs[it..|xs| - 1];
            |ys| == |xs| && ys[..it] + [ys[|ys| - 1]] + ys[it..|ys| - 1] == xs[..it] + xs[|xs| - 2..] + xs[it..|xs| - 2]
  {
    var last, rest := xs[|xs| - 1], xs[it..|xs| - 1];
    var ys := xs[..it] + [last] + rest;
    assert ys[|ys| - 1] == xs[|xs| - 2];
    assert ys[it..] == [last] + rest && rest[..|rest| - 1] == xs[it..|xs| - 2];
    assert ys[it..|ys| - 1] == ys[it..][..|ys| - 1 - it] == [last] + rest[..|rest| - 1];
    assert xs[|xs| - 2..] == [xs[|xs| - 2], xs[|xs| - 1]];
  }
}
