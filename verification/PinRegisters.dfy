/** Turning pin calls into assigned registers: opt/pin_registers.hpp, before and after the allocate pass. */
module PinRegisters {
  import opened Wrappers
  import opened Store
  import opened Shapes
  import opened Builder
  import opened SortWalk
  import opened Renumber
  import opened NameLookup
  import opened Edits
  import opened Allocate
  import opened Registers
  import opened AllocatePass

  // What is reported: a pin call takes three inputs, the last of them a number.
  datatype PinFault = NotThreeInputs | NotNumeric

  predicate IsPin(s: Store, pinRegister: Id, e: Id) {
    e < |s| && s[e].links.call == Some(pinRegister)
  }

  // The three inputs with their aliases resolved.
  function PinInputs(s: Store, e: Id): Option<seq<Id>> {
    if e < |s| && s[e].links.inputs.Some? && |s[e].links.inputs.value| == 3 then
      var xs := s[e].links.inputs.value;
      var a, b, c := Resolve(s, xs[0]), Resolve(s, xs[1]), Resolve(s, xs[2]);
      if a.Some? && b.Some? && c.Some? then Some([a.value, b.value, c.value]) else None
    else None
  }

  datatype Assignment = Assignment(target: Id, register: nat)

  // What a pin call assigns; nothing when it is ill-formed.
  function Assigns(s: Store, pinRegister: Id, e: Id): Option<Assignment> {
    if IsPin(s, pinRegister, e) && PinInputs(s, e).Some? then
      var xs := PinInputs(s, e).value;
      if xs[2] < |s| && s[xs[2]].data.number.Some? then Some(Assignment(xs[1], s[xs[2]].data.number.value)) else None
    else None
  }

  function WithRegister(s: Store, x: Id, r: nat): Store
    requires x < |s|
  {
    s[x := s[x].(data := s[x].data.(register := Some(r)))]
  }

  // A pin call has its inputs, their aliases end, and what it pins is there.
  ghost predicate Pinnable(s: Store, pinRegister: Id, e: Id) {
    IsPin(s, pinRegister, e) ==>
      && s[e].links.inputs.Some?
      && (|s[e].links.inputs.value| == 3 ==> PinInputs(s, e).Some? && PinInputs(s, e).value[1] < |s|)
  }

  method PinRegister(mod: Module, e: Id, pinRegister: Id) returns (fault: Option<PinFault>)
    requires Pinnable(mod.ents, pinRegister, e)
    modifies mod
    ensures match Assigns(old(mod.ents), pinRegister, e)
            case Some(a) => fault == None && a.target < |old(mod.ents)| && mod.ents == WithRegister(old(mod.ents), a.target, a.register)
            case None => mod.ents == old(mod.ents) && (fault == None <==> !IsPin(old(mod.ents), pinRegister, e))
    // the second input's target gets the third input's number as its register
    ensures e < |old(mod.ents)| && old(mod.ents)[e].links.call == Some(pinRegister) ==>
              var s, inputs := old(mod.ents), old(mod.ents)[e].links.inputs;
              && inputs.Some?
              && if |inputs.value| != 3 then fault == Some(NotThreeInputs) && mod.ents == s
                 else
                   var target, number := Resolve(s, inputs.value[1]), Resolve(s, inputs.value[2]);
                   && target.Some? && number.Some? && target.value < |s|
                   && if number.value >= |s| || s[number.value].data.number.None? then fault == Some(NotNumeric) && mod.ents == s
                      else
                        && fault == None && |mod.ents| == |s| && mod.ents[target.value].data.register == s[number.value].data.number
                        && forall y: Id {:trigger mod.ents[y]} :: y < |s| && y != target.value ==> mod.ents[y] == s[y]
    ensures e >= |old(mod.ents)| || old(mod.ents)[e].links.call != Some(pinRegister) ==> fault == None && mod.ents == old(mod.ents)
  {
    fault := None;
    if e >= |mod.ents| || mod.ents[e].links.call.None? { return; }
    if mod.ents[e].links.call.value != pinRegister { return; }
    var inputs := mod.ents[e].links.inputs.value;
    if |inputs| != 3 { return Some(NotThreeInputs); }
    var first := mod.ResolveAlias(inputs[0]);
    var target := mod.ResolveAlias(inputs[1]);
    var number := mod.ResolveAlias(inputs[2]);
    if number >= |mod.ents| || mod.ents[number].data.number.None? { return Some(NotNumeric); }
    var r := mod.ents[number].data.number.value;
    mod.ents := mod.ents[target := mod.ents[target].(data := mod.ents[target].data.(register := Some(r)))];
  }

  // ---------- the pass ----------

  // The register of `x` after the pins of `order`: the last one that names it decides.
  function RegisterAfter(s: Store, pinRegister: Id, order: seq<Id>, x: Id, r: Option<nat>): Option<nat>
    decreases |order|
  {
    if order == [] then r
    else
      var a := Assigns(s, pinRegister, order[0]);
      RegisterAfter(s, pinRegister, order[1..], x, if a.Some? && a.value.target == x then Some(a.value.register) else r)
  }

  // Only registers differ.
  ghost predicate SameButRegisters(s: Store, t: Store) {
    |t| == |s| && forall x {:trigger t[x]} :: 0 <= x < |s| ==> t[x] == s[x].(data := s[x].data.(register := t[x].data.register))
  }

  ghost predicate PinnedAll(s: Store, t: Store, pinRegister: Id, order: seq<Id>) {
    && SameButRegisters(s, t)
    && forall x {:trigger t[x]} :: 0 <= x < |s| ==> t[x].data.register == RegisterAfter(s, pinRegister, order, x, s[x].data.register)
  }

  method PinAll(mod: Module, order: seq<Id>, pinRegister: Id) returns (faults: nat)
    requires forall e :: e in order ==> Pinnable(mod.ents, pinRegister, e)
    modifies mod
    ensures PinnedAll(old(mod.ents), mod.ents, pinRegister, order)
  {
    hide Assigns, Pinnable, RegisterAfter, SameButRegisters;
    ghost var s := mod.ents;
    faults := 0;
    PinNothing(s, pinRegister);
    for i := 0 to |order|
      invariant PinnedAll(s, mod.ents, pinRegister, order[..i])
    {
      var e := order[i];
      assert e in order;
      ghost var t := mod.ents;
      PinsSame(s, t, pinRegister, e);
      var fault := PinRegister(mod, e, pinRegister);
      PinMore(s, t, mod.ents, pinRegister, order, i);
      if fault.Some? { faults := faults + 1; }
    }
    assert order[..|order|] == order;
  }

  lemma {:induction false} PinNothing(s: Store, pinRegister: Id)
    ensures forall order: seq<Id> :: PinnedAll(s, s, pinRegister, order[..0])
  {}

  lemma {:induction false} ResolvePinned(s: Store, t: Store, e: Id, fuel: nat)
    requires SameButRegisters(s, t)
    ensures ResolveIn(t, e, fuel) == ResolveIn(s, e, fuel)
  {
    forall y {:trigger t[y]} | 0 <= y < |s| ensures t[y].links == s[y].links {}
    ResolveSame(s, t, e, fuel);
  }

  // What a pin call assigns does not depend on registers.
  lemma {:induction false} PinsSame(s: Store, t: Store, pinRegister: Id, e: Id)
    requires SameButRegisters(s, t)
    ensures Assigns(t, pinRegister, e) == Assigns(s, pinRegister, e)
    ensures Pinnable(t, pinRegister, e) <==> Pinnable(s, pinRegister, e)
  {
    forall x: Id ensures Resolve(t, x) == Resolve(s, x) { ResolvePinned(s, t, x, |s|); }
    assert e < |s| ==> t[e].links == s[e].links;
    if PinInputs(s, e).Some? && PinInputs(s, e).value[2] < |s| {
      assert t[PinInputs(s, e).value[2]].data.number == s[PinInputs(s, e).value[2]].data.number;
    }
    hide SameButRegisters, Resolve;
  }

  lemma {:induction false} RegisterAfterAppend(s: Store, pinRegister: Id, xs: seq<Id>, ys: seq<Id>, x: Id, r: Option<nat>)
    ensures RegisterAfter(s, pinRegister, xs + ys, x, r) == RegisterAfter(s, pinRegister, ys, x, RegisterAfter(s, pinRegister, xs, x, r))
    decreases |xs|
  {
    hide Assigns;
    if xs == [] {
      assert xs + ys == ys;
    } else {
      assert (xs + ys)[1..] == xs[1..] + ys;
      var a := Assigns(s, pinRegister, xs[0]);
      RegisterAfterAppend(s, pinRegister, xs[1..], ys, x, if a.Some? && a.value.target == x then Some(a.value.register) else r);
    }
  }

  lemma {:induction false} RegisterAfterOne(s: Store, pinRegister: Id, e: Id, x: Id, r: Option<nat>)
    ensures RegisterAfter(s, pinRegister, [e], x, r) ==
            if Assigns(s, pinRegister, e).Some? && Assigns(s, pinRegister, e).value.target == x then Some(Assigns(s, pinRegister, e).value.register) else r
  {
    assert [e][1..] == [];
    hide Assigns;
    var a := Assigns(s, pinRegister, e);
    var r' := if a.Some? && a.value.target == x then Some(a.value.register) else r;
    assert RegisterAfter(s, pinRegister, [], x, r') == r';
  }

  lemma {:induction false} PinMore(s: Store, t: Store, u: Store, pinRegister: Id, order: seq<Id>, i: nat)
    requires i < |order| && PinnedAll(s, t, pinRegister, order[..i])
    requires match Assigns(s, pinRegister, order[i])
             case Some(a) => a.target < |t| && u == WithRegister(t, a.target, a.register)
             case None => u == t
    ensures PinnedAll(s, u, pinRegister, order[..i + 1])
  {
    hide Assigns, RegisterAfter;
    assert order[..i + 1] == order[..i] + [order[i]];
    forall x {:trigger u[x]} | 0 <= x < |s|
      ensures u[x].data.register == RegisterAfter(s, pinRegister, order[..i + 1], x, s[x].data.register)
      ensures u[x] == s[x].(data := s[x].data.(register := u[x].data.register))
    {
      assert t[x] == s[x].(data := s[x].data.(register := t[x].data.register));
      RegisterAfterAppend(s, pinRegister, order[..i], [order[i]], x, s[x].data.register);
      RegisterAfterOne(s, pinRegister, order[i], x, t[x].data.register);
    }
  }

  // ---------- a second pass ----------

  // Whatever a register was before, a pin that names the entity decides; without one it stays.
  lemma {:induction false} LastPinDecides(s: Store, pinRegister: Id, order: seq<Id>, x: Id, r: Option<nat>)
    ensures RegisterAfter(s, pinRegister, order, x, RegisterAfter(s, pinRegister, order, x, r)) == RegisterAfter(s, pinRegister, order, x, r)
    ensures forall q {:trigger RegisterAfter(s, pinRegister, order, x, q)} ::
              RegisterAfter(s, pinRegister, order, x, q) == q || RegisterAfter(s, pinRegister, order, x, q) == RegisterAfter(s, pinRegister, order, x, r)
    decreases |order|
  {
    hide Assigns;
    if order != [] {
      var a := Assigns(s, pinRegister, order[0]);
      if a.Some? && a.value.target == x {
        LastPinDecides(s, pinRegister, order[1..], x, Some(a.value.register));
      } else {
        LastPinDecides(s, pinRegister, order[1..], x, r);
      }
    }
  }

  lemma {:induction false} PinNamed(s: Store, pinRegister: Id, order: seq<Id>, e: Id, r: Option<nat>)
    requires e in order && Assigns(s, pinRegister, e).Some?
    ensures RegisterAfter(s, pinRegister, order, Assigns(s, pinRegister, e).value.target, r).Some?
    decreases |order|
  {
    var x := Assigns(s, pinRegister, e).value.target;
    hide Assigns;
    var a := Assigns(s, pinRegister, order[0]);
    var r' := if a.Some? && a.value.target == x then Some(a.value.register) else r;
    if order[0] == e { SomeStays(s, pinRegister, order[1..], x, r'); } else { PinNamed(s, pinRegister, order[1..], e, r'); }
  }

  lemma {:induction false} SomeStays(s: Store, pinRegister: Id, order: seq<Id>, x: Id, r: Option<nat>)
    requires r.Some?
    ensures RegisterAfter(s, pinRegister, order, x, r).Some?
    decreases |order|
  {
    hide Assigns;
    if order != [] {
      var a := Assigns(s, pinRegister, order[0]);
      SomeStays(s, pinRegister, order[1..], x, if a.Some? && a.value.target == x then Some(a.value.register) else r);
    }
  }

  /** The pin pass settles what it pins: a second one finds every register in place. */
  lemma {:induction false} PinPassSettles(s: Store, t: Store, pinRegister: Id, order: seq<Id>, x: Id, e: Id)
    requires PinnedAll(s, t, pinRegister, order) && x < |s|
    ensures x < |t| && RegisterAfter(t, pinRegister, order, x, t[x].data.register) == t[x].data.register
    ensures e in order && Assigns(t, pinRegister, e).Some? ==>
              var y := Assigns(t, pinRegister, e).value.target; y < |s| ==> y < |t| && t[y].data.register.Some?
  {
    hide Assigns, SameButRegisters, RegisterAfter;
    assert SameButRegisters(s, t);
    SameAfter(s, t, pinRegister, order, x, t[x].data.register) by { assert |t| == |s| by { assert SameButRegisters(s, t); SameSize(s, t); } }
    LastPinDecides(s, pinRegister, order, x, s[x].data.register);
    if e in order && Assigns(t, pinRegister, e).Some? {
      PinsSame(s, t, pinRegister, e);
      var y := Assigns(t, pinRegister, e).value.target;
      if y < |s| { PinNamed(s, pinRegister, order, e, s[y].data.register); }
      SameSize(s, t);
    }
  }

  lemma {:induction false} SameSize(s: Store, t: Store)
    requires SameButRegisters(s, t)
    ensures |t| == |s|
  {}

  lemma {:induction false} SameAfter(s: Store, t: Store, pinRegister: Id, order: seq<Id>, x: Id, r: Option<nat>)
    requires SameButRegisters(s, t)
    ensures RegisterAfter(t, pinRegister, order, x, r) == RegisterAfter(s, pinRegister, order, x, r)
    decreases |order|
  {
    hide Assigns, SameButRegisters;
    if order != [] {
      PinsSame(s, t, pinRegister, order[0]);
      var a := Assigns(s, pinRegister, order[0]);
      SameAfter(s, t, pinRegister, order[1..], x, if a.Some? && a.value.target == x then Some(a.value.register) else r);
    }
  }
}
