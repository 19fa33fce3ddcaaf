/** Loading an immediate: opt/mizu/materialize_immediates.hpp. */
module Materialize {
  import opened Wrappers
  import opened Store
  import opened Shapes
  import opened Builder

  // What the pass looks up by name.
  datatype Ops = Ops(u64: Id, byteType: Id, emit: Id, indicateYield: Id, loadImmediate: Id, loadImmediateOp: Id,
                     loadUpperImmediate: Id, loadUpperImmediateOp: Id)

  datatype LoadFault = NotTwoInputs | NotNumeric | NoRegister

  type Bytes = seq<byte>

  // A 32-bit number as it lies in memory, low byte first.
  function LittleEndian(v: nat): (r: Bytes)
    ensures |r| == 4
  {
    [v % 256, v / 0x100 % 256, v / 0x1_0000 % 256, v / 0x100_0000 % 256]
  }

  function RegisterBytes(r: nat): Bytes {
    [r % 256, r / 256 % 256]
  }

  // ---------- pushing several entities ----------

  // The entities `xs` were pushed to the end of `b`, in order.
  ghost predicate PushedAll(s: Store, t: Store, b: Id, xs: seq<Entity>) {
    && b < |s| && s[b].block.Some? && |t| == |s| + |xs|
    && (forall y {:trigger t[y]} :: 0 <= y < |s| && y != b ==> t[y] == s[y])
    && t[b] == s[b].(block := Some(s[b].block.value + Range(|s|, |xs|)))
    && t[|s|..] == xs
  }

  lemma {:induction false} PushedNone(s: Store, b: Id)
    requires b < |s| && s[b].block.Some?
    ensures PushedAll(s, s, b, [])
  {
    assert s[b].block.value + Range(|s|, 0) == s[b].block.value;
    assert s[|s|..] == [];
  }

  lemma {:induction false} PushedMore(s: Store, t: Store, b: Id, xs: seq<Entity>, x: Entity)
    requires PushedAll(s, t, b, xs)
    ensures PushedAll(s, Pushed(t, b, x, true), b, xs + [x])
  {
    var u := Pushed(t, b, x, true);
    assert Range(|s|, |xs| + 1) == Range(|s|, |xs|) + [|s| + |xs|];
    assert (s[b].block.value + Range(|s|, |xs|)) + [|t|] == s[b].block.value + Range(|s|, |xs| + 1);
    forall i | 0 <= i < |xs| ensures u[|s|..][i] == xs[i] { assert t[|s|..][i] == xs[i] && u[|s| + i] == t[|s| + i]; }
    assert u[|s|..] == xs + [x];
  }

  // ---------- what is built ----------

  function OpCall(e: Id, ops: Ops, op: Id): Entity {
    var x := CallEntity(e, "_", ops.u64, op, [ops.u64]);
    x.(data := x.data.(flags := {Flag.Inline}))
  }

  function ByteNumber(e: Id, ops: Ops, name: string, v: nat): Entity {
    NumberEntity(e, name, ops.byteType, v)
  }

  function EmitCall(e: Id, ops: Ops, operand: Id): Entity {
    CallEntity(e, "_", ops.byteType, ops.emit, [operand])
  }

  // Numbers from id `n` on, each followed by the call that emits it.
  function Emissions(e: Id, ops: Ops, n: Id, names: seq<string>, vs: Bytes): (r: seq<Entity>)
    requires |names| == |vs|
    ensures |r| == 2 * |vs|
    decreases |vs|
  {
    if vs == [] then []
    else [ByteNumber(e, ops, names[0], vs[0]), EmitCall(e, ops, n)] + Emissions(e, ops, n + 2, names[1..], vs[1..])
  }

  lemma {:induction false} EmissionsMore(e: Id, ops: Ops, n: Id, names: seq<string>, vs: Bytes, name: string, v: byte)
    requires |names| == |vs|
    ensures Emissions(e, ops, n, names + [name], vs + [v]) ==
            Emissions(e, ops, n, names, vs) + [ByteNumber(e, ops, name, v)] + [EmitCall(e, ops, n + 2 * |vs|)]
    decreases |vs|
  {
    if vs == [] {
      assert [v][1..] == [] && ([] + [v])[1..] == [] && ([] + [name])[1..] == [];
      assert Emissions(e, ops, n + 2, [], []) == [];
    } else {
      assert (vs + [v])[1..] == vs[1..] + [v] && (names + [name])[1..] == names[1..] + [name];
      EmissionsMore(e, ops, n + 2, names[1..], vs[1..], name, v);
    }
  }

  const LABELS: seq<string> := ["low", "high", "%0", "%1", "%2", "%3"]

  function LoadBytes(r: nat, v: nat): (bytes: Bytes)
    ensures |bytes| == 6
  {
    RegisterBytes(r) + LittleEndian(v)
  }

  // The block of a load, its entities numbered from `n`.
  function LoadBody(e: Id, ops: Ops, op: Id, n: Id, r: nat, v: nat): (xs: seq<Entity>)
    ensures |xs| == 17
  {
    [OpCall(e, ops, op)] + Emissions(e, ops, n + 1, LABELS, LoadBytes(r, v))
    + [ByteNumber(e, ops, "zero", 0), EmitCall(e, ops, n + 13), EmitCall(e, ops, n + 13),
       CallEntity(e, "_", ops.u64, ops.indicateYield, [ops.u64])]
  }

  predicate Loads(s: Store, ops: Ops, e: Id) {
    e < |s| && s[e].links.call.Some? && (s[e].links.call.value == ops.loadImmediate || s[e].links.call.value == ops.loadUpperImmediate)
  }

  function LoadOp(s: Store, ops: Ops, e: Id): Id {
    if e < |s| && s[e].links.call == Some(ops.loadImmediate) then ops.loadImmediateOp else ops.loadUpperImmediateOp
  }

  // The constant that is loaded, aliases resolved.
  function Immediate(s: Store, e: Id): Option<Id> {
    if e < |s| && s[e].links.inputs.Some? && |s[e].links.inputs.value| == 2 then
      var a, b := Resolve(s, s[e].links.inputs.value[0]), Resolve(s, s[e].links.inputs.value[1]);
      if a.Some? then b else None
    else None
  }

  // The call is a block now.
  function Opened(x: Entity): Entity {
    x.(links := x.links.(call := None), block := Some([]))
  }

  // A load has a type, and its inputs' aliases end.
  ghost predicate Loadable(s: Store, ops: Ops, e: Id) {
    Loads(s, ops, e) ==>
      && s[e].links.typeOf.Some? && s[e].block.None?
      && (s[e].links.inputs.Some? && |s[e].links.inputs.value| == 2 ==> Immediate(s, e).Some?)
  }

  function LoadOutcome(s: Store, ops: Ops, e: Id): Option<LoadFault> {
    if !Loads(s, ops, e) then None
    else if Immediate(s, e).None? then Some(NotTwoInputs)
    else if Immediate(s, e).value >= |s| || s[Immediate(s, e).value].data.number.None? then Some(NotNumeric)
    else if s[Immediate(s, e).value].data.register.None? then Some(NoRegister)
    else None
  }

  // The finished block: everything pushed, and the load has the register of its constant.
  ghost predicate Loaded(s: Store, t: Store, ops: Ops, e: Id) {
    && e < |s| && Immediate(s, e).Some? && Immediate(s, e).value < |s|
    && s[Immediate(s, e).value].data.number.Some? && s[Immediate(s, e).value].data.register.Some?
    && LoadedWith(s, t, ops, e, s[Immediate(s, e).value].data.register.value, s[Immediate(s, e).value].data.number.value % 0x1_0000_0000)
  }

  ghost predicate LoadedWith(s: Store, t: Store, ops: Ops, e: Id, r: nat, v: nat)
    requires e < |s|
  {
    var x := Opened(s[e]);
    PushedAll(s[e := x.(data := x.data.(register := Some(r)))], t, e, LoadBody(e, ops, LoadOp(s, ops, e), |s|, r, v))
  }

  // The first entity of the block of `e` is `c`, a call of `op` that is to be inlined.
  predicate BeginsWith(t: Store, e: Id, c: Id, op: Id) {
    && e < |t| && c < |t| && t[e].block.Some? && t[e].block.value != [] && t[e].block.value[0] == c
    && t[c].links.call == Some(op) && t[c].data.flags == {Flag.Inline}
  }

  lemma {:induction false} PushedFirst(s: Store, t: Store, e: Id, ops: Ops, op: Id, xs: seq<Entity>)
    requires PushedAll(s, t, e, xs) && s[e].block == Some([]) && xs != [] && xs[0] == OpCall(e, ops, op)
    ensures BeginsWith(t, e, |s|, op)
    ensures t[e].data.register == s[e].data.register
  {
    assert t[|s|..][0] == xs[0];
  }

  method MaterializeImmediates(mod: Module, e: Id, ops: Ops) returns (fault: Option<LoadFault>)
    requires Loadable(mod.ents, ops, e)
    modifies mod
    ensures fault == LoadOutcome(old(mod.ents), ops, e)
    ensures !Loads(old(mod.ents), ops, e) || fault == Some(NotTwoInputs) || fault == Some(NotNumeric) ==> mod.ents == old(mod.ents)
    ensures fault == Some(NoRegister) ==>
              e < |old(mod.ents)| && PushedAll(old(mod.ents)[e := Opened(old(mod.ents)[e])], mod.ents, e, [OpCall(e, ops, LoadOp(old(mod.ents), ops, e))])
    ensures fault == None && Loads(old(mod.ents), ops, e) ==> Loaded(old(mod.ents), mod.ents, ops, e)
    // anything else than a call of one of the two is left alone
    ensures e >= |old(mod.ents)| || old(mod.ents)[e].links.call !in {Some(ops.loadImmediate), Some(ops.loadUpperImmediate)} ==>
              fault == None && mod.ents == old(mod.ents)
    // the faults, in the order they are looked for, and the register that the load takes over from its constant
    ensures e < |old(mod.ents)| && old(mod.ents)[e].links.call in {Some(ops.loadImmediate), Some(ops.loadUpperImmediate)} ==>
              var s, inputs := old(mod.ents), old(mod.ents)[e].links.inputs;
              if inputs.None? || |inputs.value| != 2 then fault == Some(NotTwoInputs)
              else
                var constant := Resolve(s, inputs.value[1]);
                && constant.Some?
                && if constant.value >= |s| || s[constant.value].data.number.None? then fault == Some(NotNumeric)
                   else if s[constant.value].data.register.None? then fault == Some(NoRegister)
                   else fault == None && e < |mod.ents| && mod.ents[e].data.register == s[constant.value].data.register
    // the block begins with an inlined call of the operation that belongs to the load
    ensures e < |old(mod.ents)| && old(mod.ents)[e].links.call == Some(ops.loadImmediate) && (fault == None || fault == Some(NoRegister)) ==>
              BeginsWith(mod.ents, e, |old(mod.ents)|, ops.loadImmediateOp)
    ensures e < |old(mod.ents)| && old(mod.ents)[e].links.call == Some(ops.loadUpperImmediate) && ops.loadUpperImmediate != ops.loadImmediate
            && (fault == None || fault == Some(NoRegister)) ==>
              BeginsWith(mod.ents, e, |old(mod.ents)|, ops.loadUpperImmediateOp)
  {
    hide PushedAll, LoadBody, Emissions, Pushed, Resolve;
    ghost var s := mod.ents;
    if e >= |mod.ents| || mod.ents[e].links.call.None? { return None; }
    var function_ := mod.ents[e].links.call.value;
    if function_ != ops.loadImmediate && function_ != ops.loadUpperImmediate { return None; }
    if mod.ents[e].links.inputs.None? { return Some(NotTwoInputs); }
    var inputs := mod.ents[e].links.inputs.value;
    if |inputs| != 2 { return Some(NotTwoInputs); }
    var first := mod.ResolveAlias(inputs[0]);
    var target := mod.ResolveAlias(inputs[1]);
    if target >= |mod.ents| || mod.ents[target].data.number.None? { return Some(NotNumeric); }
    var value := mod.ents[target].data.number.value % 0x1_0000_0000;
    var register := mod.ents[target].data.register;
    mod.ents := mod.ents[e := Opened(mod.ents[e])];
    var op := if function_ == ops.loadImmediate then ops.loadImmediateOp else ops.loadUpperImmediateOp;
    ghost var s1 := mod.ents;
    PushedNone(s1, e);
    var c := PushCall(mod, e, "_", ops.u64, op, [ops.u64]);
    PushedMore(s1, s1, e, [], CallEntity(e, "_", ops.u64, op, [ops.u64]));
    mod.ents := mod.ents[c := mod.ents[c].(data := mod.ents[c].data.(flags := {Flag.Inline}))];
    OpFlagged(s1, e, ops, op);
    PushedFirst(s1, mod.ents, e, ops, op, [OpCall(e, ops, op)]);
    if register.None? { return Some(NoRegister); }
    RegisterSet(s1, mod.ents, e, register, [OpCall(e, ops, op)]);
    mod.ents := mod.ents[e := mod.ents[e].(data := mod.ents[e].data.(register := register))];
    ghost var s2 := s1[e := s1[e].(data := s1[e].data.(register := register))];
    PushBytes(mod, e, ops, register.value, value, s2, op);
    assert s2 == s[e := Opened(s[e]).(data := Opened(s[e]).data.(register := Some(register.value)))];
    assert LoadedWith(s, mod.ents, ops, e, register.value, value);
    LoadBodyFirst(e, ops, op, |s|, register.value, value);
    PushedFirst(s2, mod.ents, e, ops, op, LoadBody(e, ops, op, |s|, register.value, value));
    fault := None;
  }

  lemma {:induction false} LoadBodyFirst(e: Id, ops: Ops, op: Id, n: Id, r: nat, v: nat)
    ensures LoadBody(e, ops, op, n, r, v)[0] == OpCall(e, ops, op)
  {}

  lemma {:induction false} OpFlagged(s: Store, e: Id, ops: Ops, op: Id)
    requires e < |s| && s[e].block == Some([])
    ensures var t := Pushed(s, e, CallEntity(e, "_", ops.u64, op, [ops.u64]), true);
            PushedAll(s, t[|s| := t[|s|].(data := t[|s|].data.(flags := {Flag.Inline}))], e, [OpCall(e, ops, op)])
  {
    var x, y := CallEntity(e, "_", ops.u64, op, [ops.u64]), OpCall(e, ops, op);
    var t := Pushed(s, e, x, true);
    var u := t[|s| := t[|s|].(data := t[|s|].data.(flags := {Flag.Inline}))];
    assert u[|s|] == y && |u| == |s| + 1;
    assert s[e].block.value + Range(|s|, |[y]|) == [] + [|s|];
    assert u[|s|..] == [y];
    assert u[e] == s[e].(block := Some([] + [|s|]));
  }

  lemma {:induction false} RegisterSet(s: Store, t: Store, e: Id, register: Option<nat>, xs: seq<Entity>)
    requires PushedAll(s, t, e, xs)
    ensures e < |s| <= |t|
    ensures var x := s[e].(data := s[e].data.(register := register));
            PushedAll(s[e := x], t[e := t[e].(data := t[e].data.(register := register))], e, xs)
  {
    var u := t[e := t[e].(data := t[e].data.(register := register))];
    assert u[|s|..] == t[|s|..];
  }

  // A number and the call that emits it.
  method PushEmission(mod: Module, e: Id, ops: Ops, name: string, v: byte, ghost s: Store, ghost xs: seq<Entity>)
    requires PushedAll(s, mod.ents, e, xs) && name != "_"
    modifies mod
    ensures PushedAll(s, mod.ents, e, xs + [ByteNumber(e, ops, name, v)] + [EmitCall(e, ops, |s| + |xs|)])
  {
    hide Pushed, PushedAll, ByteNumber, EmitCall, NumberEntity, CallEntity;
    PushedParts(s, mod.ents, e, xs);
    ghost var t := mod.ents;
    var number := PushNumber(mod, e, name, ops.byteType, v);
    PushedMore(s, t, e, xs, NumberEntity(e, name, ops.byteType, v));
    PushedParts(s, mod.ents, e, xs + [NumberEntity(e, name, ops.byteType, v)]);
    ghost var u := mod.ents;
    var call := PushCall(mod, e, "_", ops.byteType, ops.emit, [number]);
    PushedMore(s, u, e, xs + [NumberEntity(e, name, ops.byteType, v)], CallEntity(e, "_", ops.byteType, ops.emit, [number]));
    EmissionEntities(e, ops, name, v, number);
  }

  lemma {:induction false} EmissionEntities(e: Id, ops: Ops, name: string, v: nat, number: Id)
    ensures ByteNumber(e, ops, name, v) == NumberEntity(e, name, ops.byteType, v)
    ensures EmitCall(e, ops, number) == CallEntity(e, "_", ops.byteType, ops.emit, [number])
  {}

  lemma {:induction false} PushedParts(s: Store, t: Store, b: Id, xs: seq<Entity>)
    requires PushedAll(s, t, b, xs)
    ensures b < |s| <= |t| && |t| == |s| + |xs| && t[b].block.Some?
  {}

  method PushBytes(mod: Module, e: Id, ops: Ops, r: nat, v: nat, ghost s: Store, ghost op: Id)
    requires PushedAll(s, mod.ents, e, [OpCall(e, ops, op)])
    modifies mod
    ensures PushedAll(s, mod.ents, e, LoadBody(e, ops, op, |s|, r, v))
  {
    hide PushedAll, Pushed, ByteNumber, EmitCall, NumberEntity, CallEntity, OpCall, Emissions;
    var bytes := LoadBytes(r, v);
    ghost var first := [OpCall(e, ops, op)];
    EmissionsNone(e, ops, |s| + 1);
    for i := 0 to 6
      invariant PushedAll(s, mod.ents, e, first + Emissions(e, ops, |s| + 1, LABELS[..i], bytes[..i]))
    {
      ghost var xs := first + Emissions(e, ops, |s| + 1, LABELS[..i], bytes[..i]);
      PushEmission(mod, e, ops, LABELS[i], bytes[i], s, xs);
      EmissionsMore(e, ops, |s| + 1, LABELS[..i], bytes[..i], LABELS[i], bytes[i]);
      assert LABELS[..i + 1] == LABELS[..i] + [LABELS[i]] && bytes[..i + 1] == bytes[..i] + [bytes[i]];
      Regroup(first, Emissions(e, ops, |s| + 1, LABELS[..i], bytes[..i]), ByteNumber(e, ops, LABELS[i], bytes[i]), EmitCall(e, ops, |s| + |xs|));
    }
    assert LABELS[..6] == LABELS && bytes[..6] == bytes;
    PushTail(mod, e, ops, s, first + Emissions(e, ops, |s| + 1, LABELS, bytes));
  }

  lemma {:induction false} EmissionsNone(e: Id, ops: Ops, n: Id)
    ensures Emissions(e, ops, n, LABELS[..0], []) == []
    ensures forall bytes: Bytes :: bytes[..0] == []
    ensures forall first: seq<Entity> :: first + [] == first
  {}

  lemma {:induction false} Regroup(a: seq<Entity>, b: seq<Entity>, x: Entity, y: Entity)
    ensures (a + b) + [x] + [y] == a + (b + [x] + [y])
  {}

  method PushTail(mod: Module, e: Id, ops: Ops, ghost s: Store, ghost xs: seq<Entity>)
    requires PushedAll(s, mod.ents, e, xs) && |xs| == 13
    modifies mod
    ensures PushedAll(s, mod.ents, e, xs + [ByteNumber(e, ops, "zero", 0), EmitCall(e, ops, |s| + 13), EmitCall(e, ops, |s| + 13),
                                            CallEntity(e, "_", ops.u64, ops.indicateYield, [ops.u64])])
  {
    hide Pushed, PushedAll, ByteNumber, EmitCall, NumberEntity, CallEntity;
    PushedParts(s, mod.ents, e, xs);
    ghost var t := mod.ents;
    var zero := PushNumber(mod, e, "zero", ops.byteType, 0);
    EmissionEntities(e, ops, "zero", 0, zero);
    PushedMore(s, t, e, xs, ByteNumber(e, ops, "zero", 0));
    ghost var ys := xs + [ByteNumber(e, ops, "zero", 0)];
    TailNone(ys, EmitCall(e, ops, zero));
    for i := 0 to 2
      invariant zero == |s| + 13 && PushedAll(s, mod.ents, e, ys + seq(i, _ => EmitCall(e, ops, zero)))
    {
      ghost var zs := ys + seq(i, _ => EmitCall(e, ops, zero));
      PushedParts(s, mod.ents, e, zs);
      ghost var u := mod.ents;
      var call := PushCall(mod, e, "_", ops.byteType, ops.emit, [zero]);
      PushedMore(s, u, e, zs, EmitCall(e, ops, zero));
      TailMore(ys, EmitCall(e, ops, zero), i);
    }
    ghost var zs := ys + seq(2, _ => EmitCall(e, ops, zero));
    PushedParts(s, mod.ents, e, zs);
    ghost var u := mod.ents;
    var call := PushCall(mod, e, "_", ops.u64, ops.indicateYield, [ops.u64]);
    PushedMore(s, u, e, zs, CallEntity(e, "_", ops.u64, ops.indicateYield, [ops.u64]));
    TailDone(xs, ByteNumber(e, ops, "zero", 0), EmitCall(e, ops, zero), CallEntity(e, "_", ops.u64, ops.indicateYield, [ops.u64]));
  }

  lemma {:induction false} TailNone(ys: seq<Entity>, x: Entity)
    ensures ys + seq(0, _ => x) == ys
  {}

  lemma {:induction false} TailMore(ys: seq<Entity>, x: Entity, i: nat)
    ensures (ys + seq(i, _ => x)) + [x] == ys + seq(i + 1, _ => x)
  {}

  lemma {:induction false} TailDone(xs: seq<Entity>, a: Entity, x: Entity, z: Entity)
    ensures (xs + [a]) + seq(2, _ => x) + [z] == xs + [a, x, x, z]
  {}
}
