/** A load from its call to its bytes: materialize_immediates.hpp:18-98, inline_functions.cpp and temp_byte_dumper.hpp:40-68 in a row. */
module LoadRun {
  import opened Wrappers
  import opened Store
  import opened Shapes
  import opened Copy
  import opened Substitute
  import opened Builder
  import opened Inline
  import opened FunctionScope
  import D = Dump
  import opened Materialize
  import opened LoadDump

  // The function `f` is an operation as mizu.doir:43-52 writes them, and the load `e` is no part of it.
  ghost predicate Operation(s: Store, k: D.Emitters, ops: Ops, b: Builtins, e: Id, f: Id, o: OpIds, opcode: Bytes) {
    && f < |s| && s[f].links.alias.None? && s[f].links.typeOf.Some? && s[f].block == Some([o.parameter, o.text, o.emission, o.ret])
    && OpFunction(s, k, b, o, opcode) && s[o.parameter].block.None? && NamesApart(k, ops, b, o)
    && (forall x :: x in {o.parameter, o.text, o.emission, o.ret} ==> s[x].parent == Some(f) && x != f)
    && e !in {f, o.parameter, o.text, o.emission, o.ret}
  }

  // The compiler's functions are there, and no replacement is itself replaced.
  predicate NamesThere(s: Store, b: Builtins) {
    && b.indicateReturn < |s| && b.returnRegister < |s| && b.indicateReturn != b.returnRegister
    && b.indicateYield != b.indicateReturn && b.indicateYield != b.returnRegister
    && b.yieldRegister != b.indicateReturn && b.yieldRegister != b.returnRegister
  }

  // The load is outside of functions, and the types it is about are plain ones.
  predicate PlainLoad(s: Store, ops: Ops, e: Id) {
    && e < |s| && s[e].block.None? && s[e].links.returnType.None?
    && s[e].links.typeOf.Some? && PlainType(s, s[e].links.typeOf.value) && s[e].links.typeOf.value != e
    && PlainType(s, ops.byteType) && ops.byteType != e && PlainType(s, ops.u64) && ops.u64 != e
  }

  lemma {:induction false} OperationKept(s: Store, t: Store, k: D.Emitters, ops: Ops, b: Builtins, e: Id, f: Id, o: OpIds, opcode: Bytes)
    requires Operation(s, k, ops, b, e, f, o, opcode) && |s| <= |t| && forall y {:trigger t[y]} :: 0 <= y < |s| && y != e ==> t[y] == s[y]
    ensures Operation(t, k, ops, b, e, f, o, opcode)
  {
    hide NamesApart;
    assert t[o.parameter] == s[o.parameter] && t[o.text] == s[o.text] && t[o.emission] == s[o.emission] && t[o.ret] == s[o.ret];
  }

  lemma {:induction false} OperationShape(s: Store, k: D.Emitters, ops: Ops, b: Builtins, e: Id, f: Id, o: OpIds, opcode: Bytes)
    requires Operation(s, k, ops, b, e, f, o, opcode)
    ensures Rep(s, Cons(f, OpKids(o), Nil)) && NoDup(Cons(f, OpKids(o), Nil)) && Parents(s, OpKids(o), f)
    ensures Ids(Cons(f, OpKids(o), Nil)) == {f, o.parameter, o.text, o.emission, o.ret}
    ensures ParamIn(s, Children(s, f), 0) == Some(o.parameter)
  {
    hide NamesApart;
    OpForest(o);
    assert Ids(OpKids(o)) == {o.parameter} + Ids(OpBody(o));
    assert Children(s, f) == [o.parameter] + Roots(OpBody(o));
    var h := Cons(o.ret, Nil, Nil);
    assert Rep(s, h) && NoDup(h) && Parents(s, h, f) && Ids(h) == {o.ret};
    var g := Cons(o.emission, Nil, h);
    assert Rep(s, g) && NoDup(g) && Parents(s, g, f) && Ids(g) == {o.emission, o.ret};
    assert Rep(s, OpBody(o)) && NoDup(OpBody(o)) && Parents(s, OpBody(o), f);
  }

  // The call that begins the block can be inlined, and its function is the operation.
  lemma {:induction false} OpCallInlinable(t: Store, k: D.Emitters, ops: Ops, b: Builtins, e: Id, c: Id, f: Id, o: OpIds, opcode: Bytes)
    requires Operation(t, k, ops, b, e, f, o, opcode) && NamesThere(t, b) && c < |t| && t[c] == OpCall(e, ops, f)
    requires c !in {f, o.parameter, o.text, o.emission, o.ret, b.indicateReturn, b.returnRegister}
    ensures Callable(t, c) && Callee(t, c) == f && Marked(t, c) && Inlinable(t, c, f, OpKids(o), b) && Args(t, c) == [ops.u64]
    ensures t[c].links.call.Some? && t[c].links.inputs == Some([ops.u64])
  {
    assert t[f].links.alias.None? && t[f].links.typeOf.Some? && f < |t| && t[f].block.Some? by { hide NamesApart, OpFunction; }
    OperationShape(t, k, ops, b, e, f, o, opcode);
    hide *;
    OpCallParts(e, ops, f);
    OpCallMarked(t, c, f);
    NamesKeyed(t, b);
    InlinableIntro(t, c, f, OpKids(o), b, ops.u64, o.parameter);
  }

  lemma {:induction false} OpCallParts(e: Id, ops: Ops, f: Id)
    ensures var x := OpCall(e, ops, f);
            x.block.None? && x.links.call == Some(f) && x.links.inputs == Some([ops.u64]) && Flag.Inline in x.data.flags
  {}

  lemma {:induction false} OpCallMarked(t: Store, c: Id, f: Id)
    requires c < |t| && t[c].links.call == Some(f) && Flag.Inline in t[c].data.flags
    requires f < |t| && t[f].links.alias.None? && t[f].links.typeOf.Some?
    ensures Callable(t, c) && Callee(t, c) == f && Marked(t, c)
  {
    assert ResolveIn(t, f, |t|) == Some(f);
  }

  lemma {:induction false} NamesKeyed(t: Store, b: Builtins)
    requires NamesThere(t, b)
    ensures Keyed(ReturnPairs(b), |t|) && b.indicateReturn < |t| && b.returnRegister < |t|
  {}

  lemma {:induction false} InlinableIntro(t: Store, c: Id, f: Id, kids: Forest, b: Builtins, u64: Id, parameter: Id)
    requires c < |t| && f < |t| && t[c].block.None? && t[c].links.inputs == Some([u64]) && t[f].block.Some?
    requires Rep(t, Cons(f, kids, Nil)) && NoDup(Cons(f, kids, Nil)) && Parents(t, kids, f) && c !in Ids(Cons(f, kids, Nil))
    requires ParamIn(t, Children(t, f), 0) == Some(parameter)
    requires b.indicateReturn < |t| && b.returnRegister < |t| && c != b.indicateReturn && c != b.returnRegister && Keyed(ReturnPairs(b), |t|)
    ensures Inlinable(t, c, f, kids, b) && Args(t, c) == [u64]
  {
    hide Rep, NoDup, Parents, Ids, ParamIn, Keyed;
  }

  lemma {:induction false} OpCallExpanded(t: Store, u: Store, k: D.Emitters, ops: Ops, b: Builtins, e: Id, c: Id, f: Id, o: OpIds, opcode: Bytes, p: Plan)
    requires Operation(t, k, ops, b, e, f, o, opcode) && c < |t| && Callee(t, c) == f && Args(t, c) == [ops.u64]
    requires t[c].links.call.Some? && t[c].links.inputs == Some([ops.u64])
    requires p.e == c && PlanFor(t, p, OpKids(o), b) && Inlined(t, u, p)
    ensures OpExpanded(t, u, k, b, c, p, o, opcode, ops.u64) && NamesApart(k, ops, b, o)
  {
    OperationShape(t, k, ops, b, e, f, o, opcode);
    hide NamesApart, OpFunction, Rep, NoDup, Parents, Ids, Inlined;
    assert p.params == [p.params[0]] && p.params[0] == o.parameter;
  }

  /**
   For every register below 2^16 and immediate below 2^32 a load becomes sixteen bytes: those of the operation that
   belongs to the called function, the register in two, the immediate in four, low byte first, and two zeros.
   */
  method LoadIsSixteenBytes(mod: Module, e: Id, ops: Ops, b: Builtins, ghost k: D.Emitters, ghost mods: set<Id>,
                            ghost lower: OpIds, ghost lowerCode: Bytes, ghost upper: OpIds, ghost upperCode: Bytes)
    returns (fault: Option<LoadFault>, ghost f: Forest)
    requires e != INVALID && PlainLoad(mod.ents, ops, e) && NamesThere(mod.ents, b)
    requires mod.ents[e].links.call in {Some(ops.loadImmediate), Some(ops.loadUpperImmediate)}
    requires mod.ents[e].links.inputs.Some? && |mod.ents[e].links.inputs.value| == 2
    requires Resolve(mod.ents, mod.ents[e].links.inputs.value[0]).Some? && Resolve(mod.ents, mod.ents[e].links.inputs.value[1]).Some?
    requires var constant := Resolve(mod.ents, mod.ents[e].links.inputs.value[1]).value;
             constant < |mod.ents| && mod.ents[constant].data.number.Some? && mod.ents[constant].data.register.Some?
    requires Operation(mod.ents, k, ops, b, e, ops.loadImmediateOp, lower, lowerCode) && |lowerCode| == 8
    requires Operation(mod.ents, k, ops, b, e, ops.loadUpperImmediateOp, upper, upperCode) && |upperCode| == 8
    modifies mod
    ensures fault == None && Rep(mod.ents, Cons(e, f, Nil)) && INVALID !in Ids(Cons(e, f, Nil))
    ensures var s, run := old(mod.ents), D.Dumped(mod.ents, k, mods, Cons(e, f, Nil), false, []);
            var constant := s[Resolve(s, s[e].links.inputs.value[1]).value].data;
            var opcode := if s[e].links.call == Some(ops.loadImmediate) then lowerCode else upperCode;
            && run.Ok? && |run.value.1| == 16
            && run.value.1 == opcode + RegisterBytes(constant.register.value) + LittleEndian(constant.number.value % 0x1_0000_0000) + [0, 0]
  {
    hide *;
    ghost var s := mod.ents;
    LoadReady(s, ops, e);
    ghost var constant := s[Resolve(s, s[e].links.inputs.value[1]).value].data;
    ghost var r, v := constant.register.value, constant.number.value % 0x1_0000_0000;
    ghost var lowerCall := s[e].links.call == Some(ops.loadImmediate);
    ghost var op := if lowerCall then ops.loadImmediateOp else ops.loadUpperImmediateOp;
    ghost var o := if lowerCall then lower else upper;
    ghost var opcode := if lowerCall then lowerCode else upperCode;
    fault := MaterializeImmediates(mod, e, ops);
    ghost var t := mod.ents;
    LoadMade(s, t, ops, e, r, v, op);
    var call := mod.ents[e].block.value[0];
    OperationKept(s, t, k, ops, b, e, op, o, opcode);
    NamesKept(s, t, ops, b, e, op, o, opcode, k);
    OpCallInlinable(t, k, ops, b, e, call, op, o, opcode);
    ghost var p := InlineFunctions(mod, call, b, OpKids(o));
    OpCallExpanded(t, mod.ents, k, ops, b, e, call, op, o, opcode, p);
    PlainParts(s, ops, e);
    f := LoadedBytes(s, t, mod.ents, k, mods, ops, b, e, p, o, opcode, r, v);
  }

  lemma {:induction false} LoadReady(s: Store, ops: Ops, e: Id)
    requires PlainLoad(s, ops, e) && s[e].links.call in {Some(ops.loadImmediate), Some(ops.loadUpperImmediate)}
    requires s[e].links.inputs.Some? && |s[e].links.inputs.value| == 2
    requires Resolve(s, s[e].links.inputs.value[0]).Some? && Resolve(s, s[e].links.inputs.value[1]).Some?
    ensures e < |s| && Loadable(s, ops, e) && Loads(s, ops, e) && Immediate(s, e) == Resolve(s, s[e].links.inputs.value[1])
  {
    hide Resolve;
  }

  lemma {:induction false} PlainParts(s: Store, ops: Ops, e: Id)
    requires PlainLoad(s, ops, e)
    ensures s[e].links.returnType.None? && s[e].links.typeOf.Some? && PlainType(s, s[e].links.typeOf.value) && s[e].links.typeOf.value != e
    ensures PlainType(s, ops.byteType) && ops.byteType != e && PlainType(s, ops.u64) && ops.u64 != e
  {}

  // The block that the load has become.
  lemma {:induction false} LoadMade(s: Store, t: Store, ops: Ops, e: Id, r: nat, v: nat, op: Id)
    requires Loaded(s, t, ops, e) && r == s[Immediate(s, e).value].data.register.value && v == s[Immediate(s, e).value].data.number.value % 0x1_0000_0000
    requires s[e].links.call in {Some(ops.loadImmediate), Some(ops.loadUpperImmediate)}
    requires op == if s[e].links.call == Some(ops.loadImmediate) then ops.loadImmediateOp else ops.loadUpperImmediateOp
    ensures LoadedWith(s, t, ops, e, r, v) && LoadOp(s, ops, e) == op
    ensures |s| < |t| && e < |t| && t[e].block.Some? && t[e].block.value != [] && t[e].block.value[0] == |s| && t[|s|] == OpCall(e, ops, op)
    ensures forall y {:trigger t[y]} :: 0 <= y < |s| && y != e ==> t[y] == s[y]
  {
    assert LoadedWith(s, t, ops, e, r, v) by { hide LoadedWith, Immediate; }
    hide LoadedWith, Immediate;
    LoadParts(s, t, ops, e, r, v);
    assert Range(|s|, 17)[0] == |s|;
  }

  lemma {:induction false} NamesKept(s: Store, t: Store, ops: Ops, b: Builtins, e: Id, f: Id, o: OpIds, opcode: Bytes, k: D.Emitters)
    requires NamesThere(s, b) && |s| < |t| && Operation(s, k, ops, b, e, f, o, opcode)
    ensures NamesThere(t, b) && b.indicateReturn < |s| && b.returnRegister < |s| && NamesApart(k, ops, b, o)
    ensures |s| !in {f, o.parameter, o.text, o.emission, o.ret, b.indicateReturn, b.returnRegister}
  {
    hide NamesApart;
  }
}
