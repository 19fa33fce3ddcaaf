/** The sixteen bytes of a load: materialize_immediates.hpp:50-94, inlined, against temp_byte_dumper.hpp:40-68. */
module LoadDump {
  import opened Wrappers
  import opened Store
  import opened Shapes
  import opened Copy
  import opened Builder
  import opened Inline
  import opened FunctionScope
  import D = Dump
  import opened Materialize

  // ---------- lists of leaves ----------

  function Leaves(xs: seq<Id>): Forest {
    if xs == [] then Nil else Cons(xs[0], Nil, Leaves(xs[1..]))
  }

  lemma {:induction false} LeavesShape(u: Store, xs: seq<Id>)
    requires forall i :: 0 <= i < |xs| ==> xs[i] < |u| && Children(u, xs[i]) == []
    ensures Roots(Leaves(xs)) == xs && Rep(u, Leaves(xs))
    ensures forall x :: x in Ids(Leaves(xs)) <==> x in xs
    decreases |xs|
  {
    if xs != [] { LeavesShape(u, xs[1..]); }
  }

  // An entity that is neither a block nor inside of a function.
  ghost predicate PlainLeaf(u: Store, mods: set<Id>, x: Id) {
    x < |u| && !HasBlock(u, x) && !FunctionLike(u, mods, x) && D.Typed(u, x)
  }

  // Defined before use, whatever was defined before.
  ghost predicate Always(u: Store, k: D.Emitters, mods: set<Id>, f: Forest) {
    forall seen {:trigger D.DefinedBeforeUse(u, k, mods, f, false, seen)} :: D.DefinedBeforeUse(u, k, mods, f, false, seen)
  }

  // `f` always means `bytes`.
  ghost predicate Means(u: Store, k: D.Emitters, mods: set<Id>, f: Forest, bytes: Bytes) {
    Always(u, k, mods, f) && D.Emitted(u, k, mods, f, false) == bytes
  }

  lemma {:induction false} NothingMeans(u: Store, k: D.Emitters, mods: set<Id>)
    ensures Means(u, k, mods, Nil, [])
  {}

  lemma {:induction false} EmittedLeaf(u: Store, k: D.Emitters, mods: set<Id>, x: Id, rest: Forest)
    requires !HasBlock(u, x)
    ensures D.Emitted(u, k, mods, Cons(x, Nil, rest), false) ==
            (if FunctionLike(u, mods, x) then [] else D.EmittedBy(u, k, x)) + D.Emitted(u, k, mods, rest, false)
  {
    hide FunctionLike, D.EmittedBy, HasBlock;
  }

  // A leaf that emits nothing.
  lemma {:induction false} SilentMeans(u: Store, k: D.Emitters, mods: set<Id>, x: Id, rest: Forest, bytes: Bytes)
    requires x < |u| && !HasBlock(u, x) && D.Typed(u, x) && !D.Emits(u, k, x) && Means(u, k, mods, rest, bytes)
    ensures Means(u, k, mods, Cons(x, Nil, rest), bytes)
  {
    hide FunctionLike, D.Defined, HasBlock, D.Emits, D.Typed;
    assert D.EmittedBy(u, k, x) == [];
    forall seen ensures D.DefinedBeforeUse(u, k, mods, Cons(x, Nil, rest), false, seen) {
      assert D.DefinedBeforeUse(u, k, mods, rest, false, seen + D.Defined(u, k, Cons(x, Nil, Nil)));
    }
  }

  // A value and the call that emits it right after.
  lemma {:induction false} EmissionMeans(u: Store, k: D.Emitters, mods: set<Id>, x: Id, y: Id, rest: Forest, bytes: Bytes)
    requires PlainLeaf(u, mods, y) && x < |u| && !HasBlock(u, x) && D.Typed(u, x) && !D.Emits(u, k, x) && Means(u, k, mods, rest, bytes)
    requires D.Emits(u, k, y) && D.Operand(u, y) == Some(x) && D.ValueOf(u, k, x).Some? && D.ValueOf(u, k, x) != Some([])
    ensures Means(u, k, mods, Cons(x, Nil, Cons(y, Nil, rest)), D.EmittedBy(u, k, y) + bytes)
  {
    hide FunctionLike, HasBlock, D.Emits, D.Typed, D.ValueOf, D.Operand;
    var tail := Cons(y, Nil, rest);
    assert D.EmittedBy(u, k, x) == [];
    assert x in D.Defined(u, k, Cons(x, Nil, Nil)) by { assert x in Ids(Cons(x, Nil, Nil)); }
    EmittedLeaf(u, k, mods, x, tail);
    EmittedLeaf(u, k, mods, y, rest);
    hide D.EmittedBy, D.Emitted;
    forall seen ensures D.DefinedBeforeUse(u, k, mods, Cons(x, Nil, tail), false, seen) {
      var now := seen + D.Defined(u, k, Cons(x, Nil, Nil));
      UseMeans(u, k, mods, y, rest, now);
    }
  }

  // A call that emits what was seen.
  lemma {:induction false} UseMeans(u: Store, k: D.Emitters, mods: set<Id>, y: Id, rest: Forest, seen: set<Id>)
    requires PlainLeaf(u, mods, y) && Always(u, k, mods, rest)
    requires D.Emits(u, k, y) && D.Operand(u, y).Some? && D.Operand(u, y).value in seen && D.ValueOf(u, k, D.Operand(u, y).value) != Some([])
    ensures D.DefinedBeforeUse(u, k, mods, Cons(y, Nil, rest), false, seen)
  {
    hide FunctionLike, HasBlock, D.Emits, D.Typed, D.ValueOf, D.Operand, D.Defined;
    assert D.OperandReady(u, k, y, seen + D.Defined(u, k, Cons(y, Nil, Nil)));
    assert D.DefinedBeforeUse(u, k, mods, rest, false, seen + D.Defined(u, k, Cons(y, Nil, Nil)));
  }

  // A value and two calls that emit it.
  lemma {:induction false} TwiceMeans(u: Store, k: D.Emitters, mods: set<Id>, x: Id, y: Id, z: Id, rest: Forest, bytes: Bytes)
    requires PlainLeaf(u, mods, y) && PlainLeaf(u, mods, z)
    requires x < |u| && !HasBlock(u, x) && D.Typed(u, x) && !D.Emits(u, k, x) && Means(u, k, mods, rest, bytes)
    requires D.Emits(u, k, y) && D.Operand(u, y) == Some(x) && D.Emits(u, k, z) && D.Operand(u, z) == Some(x)
    requires D.ValueOf(u, k, x).Some? && D.ValueOf(u, k, x) != Some([])
    ensures Means(u, k, mods, Cons(x, Nil, Cons(y, Nil, Cons(z, Nil, rest))), D.EmittedBy(u, k, y) + (D.EmittedBy(u, k, z) + bytes))
  {
    hide FunctionLike, HasBlock, D.Emits, D.Typed, D.ValueOf, D.Operand;
    var tail := Cons(y, Nil, Cons(z, Nil, rest));
    assert D.EmittedBy(u, k, x) == [];
    assert x in D.Defined(u, k, Cons(x, Nil, Nil)) by { assert x in Ids(Cons(x, Nil, Nil)); }
    EmittedLeaf(u, k, mods, x, tail);
    EmittedLeaf(u, k, mods, y, Cons(z, Nil, rest));
    EmittedLeaf(u, k, mods, z, rest);
    hide D.EmittedBy, D.Defined, D.Emitted;
    forall seen ensures D.DefinedBeforeUse(u, k, mods, Cons(x, Nil, tail), false, seen) {
      var now := seen + D.Defined(u, k, Cons(x, Nil, Nil));
      UseMeans(u, k, mods, z, rest, now + D.Defined(u, k, Cons(y, Nil, Nil)));
      assert D.OperandReady(u, k, y, now + D.Defined(u, k, Cons(y, Nil, Nil)));
      assert D.DefinedBeforeUse(u, k, mods, tail, false, now);
    }
  }

  // A block that is not a function.
  lemma {:induction false} BlockMeans(u: Store, k: D.Emitters, mods: set<Id>, x: Id, kids: Forest, rest: Forest, inner: Bytes, bytes: Bytes)
    requires HasBlock(u, x) && !FunctionLike(u, mods, x) && Means(u, k, mods, kids, inner) && Means(u, k, mods, rest, bytes)
    ensures Means(u, k, mods, Cons(x, kids, rest), inner + bytes)
  {
    hide FunctionLike, HasBlock, D.Defined;
    forall seen ensures D.DefinedBeforeUse(u, k, mods, Cons(x, kids, rest), false, seen) {
      assert D.DefinedBeforeUse(u, k, mods, kids, false, seen);
      assert D.DefinedBeforeUse(u, k, mods, rest, false, seen + D.Defined(u, k, kids));
    }
  }

  // ---------- types that are no functions ----------

  predicate PlainType(u: Store, ty: Id) {
    ty < |u| && u[ty].links.call.None? && u[ty].links.alias.None? && u[ty].links.returnType.None?
  }

  lemma {:induction false} PlainTyped(u: Store, mods: set<Id>, x: Id)
    requires x < |u| && u[x].links.returnType.None? && u[x].links.typeOf.Some? && PlainType(u, u[x].links.typeOf.value)
    ensures !FunctionLike(u, mods, x)
  {
    var ty := u[x].links.typeOf.value;
    assert ResolveIn(u, ty, |u|) == Some(ty);
    assert Unmodified(u, mods, ty, |u|) == Some(ty);
  }

  // ---------- the entities of a load ----------

  // `u` has the body of the load as it was built, but for the first call.
  ghost predicate Built(u: Store, e: Id, ops: Ops, op: Id, n: Id, r: nat, v: nat) {
    n + 17 <= |u| && u[n + 1..n + 17] == LoadBody(e, ops, op, n, r, v)[1..]
  }

  lemma {:induction false} NumberIs(u: Store, k: D.Emitters, x: Id, e: Id, ops: Ops, name: string, v: byte)
    requires x < |u| && u[x] == ByteNumber(e, ops, name, v) && k.byteType == ops.byteType
    ensures !HasBlock(u, x) && D.Typed(u, x) && !D.Emits(u, k, x) && D.ValueOf(u, k, x) == Some([v]) && Children(u, x) == []
  {}

  lemma {:induction false} EmitIs(u: Store, k: D.Emitters, mods: set<Id>, y: Id, e: Id, ops: Ops, x: Id)
    requires y < |u| && u[y] == EmitCall(e, ops, x) && k.emit == ops.emit && PlainType(u, ops.byteType)
    ensures PlainLeaf(u, mods, y) && D.Emits(u, k, y) && D.Operand(u, y) == Some(x) && Children(u, y) == []
    ensures D.ValueOf(u, k, x).Some? && D.ValueOf(u, k, x).value != [] ==> D.EmittedBy(u, k, y) == [D.ValueOf(u, k, x).value[0]]
  {
    PlainTyped(u, mods, y);
    hide FunctionLike, D.ValueOf;
  }

  // The pairs of numbers and calls mean their bytes.
  lemma {:induction false} EmissionsMean(u: Store, k: D.Emitters, mods: set<Id>, e: Id, ops: Ops, n: Id, names: seq<string>, vs: Bytes, tail: Forest, bytes: Bytes)
    returns (f: Forest)
    requires |names| == |vs| && n + 2 * |vs| <= |u|
    requires u[n..n + 2 * |vs|] == Emissions(e, ops, n, names, vs)
    requires k.byteType == ops.byteType && k.emit == ops.emit && PlainType(u, ops.byteType) && Means(u, k, mods, tail, bytes) && Rep(u, tail)
    ensures Means(u, k, mods, f, vs + bytes) && Rep(u, f) && Roots(f) == Range(n, 2 * |vs|) + Roots(tail)
    ensures INVALID !in Ids(tail) && n > 0 ==> INVALID !in Ids(f)
    decreases |vs|
  {
    if vs == [] {
      f := tail;
      assert vs + bytes == bytes && Range(n, 0) + Roots(tail) == Roots(tail);
    } else {
      hide Means, PlainLeaf, PlainType, D.ValueOf, D.EmittedBy, D.Emits, D.Operand, HasBlock, D.Typed, Emissions, ByteNumber, EmitCall, Rep, Roots, Ids, Children;
      EmissionsHead(u, e, ops, n, names, vs);
      var rest := EmissionsMean(u, k, mods, e, ops, n + 2, names[1..], vs[1..], tail, bytes);
      NumberIs(u, k, n, e, ops, names[0], vs[0]);
      EmitIs(u, k, mods, n + 1, e, ops, n);
      f := Cons(n, Nil, Cons(n + 1, Nil, rest));
      EmissionMeans(u, k, mods, n, n + 1, rest, vs[1..] + bytes);
      FirstByte(vs, bytes);
      RangePair(n, |vs|, Roots(tail));
      PairShape(u, n, rest);
    }
  }

  lemma {:induction false} FirstByte(vs: Bytes, bytes: Bytes)
    requires vs != []
    ensures [vs[0]] + (vs[1..] + bytes) == vs + bytes
  {}

  lemma {:induction false} RangePair(n: Id, m: nat, xs: seq<Id>)
    requires m > 0
    ensures [n, n + 1] + (Range(n + 2, 2 * (m - 1)) + xs) == Range(n, 2 * m) + xs
  {}

  lemma {:induction false} EmissionsHead(u: Store, e: Id, ops: Ops, n: Id, names: seq<string>, vs: Bytes)
    requires |names| == |vs| && vs != [] && n + 2 * |vs| <= |u| && u[n..n + 2 * |vs|] == Emissions(e, ops, n, names, vs)
    ensures u[n] == ByteNumber(e, ops, names[0], vs[0]) && u[n + 1] == EmitCall(e, ops, n)
    ensures u[n + 2..n + 2 + 2 * |vs[1..]|] == Emissions(e, ops, n + 2, names[1..], vs[1..])
  {
    var xs, m := Emissions(e, ops, n, names, vs), n + 2 * |vs|;
    assert u[n..m][0] == xs[0] && u[n..m][1] == xs[1] && u[n + 2..m] == u[n..m][2..];
    assert xs[2..] == Emissions(e, ops, n + 2, names[1..], vs[1..]);
  }

  lemma {:induction false} PairShape(u: Store, n: Id, rest: Forest)
    requires n + 1 < |u| && Children(u, n) == [] && Children(u, n + 1) == [] && Rep(u, rest)
    ensures var f := Cons(n, Nil, Cons(n + 1, Nil, rest));
            Rep(u, f) && Roots(f) == [n, n + 1] + Roots(rest) && Ids(f) == {n, n + 1} + Ids(rest)
  {
    assert Rep(u, Cons(n + 1, Nil, rest)) && Roots(Cons(n + 1, Nil, rest)) == [n + 1] + Roots(rest);
  }

  // ---------- the whole block ----------

  // The part after the numbers: zero, emitted twice, and the yield.
  lemma {:induction false} TailMeans(u: Store, k: D.Emitters, mods: set<Id>, e: Id, ops: Ops, n: Id, tail: seq<Entity>)
    requires tail == [ByteNumber(e, ops, "zero", 0), EmitCall(e, ops, n), EmitCall(e, ops, n), CallEntity(e, "_", ops.u64, ops.indicateYield, [ops.u64])]
    requires n + 4 <= |u| && u[n..n + 4] == tail && k.byteType == ops.byteType && k.emit == ops.emit && PlainType(u, ops.byteType)
    requires ops.indicateYield != k.emit && ops.indicateYield != k.emitBytes
    ensures var f := Leaves([n, n + 1, n + 2, n + 3]); Means(u, k, mods, f, [0, 0]) && Rep(u, f) && Roots(f) == [n, n + 1, n + 2, n + 3]
    ensures n > 0 ==> INVALID !in Ids(Leaves([n, n + 1, n + 2, n + 3]))
  {
    assert u[n] == tail[0] && u[n + 1] == tail[1] && u[n + 2] == tail[2] && u[n + 3] == tail[3] by {
      assert u[n..n + 4][0] == u[n] && u[n..n + 4][1] == u[n + 1] && u[n..n + 4][2] == u[n + 2] && u[n..n + 4][3] == u[n + 3];
    }
    NumberIs(u, k, n, e, ops, "zero", 0);
    EmitIs(u, k, mods, n + 1, e, ops, n);
    EmitIs(u, k, mods, n + 2, e, ops, n);
    NothingMeans(u, k, mods);
    assert !HasBlock(u, n + 3) && D.Typed(u, n + 3) && !D.Emits(u, k, n + 3) && Children(u, n + 3) == [];
    hide Means, PlainLeaf, D.ValueOf, D.EmittedBy, D.Emits, D.Operand, HasBlock, D.Typed, ByteNumber, EmitCall, PlainType, CallEntity;
    LeavesShape(u, [n, n + 1, n + 2, n + 3]);
    LeavesOf4(n);
    SilentMeans(u, k, mods, n + 3, Nil, []);
    TwiceMeans(u, k, mods, n, n + 1, n + 2, Cons(n + 3, Nil, Nil), []);
    assert [0] + ([0] + []) == [0, 0];
  }

  lemma {:induction false} LeavesOf4(n: Id)
    ensures Leaves([n, n + 1, n + 2, n + 3]) == Cons(n, Nil, Cons(n + 1, Nil, Cons(n + 2, Nil, Cons(n + 3, Nil, Nil))))
  {
    assert [n, n + 1, n + 2, n + 3][1..] == [n + 1, n + 2, n + 3] && [n + 1, n + 2, n + 3][1..] == [n + 2, n + 3] && [n + 2, n + 3][1..] == [n + 3];
    assert [n + 3][1..] == [] && Leaves([]) == Nil;
    assert Leaves([n + 3]) == Cons(n + 3, Nil, Nil);
    assert Leaves([n + 2, n + 3]) == Cons(n + 2, Nil, Leaves([n + 3]));
    assert Leaves([n + 1, n + 2, n + 3]) == Cons(n + 1, Nil, Leaves([n + 2, n + 3]));
  }

  // The inlined operation: an alias for the type, the opcode, the call that emits it, and a yield.
  ghost predicate OpInlined(u: Store, k: D.Emitters, c: Id, a: Id, opcode: Bytes) {
    && c < |u| && u[c].block == Some([a, a + 1, a + 2, a + 3]) && a + 4 <= |u|
    && (forall i :: a <= i < a + 4 ==> u[i].block.None?)
    && u[a].links.call.None? && D.Typed(u, a)
    && u[a + 1].links.call.None? && D.Typed(u, a + 1) && D.ValueOf(u, k, a + 1) == Some(opcode)
    && u[a + 2].links.call == Some(k.emitBytes) && u[a + 2].links.inputs == Some([a + 1]) && D.Typed(u, a + 2)
    && u[a + 3].links.call.Some? && !D.Emits(u, k, a + 3) && D.Typed(u, a + 3)
  }

  lemma {:induction false} OpMeans(u: Store, k: D.Emitters, mods: set<Id>, c: Id, a: Id, opcode: Bytes)
    requires OpInlined(u, k, c, a, opcode) && opcode != [] && !FunctionLike(u, mods, a + 2) && k.emit != k.emitBytes
    ensures var f := Leaves([a, a + 1, a + 2, a + 3]);
            Means(u, k, mods, f, opcode) && Rep(u, f) && Roots(f) == [a, a + 1, a + 2, a + 3] && (a > 0 ==> INVALID !in Ids(f))
  {
    hide Means, FunctionLike, D.ValueOf, D.Typed;
    NothingMeans(u, k, mods);
    LeavesShape(u, [a, a + 1, a + 2, a + 3]);
    LeavesOf4(a);
    SilentMeans(u, k, mods, a + 3, Nil, []);
    EmissionMeans(u, k, mods, a + 1, a + 2, Cons(a + 3, Nil, Nil), []);
    assert D.EmittedBy(u, k, a + 2) + [] == opcode;
    SilentMeans(u, k, mods, a, Cons(a + 1, Nil, Cons(a + 2, Nil, Cons(a + 3, Nil, Nil))), opcode);
  }

  // The block of the load, with its first call `n` inlined into the entities from `a` on.
  ghost predicate LoadInlined(u: Store, k: D.Emitters, mods: set<Id>, ops: Ops, e: Id, op: Id, n: Id, a: Id, r: nat, v: nat, opcode: Bytes) {
    && e < |u| && u[e].block == Some(Range(n, 17)) && !FunctionLike(u, mods, e)
    && Built(u, e, ops, op, n, r, v) && OpInlined(u, k, n, a, opcode) && !FunctionLike(u, mods, n) && !FunctionLike(u, mods, a + 2)
    && k.byteType == ops.byteType && k.emit == ops.emit && k.emit != k.emitBytes && PlainType(u, ops.byteType)
    && ops.indicateYield != k.emit && ops.indicateYield != k.emitBytes
  }

  /** The block of a load, its operation inlined, means its opcode, register and immediate, and two zeros. */
  lemma {:induction false} LoadMeans(u: Store, k: D.Emitters, mods: set<Id>, ops: Ops, e: Id, op: Id, n: Id, a: Id, r: nat, v: nat, opcode: Bytes)
    returns (f: Forest)
    requires LoadInlined(u, k, mods, ops, e, op, n, a, r, v, opcode) && opcode != []
    ensures Rep(u, Cons(e, f, Nil)) && (e > 0 && n > 0 && a > 0 ==> INVALID !in Ids(Cons(e, f, Nil)))
    ensures Means(u, k, mods, Cons(e, f, Nil), opcode + (LoadBytes(r, v) + [0, 0]))
  {
    hide Means, FunctionLike, OpInlined, PlainType, LoadBytes, Emissions, ByteNumber, EmitCall, CallEntity, OpCall;
    var body, bytes := LoadBody(e, ops, op, n, r, v), LoadBytes(r, v);
    BodyParts(u, e, ops, op, n, r, v);
    var tail := [ByteNumber(e, ops, "zero", 0), EmitCall(e, ops, n + 13), EmitCall(e, ops, n + 13), CallEntity(e, "_", ops.u64, ops.indicateYield, [ops.u64])];
    TailMeans(u, k, mods, e, ops, n + 13, tail);
    var g := EmissionsMean(u, k, mods, e, ops, n + 1, LABELS, bytes, Leaves([n + 13, n + 14, n + 15, n + 16]), [0, 0]);
    OpMeans(u, k, mods, n, a, opcode);
    var inner := Leaves([a, a + 1, a + 2, a + 3]);
    BlockHere(u, k, n, a, opcode);
    f := Cons(n, inner, g);
    hide *;
    LoadComposed(u, k, mods, e, n, a, inner, g, opcode, bytes + [0, 0]);
  }

  lemma {:induction false} LoadComposed(u: Store, k: D.Emitters, mods: set<Id>, e: Id, n: Id, a: Id, inner: Forest, g: Forest, opcode: Bytes, bytes: Bytes)
    requires e < |u| && u[e].block == Some(Range(n, 17)) && !FunctionLike(u, mods, e) && !FunctionLike(u, mods, n)
    requires n < |u| && HasBlock(u, n) && Children(u, n) == [a, a + 1, a + 2, a + 3] && Roots(inner) == [a, a + 1, a + 2, a + 3]
    requires Rep(u, inner) && Rep(u, g) && Roots(g) == Range(n + 1, 12) + [n + 13, n + 14, n + 15, n + 16]
    requires Means(u, k, mods, inner, opcode) && Means(u, k, mods, g, bytes)
    ensures var f := Cons(n, inner, g);
            && Rep(u, Cons(e, f, Nil)) && Means(u, k, mods, Cons(e, f, Nil), opcode + bytes)
            && (e > 0 && n > 0 && INVALID !in Ids(inner) && INVALID !in Ids(g) ==> INVALID !in Ids(Cons(e, f, Nil)))
  {
    hide *;
    var f := Cons(n, inner, g);
    BlockMeans(u, k, mods, n, inner, g, opcode, bytes);
    LoadRoots(n, inner, g);
    NothingMeans(u, k, mods);
    LoadShape(u, e, n, inner, g);
    BlockMeans(u, k, mods, e, f, Nil, opcode + bytes, []);
    assert opcode + bytes + [] == opcode + bytes;
  }

  lemma {:induction false} LoadRoots(n: Id, inner: Forest, g: Forest)
    requires Roots(g) == Range(n + 1, 12) + [n + 13, n + 14, n + 15, n + 16]
    ensures Roots(Cons(n, inner, g)) == Range(n, 17)
  {
    RangeEnd(n + 1, 12);
    assert [n] + Range(n + 1, 16) == Range(n, 17);
  }

  lemma {:induction false} RangeEnd(lo: Id, n: nat)
    ensures Range(lo, n) + [lo + n, lo + n + 1, lo + n + 2, lo + n + 3] == Range(lo, n + 4)
  {}

  // The block of the load stands there with all that is below it.
  lemma {:induction false} LoadShape(u: Store, e: Id, n: Id, inner: Forest, g: Forest)
    requires e < |u| && u[e].block == Some(Roots(Cons(n, inner, g)))
    requires n < |u| && Children(u, n) == Roots(inner) && Rep(u, inner) && Rep(u, g)
    ensures var f := Cons(n, inner, g);
            && Rep(u, Cons(e, f, Nil)) && HasBlock(u, e) && Children(u, e) == Roots(f)
            && (e > 0 && n > 0 && INVALID !in Ids(inner) && INVALID !in Ids(g) ==> INVALID !in Ids(Cons(e, f, Nil)))
  {
    var f := Cons(n, inner, g);
    assert Rep(u, f);
    assert Rep(u, Cons(e, f, Nil));
  }

  lemma {:induction false} BlockHere(u: Store, k: D.Emitters, c: Id, a: Id, opcode: Bytes)
    requires OpInlined(u, k, c, a, opcode)
    ensures c < |u| && HasBlock(u, c) && Children(u, c) == [a, a + 1, a + 2, a + 3]
  {}

  lemma {:induction false} BodyParts(u: Store, e: Id, ops: Ops, op: Id, n: Id, r: nat, v: nat)
    requires Built(u, e, ops, op, n, r, v)
    ensures n + 17 <= |u| && u[n + 1..n + 1 + 2 * |LoadBytes(r, v)|] == Emissions(e, ops, n + 1, LABELS, LoadBytes(r, v))
    ensures u[n + 13..n + 17] == [ByteNumber(e, ops, "zero", 0), EmitCall(e, ops, n + 13), EmitCall(e, ops, n + 13),
                                  CallEntity(e, "_", ops.u64, ops.indicateYield, [ops.u64])]
  {
    var xs := Emissions(e, ops, n + 1, LABELS, LoadBytes(r, v));
    var tail := [ByteNumber(e, ops, "zero", 0), EmitCall(e, ops, n + 13), EmitCall(e, ops, n + 13), CallEntity(e, "_", ops.u64, ops.indicateYield, [ops.u64])];
    hide Emissions, LoadBytes, ByteNumber, EmitCall, CallEntity, OpCall;
    assert LoadBody(e, ops, op, n, r, v) == [OpCall(e, ops, op)] + xs + tail;
    assert ([OpCall(e, ops, op)] + xs + tail)[1..] == xs + tail;
    assert u[n + 1..n + 17] == xs + tail;
    assert u[n + 1..n + 13] == u[n + 1..n + 17][..12] && u[n + 13..n + 17] == u[n + 1..n + 17][12..];
  }

  // ---------- from the call to the bytes ----------

  // An operation as mizu.doir:43-52 writes them: a type parameter, the opcode, the call that emits it, the return.
  datatype OpIds = OpIds(parameter: Id, text: Id, emission: Id, ret: Id)

  function OpKids(o: OpIds): Forest {
    Cons(o.parameter, Nil, OpBody(o))
  }

  function OpBody(o: OpIds): Forest {
    Cons(o.text, Nil, Cons(o.emission, Nil, Cons(o.ret, Nil, Nil)))
  }

  predicate PlainOp(s: Store, x: Id) {
    x < |s| && s[x].data.param.None? && s[x].block.None? && s[x].links.typeOf.Some? && Valueless !in s[x].data.flags && s[x].data.number.None?
  }

  ghost predicate OpFunction(s: Store, k: D.Emitters, b: Builtins, o: OpIds, opcode: Bytes) {
    && o.parameter < |s| && s[o.parameter].data.param == Some(0)
    && PlainOp(s, o.text) && s[o.text].data.text == Some(opcode) && s[o.text].links.typeOf == Some(k.bytePointer)
    && PlainOp(s, o.emission) && s[o.emission].data.text.None? && s[o.emission].links.call == Some(k.emitBytes)
    && s[o.emission].links.inputs == Some([o.text]) && s[o.emission].links.typeOf == Some(k.byteType)
    && PlainOp(s, o.ret) && s[o.ret].data.text.None? && s[o.ret].links.call == Some(b.indicateReturn)
    && o.text != o.emission && o.text != o.ret && o.emission != o.ret
    && o.parameter != o.text && o.parameter != o.emission && o.parameter != o.ret
  }

  // The builtins are not what is rewritten, and none of them is part of the operation.
  predicate Outside(b: Builtins, o: OpIds, x: Id) {
    x != o.parameter && x != o.text && x != o.emission && x != o.ret && x != b.indicateReturn && x != b.returnRegister
  }

  ghost predicate NamesApart(k: D.Emitters, ops: Ops, b: Builtins, o: OpIds) {
    && Outside(b, o, k.byteType) && Outside(b, o, k.bytePointer) && Outside(b, o, k.emit) && Outside(b, o, k.emitBytes) && Outside(b, o, ops.u64)
    && b.indicateReturn != o.parameter && b.indicateReturn != o.text && b.indicateReturn != o.emission && b.indicateReturn != o.ret
    && b.returnRegister != o.text
    && k.byteType == ops.byteType && k.emit == ops.emit && k.emit != k.emitBytes
    && b.indicateYield == ops.indicateYield && ops.indicateYield != k.emit && ops.indicateYield != k.emitBytes
  }

  lemma {:induction false} OpForest(o: OpIds)
    ensures Roots(OpBody(o)) == [o.text, o.emission, o.ret] && Pre(OpBody(o)) == [o.text, o.emission, o.ret]
    ensures Ids(OpBody(o)) == {o.text, o.emission, o.ret} && Size(OpBody(o)) == 3
  {
    var h := Cons(o.ret, Nil, Nil);
    var g := Cons(o.emission, Nil, h);
    assert Roots(h) == [o.ret] && Pre(h) == [o.ret] && Ids(h) == {o.ret} && Size(h) == 1;
    assert Roots(g) == [o.emission, o.ret] && Pre(g) == [o.emission, o.ret] && Ids(g) == {o.emission, o.ret} && Size(g) == 2;
  }

  lemma {:induction false} OpSelected(s: Store, k: D.Emitters, b: Builtins, o: OpIds, opcode: Bytes)
    requires OpFunction(s, k, b, o, opcode)
    ensures Selected(s, OpKids(o), true) == OpBody(o)
  {
    var h := Cons(o.ret, Nil, Nil);
    assert Selected(s, h, true) == h;
    assert Selected(s, Cons(o.emission, Nil, h), true) == Cons(o.emission, Nil, h);
    assert Selected(s, OpBody(o), true) == OpBody(o);
  }

  // The expansion of the operation's call `c` in the block of a load.
  ghost predicate OpExpanded(s: Store, u: Store, k: D.Emitters, b: Builtins, c: Id, p: Plan, o: OpIds, opcode: Bytes, u64: Id) {
    && c < |s| && p.e == c && OpFunction(s, k, b, o, opcode) && PlanFor(s, p, OpKids(o), b) && Inlined(s, u, p)
    && s[c].links.call.Some? && s[c].links.inputs == Some([u64]) && p.params == [o.parameter]
  }

  // Where a reference of the operation's goes: nowhere else, unless it is part of what is copied or rewritten.
  lemma {:induction false} RefsStay(s: Store, u: Store, k: D.Emitters, b: Builtins, c: Id, p: Plan, o: OpIds, opcode: Bytes, u64: Id, x: Id)
    requires OpExpanded(s, u, k, b, c, p, o, opcode, u64) && p.body == OpBody(o) && Outside(b, o, x)
    ensures Sub(p.subs, x) == x && Sub(p.par, x) == x && Sub(p.ret, x) == x
  {
    OpForest(o);
    hide OpFunction;
    assert x !in p.params;
  }

  lemma {:induction false} CopiesAt(s: Store, u: Store, k: D.Emitters, b: Builtins, c: Id, p: Plan, o: OpIds, opcode: Bytes, u64: Id)
    requires OpExpanded(s, u, k, b, c, p, o, opcode, u64) && p.body == OpBody(o)
    ensures |u| == |s| + 4 && p.args == [u64]
    ensures Sub(p.subs, o.text) == |s| + 1 && Sub(p.subs, o.emission) == |s| + 2 && Sub(p.subs, o.ret) == |s| + 3
    ensures u[c].block == Some([|s|, |s| + 1, |s| + 2, |s| + 3])
    ensures u[c].links == SubstLinks(p.ret, SubstLinks(p.par, CallStripped(s[c].links)))
    ensures u[|s|] == AliasEntity(c, ArgName(s, o.parameter, 0), Sub(p.ret, Sub(p.par, u64)))
    ensures forall y {:trigger u[y]} :: 0 <= y < |s| && y != c ==> u[y] == s[y]
    ensures forall x {:trigger Sub(p.subs, x)} :: x == o.text || x == o.emission || x == o.ret ==>
              x < |s| && Sub(p.subs, x) < |u| && u[Sub(p.subs, x)].block == SubOptIds(p.subs, s[x].block)
              && u[Sub(p.subs, x)].links == CopyLinksOf(s, p, x) && u[Sub(p.subs, x)].data == CopyData(s[x])
  {
    OpForest(o);
    hide OpFunction, CopyLinksOf, CopyData, ArgName;
    var pre := Pre(p.body);
    assert pre[0] == o.text && pre[1] == o.emission && pre[2] == o.ret;
    assert p.args[0] == u64;
    assert SubIds(p.subs, [o.text, o.emission, o.ret]) == [|s| + 1, |s| + 2, |s| + 3];
    assert Range(|s|, 1) + [|s| + 1, |s| + 2, |s| + 3] == [|s|, |s| + 1, |s| + 2, |s| + 3];
    assert o.text in Ids(p.body) && o.emission in Ids(p.body) && o.ret in Ids(p.body);
  }

  lemma {:induction false} TextCopied(s: Store, u: Store, k: D.Emitters, ops: Ops, b: Builtins, c: Id, p: Plan, o: OpIds, opcode: Bytes, u64: Id)
    requires OpExpanded(s, u, k, b, c, p, o, opcode, u64) && p.body == OpBody(o) && NamesApart(k, ops, b, o)
    ensures var y := |s| + 1; y < |u| && u[y].block.None? && u[y].links.call.None? && D.Typed(u, y) && D.ValueOf(u, k, y) == Some(opcode)
  {
    CopiesAt(s, u, k, b, c, p, o, opcode, u64);
    RefsStay(s, u, k, b, c, p, o, opcode, u64, k.bytePointer);
    OpForest(o);
    var x := o.text;
    assert Sub(p.subs, x) == |s| + 1;
    assert CopyLinks(s[x], p.subs).typeOf == Some(k.bytePointer) && CopyLinks(s[x], p.subs).call.None?;
    hide OpExpanded, NamesApart;
  }

  lemma {:induction false} EmissionCopied(s: Store, u: Store, k: D.Emitters, ops: Ops, b: Builtins, c: Id, p: Plan, o: OpIds, opcode: Bytes, u64: Id)
    requires OpExpanded(s, u, k, b, c, p, o, opcode, u64) && p.body == OpBody(o) && NamesApart(k, ops, b, o)
    requires |s| > b.indicateReturn && |s| > b.returnRegister
    ensures var y := |s| + 2;
            && y < |u| && u[y].block.None? && u[y].links.call == Some(k.emitBytes) && u[y].links.inputs == Some([|s| + 1]) && D.Typed(u, y)
            && u[y].links.typeOf == Some(k.byteType) && u[y].links.returnType.None?
  {
    CopiesAt(s, u, k, b, c, p, o, opcode, u64);
    EmissionLinked(s, u, k, ops, b, c, p, o, opcode, u64);
    EmissionStays(s, u, k, ops, b, c, p, o, opcode, u64);
    hide OpExpanded, NamesApart, CopyLinks, SubstLinks;
    assert Sub(p.subs, o.emission) == |s| + 2;
  }

  function TypedCall(ty: Id, fn: Id, x: Id): Links {
    NO_LINKS.(typeOf := Some(ty), call := Some(fn), inputs := Some([x]))
  }

  lemma {:induction false} EmissionLinked(s: Store, u: Store, k: D.Emitters, ops: Ops, b: Builtins, c: Id, p: Plan, o: OpIds, opcode: Bytes, u64: Id)
    requires OpExpanded(s, u, k, b, c, p, o, opcode, u64) && p.body == OpBody(o) && NamesApart(k, ops, b, o)
    ensures o.emission < |s| && s[o.emission].block.None? && CopyLinks(s[o.emission], p.subs) == TypedCall(k.byteType, k.emitBytes, |s| + 1)
  {
    CopiesAt(s, u, k, b, c, p, o, opcode, u64);
    RefsStay(s, u, k, b, c, p, o, opcode, u64, k.byteType);
    RefsStay(s, u, k, b, c, p, o, opcode, u64, k.emitBytes);
    hide PlanFor, Inlined;
    assert Sub(p.subs, o.text) == |s| + 1;
    assert SubIds(p.subs, [o.text]) == [|s| + 1];
  }

  lemma {:induction false} EmissionStays(s: Store, u: Store, k: D.Emitters, ops: Ops, b: Builtins, c: Id, p: Plan, o: OpIds, opcode: Bytes, u64: Id)
    requires OpExpanded(s, u, k, b, c, p, o, opcode, u64) && p.body == OpBody(o) && NamesApart(k, ops, b, o)
    requires |s| > b.indicateReturn && |s| > b.returnRegister
    ensures var links := TypedCall(k.byteType, k.emitBytes, |s| + 1);
            SubstLinks(p.par, links) == links && SubstLinks(p.ret, links) == links
  {
    RefsStay(s, u, k, b, c, p, o, opcode, u64, k.byteType);
    RefsStay(s, u, k, b, c, p, o, opcode, u64, k.emitBytes);
    NewStay(s, p, k, b, o, opcode, |s| + 1);
    LinksStay(p.par, k.byteType, k.emitBytes, |s| + 1);
    LinksStay(p.ret, k.byteType, k.emitBytes, |s| + 1);
  }

  lemma {:induction false} LinksStay(m: Renaming, ty: Id, fn: Id, x: Id)
    requires Sub(m, ty) == ty && Sub(m, fn) == fn && Sub(m, x) == x
    ensures SubstLinks(m, TypedCall(ty, fn, x)) == TypedCall(ty, fn, x)
  {
    assert SubIds(m, [x]) == [x];
  }

  lemma {:induction false} NewStay(s: Store, p: Plan, k: D.Emitters, b: Builtins, o: OpIds, opcode: Bytes, x: Id)
    requires PlanFor(s, p, OpKids(o), b) && OpFunction(s, k, b, o, opcode) && x >= |s| && |s| > b.indicateReturn && |s| > b.returnRegister && p.params == [o.parameter]
    ensures Sub(p.par, x) == x && Sub(p.ret, x) == x
  {
    assert x !in p.params;
  }

  lemma {:induction false} ReturnCopied(s: Store, u: Store, k: D.Emitters, ops: Ops, b: Builtins, c: Id, p: Plan, o: OpIds, opcode: Bytes, u64: Id)
    requires OpExpanded(s, u, k, b, c, p, o, opcode, u64) && p.body == OpBody(o) && NamesApart(k, ops, b, o)
    ensures var y := |s| + 3; y < |u| && u[y].block.None? && u[y].links.call == Some(ops.indicateYield) && D.Typed(u, y)
  {
    CopiesAt(s, u, k, b, c, p, o, opcode, u64);
    OpForest(o);
    var x := o.ret;
    assert Sub(p.subs, x) == |s| + 3;
    assert Sub(p.subs, b.indicateReturn) == b.indicateReturn && Sub(p.ret, b.indicateReturn) == b.indicateYield by { hide OpFunction; }
    assert Sub(p.par, b.indicateReturn) == b.indicateReturn by { hide OpFunction; assert b.indicateReturn !in p.params; }
    assert CopyLinks(s[x], p.subs).call == Some(b.indicateReturn) && CopyLinks(s[x], p.subs).typeOf.Some?;
    hide OpExpanded, NamesApart;
  }

  lemma {:induction false} OpIsInlined(s: Store, u: Store, k: D.Emitters, ops: Ops, b: Builtins, c: Id, p: Plan, o: OpIds, opcode: Bytes, u64: Id)
    requires OpExpanded(s, u, k, b, c, p, o, opcode, u64) && p.body == OpBody(o) && NamesApart(k, ops, b, o)
    requires |s| > b.indicateReturn && |s| > b.returnRegister
    ensures OpInlined(u, k, c, |s|, opcode) && u[|s| + 2].links.typeOf == Some(k.byteType) && u[|s| + 2].links.returnType.None?
  {
    NamesFacts(k, ops, b, o);
    hide *;
    ExpandedHere(s, u, k, b, c, p, o, opcode, u64);
    TextCopied(s, u, k, ops, b, c, p, o, opcode, u64);
    EmissionCopied(s, u, k, ops, b, c, p, o, opcode, u64);
    ReturnCopied(s, u, k, ops, b, c, p, o, opcode, u64);
    OpInlinedIntro(u, k, c, |s|, opcode);
  }

  // The block that the call has become, and the alias that is its first child.
  lemma {:induction false} ExpandedHere(s: Store, u: Store, k: D.Emitters, b: Builtins, c: Id, p: Plan, o: OpIds, opcode: Bytes, u64: Id)
    requires OpExpanded(s, u, k, b, c, p, o, opcode, u64) && p.body == OpBody(o)
    ensures c < |s| && |u| == |s| + 4 && u[c].block == Some([|s|, |s| + 1, |s| + 2, |s| + 3])
    ensures u[|s|].links.call.None? && u[|s|].block.None? && u[|s|].data.number.None? && u[|s|].data.text.None?
  {
    CopiesAt(s, u, k, b, c, p, o, opcode, u64);
    AliasIsPlain(c, ArgName(s, o.parameter, 0), Sub(p.ret, Sub(p.par, u64)));
    hide PlanFor, Inlined, OpFunction, ArgName, AliasEntity;
  }

  lemma {:induction false} NamesFacts(k: D.Emitters, ops: Ops, b: Builtins, o: OpIds)
    requires NamesApart(k, ops, b, o)
    ensures ops.indicateYield != k.emit && ops.indicateYield != k.emitBytes
    ensures Outside(b, o, ops.u64) && k.byteType == ops.byteType && k.emit == ops.emit && k.emit != k.emitBytes
  {
    hide Outside;
  }

  lemma {:induction false} AliasIsPlain(c: Id, name: string, r: Id)
    ensures var x := AliasEntity(c, name, r); x.links.call.None? && x.block.None? && x.data.number.None? && x.data.text.None?
  {}

  lemma {:induction false} OpInlinedIntro(u: Store, k: D.Emitters, c: Id, a: Id, opcode: Bytes)
    requires a + 4 <= |u| && c < |u| && u[c].block == Some([a, a + 1, a + 2, a + 3])
    requires u[a].links.call.None? && u[a].block.None? && u[a].data.number.None? && u[a].data.text.None?
    requires u[a + 1].block.None? && u[a + 1].links.call.None? && D.Typed(u, a + 1) && D.ValueOf(u, k, a + 1) == Some(opcode)
    requires u[a + 2].block.None? && u[a + 2].links.call == Some(k.emitBytes) && u[a + 2].links.inputs == Some([a + 1]) && D.Typed(u, a + 2)
    requires u[a + 3].block.None? && u[a + 3].links.call.Some? && u[a + 3].links.call.value != k.emit && u[a + 3].links.call.value != k.emitBytes && D.Typed(u, a + 3)
    ensures OpInlined(u, k, c, a, opcode)
  {
    hide D.ValueOf;
  }

  // What the load's own entities are, before and after the expansion.
  lemma {:induction false} LoadParts(s: Store, t: Store, ops: Ops, e: Id, r: nat, v: nat)
    requires e < |s| && LoadedWith(s, t, ops, e, r, v)
    ensures |t| == |s| + 17 && t[e].block == Some(Range(|s|, 17)) && t[e].links == Opened(s[e]).links
    ensures t[|s|..] == LoadBody(e, ops, LoadOp(s, ops, e), |s|, r, v)
    ensures t[|s|] == OpCall(e, ops, LoadOp(s, ops, e))
    ensures forall y {:trigger t[y]} :: 0 <= y < |s| && y != e ==> t[y] == s[y]
  {
    hide Emissions;
    var body := LoadBody(e, ops, LoadOp(s, ops, e), |s|, r, v);
    assert [] + Range(|s|, |body|) == Range(|s|, 17);
    assert t[|s|..][0] == t[|s|];
    assert ([OpCall(e, ops, LoadOp(s, ops, e))] + Emissions(e, ops, |s| + 1, LABELS, LoadBytes(r, v)))[0] == OpCall(e, ops, LoadOp(s, ops, e));
  }

  lemma {:induction false} LoadIsInlined(s: Store, t: Store, u: Store, k: D.Emitters, mods: set<Id>, ops: Ops, b: Builtins, e: Id, p: Plan, o: OpIds, opcode: Bytes, r: nat, v: nat)
    requires e < |s| && LoadedWith(s, t, ops, e, r, v) && OpExpanded(t, u, k, b, |s|, p, o, opcode, ops.u64) && p.body == OpBody(o)
    requires NamesApart(k, ops, b, o) && |s| > b.indicateReturn && |s| > b.returnRegister
    requires s[e].links.returnType.None? && s[e].links.typeOf.Some? && PlainType(s, s[e].links.typeOf.value) && s[e].links.typeOf.value != e
    requires PlainType(s, ops.byteType) && ops.byteType != e && PlainType(s, ops.u64) && ops.u64 != e
    ensures LoadInlined(u, k, mods, ops, e, LoadOp(s, ops, e), |s|, |t|, r, v, opcode)
  {
    hide *;
    LoadParts(s, t, ops, e, r, v);
    OpIsInlined(t, u, k, ops, b, |s|, p, o, opcode, ops.u64);
    CopiesAt(t, u, k, b, |s|, p, o, opcode, ops.u64);
    NamesFacts(k, ops, b, o);
    RefsStay(t, u, k, b, |s|, p, o, opcode, ops.u64, ops.u64);
    OpBlockTyped(t, u, ops, |s|, p, e, LoadOp(s, ops, e));
    BodyKept(t, u, |s|);
    LoadTyped(s, t, u, mods, e, s[e].links.typeOf.value);
    LoadPlain(s, t, u, e, ops.byteType);
    LoadPlain(s, t, u, e, ops.u64);
    PlainTyped(u, mods, |s|);
    PlainTyped(u, mods, |t| + 2);
    LoadInlinedIntro(u, k, mods, ops, e, LoadOp(s, ops, e), |s|, |t|, r, v, opcode);
  }

  lemma {:induction false} LoadPlain(s: Store, t: Store, u: Store, e: Id, ty: Id)
    requires PlainType(s, ty) && ty != e && |s| < |t| <= |u|
    requires forall y {:trigger t[y]} :: 0 <= y < |s| && y != e ==> t[y] == s[y]
    requires forall y {:trigger u[y]} :: 0 <= y < |t| && y != |s| ==> u[y] == t[y]
    ensures PlainType(u, ty)
  {
    assert u[ty] == t[ty] == s[ty];
  }

  lemma {:induction false} LoadTyped(s: Store, t: Store, u: Store, mods: set<Id>, e: Id, ty: Id)
    requires PlainType(s, ty) && ty != e && e < |s| < |t| <= |u| && s[e].links.returnType.None? && s[e].links.typeOf == Some(ty)
    requires t[e].links == Opened(s[e]).links
    requires forall y {:trigger t[y]} :: 0 <= y < |s| && y != e ==> t[y] == s[y]
    requires forall y {:trigger u[y]} :: 0 <= y < |t| && y != |s| ==> u[y] == t[y]
    ensures u[e] == t[e] && !FunctionLike(u, mods, e)
  {
    LoadPlain(s, t, u, e, ty);
    assert u[e] == t[e];
    PlainTyped(u, mods, e);
  }

  lemma {:induction false} LoadInlinedIntro(u: Store, k: D.Emitters, mods: set<Id>, ops: Ops, e: Id, op: Id, n: Id, a: Id, r: nat, v: nat, opcode: Bytes)
    requires e < |u| && u[e].block == Some(Range(n, 17)) && !FunctionLike(u, mods, e)
    requires n + 17 <= |u| && u[n + 1..n + 17] == LoadBody(e, ops, op, n, r, v)[1..]
    requires OpInlined(u, k, n, a, opcode) && !FunctionLike(u, mods, n) && !FunctionLike(u, mods, a + 2)
    requires k.byteType == ops.byteType && k.emit == ops.emit && k.emit != k.emitBytes && PlainType(u, ops.byteType)
    requires ops.indicateYield != k.emit && ops.indicateYield != k.emitBytes
    ensures LoadInlined(u, k, mods, ops, e, op, n, a, r, v, opcode)
  {
    hide LoadBody, OpInlined, FunctionLike, PlainType;
  }

  lemma {:induction false} BodyKept(t: Store, u: Store, c: Id)
    requires |t| == c + 17 && |t| <= |u| && forall y {:trigger u[y]} :: 0 <= y < |t| && y != c ==> u[y] == t[y]
    ensures u[c + 1..c + 17] == t[c..][1..]
  {
    assert forall i :: c + 1 <= i < c + 17 ==> u[i] == t[i];
  }

  lemma {:induction false} OpBlockTyped(t: Store, u: Store, ops: Ops, c: Id, p: Plan, e: Id, op: Id)
    requires c < |t| && c < |u| && t[c] == OpCall(e, ops, op) && u[c].links == SubstLinks(p.ret, SubstLinks(p.par, CallStripped(t[c].links)))
    requires Sub(p.par, ops.u64) == ops.u64 && Sub(p.ret, ops.u64) == ops.u64
    ensures u[c].links.typeOf == Some(ops.u64) && u[c].links.returnType.None?
  {}

  /**
   The bytes of a load: for every register below 2^16 and immediate below 2^32 the block built for the call,
   once its operation is inlined, is dumped as exactly sixteen bytes.  They are the eight bytes of the
   operation, the register in two and the immediate in four, low byte first, and two zeros.
   */
  lemma {:induction false} LoadedBytes(s: Store, t: Store, u: Store, k: D.Emitters, mods: set<Id>, ops: Ops, b: Builtins, e: Id, p: Plan, o: OpIds,
                                       opcode: Bytes, r: nat, v: nat)
    returns (f: Forest)
    requires e != INVALID && e < |s| && LoadedWith(s, t, ops, e, r, v) && OpExpanded(t, u, k, b, |s|, p, o, opcode, ops.u64)
    requires NamesApart(k, ops, b, o) && |s| > b.indicateReturn && |s| > b.returnRegister && |opcode| == 8
    requires s[e].links.returnType.None? && s[e].links.typeOf.Some? && PlainType(s, s[e].links.typeOf.value) && s[e].links.typeOf.value != e
    requires PlainType(s, ops.byteType) && ops.byteType != e && PlainType(s, ops.u64) && ops.u64 != e
    ensures Rep(u, Cons(e, f, Nil)) && INVALID !in Ids(Cons(e, f, Nil))
    ensures var run := D.Dumped(u, k, mods, Cons(e, f, Nil), false, []);
            run.Ok? && run.value.1 == opcode + RegisterBytes(r) + LittleEndian(v) + [0, 0] && |run.value.1| == 16
  {
    OpSelected(t, k, b, o, opcode);
    assert p.body == OpBody(o);
    LoadIsInlined(s, t, u, k, mods, ops, b, e, p, o, opcode, r, v);
    assert 0 < e < |s| <= |t| by { LoadParts(s, t, ops, e, r, v); }
    hide *;
    f := LoadMeans(u, k, mods, ops, e, LoadOp(s, ops, e), |s|, |t|, r, v, opcode);
    MeansDumped(u, k, mods, Cons(e, f, Nil), opcode + (LoadBytes(r, v) + [0, 0]));
    LoadSplit(opcode, r, v);
  }

  lemma {:induction false} LoadSplit(opcode: Bytes, r: nat, v: nat)
    ensures opcode + (LoadBytes(r, v) + [0, 0]) == opcode + RegisterBytes(r) + LittleEndian(v) + [0, 0]
    ensures |opcode + RegisterBytes(r) + LittleEndian(v) + [0, 0]| == |opcode| + 8
  {}

  lemma {:induction false} MeansDumped(u: Store, k: D.Emitters, mods: set<Id>, f: Forest, bytes: Bytes)
    requires Means(u, k, mods, f, bytes) && Rep(u, f) && INVALID !in Ids(f)
    ensures D.Dumped(u, k, mods, f, false, []).Ok? && D.Dumped(u, k, mods, f, false, []).value.1 == bytes
  {
    hide D.Emitted, D.DefinedBeforeUse, D.Dumped;
    D.DumperEmitsMeaning(u, k, mods, f, false, [], {});
  }

  // ---------- reading the bytes back ----------

  function DecodeRegister(bytes: Bytes): nat
    requires |bytes| == 16
  {
    bytes[8] as int + 256 * bytes[9] as int
  }

  function DecodeImmediate(bytes: Bytes): nat
    requires |bytes| == 16
  {
    bytes[10] as int + 256 * (bytes[11] as int + 256 * (bytes[12] as int + 256 * bytes[13] as int))
  }

  /** Nothing is lost: decoding gives back the register and the immediate. */
  lemma {:induction false} LoadDecodes(opcode: Bytes, r: nat, v: nat)
    requires |opcode| == 8 && r < 0x1_0000 && v < 0x1_0000_0000
    ensures var bytes := opcode + RegisterBytes(r) + LittleEndian(v) + [0, 0];
            |bytes| == 16 && DecodeRegister(bytes) == r && DecodeImmediate(bytes) == v && bytes[..8] == opcode
  {
    var bytes := opcode + RegisterBytes(r) + LittleEndian(v) + [0, 0];
    DigitsOf(v);
    assert bytes[..8] == opcode;
    assert bytes[8] == r % 256 && bytes[9] == r / 256 % 256;
    assert bytes[10] == LittleEndian(v)[0] && bytes[11] == LittleEndian(v)[1] && bytes[12] == LittleEndian(v)[2] && bytes[13] == LittleEndian(v)[3];
  }

  lemma {:induction false} DigitsOf(v: nat)
    requires v < 0x1_0000_0000
    ensures v == v % 256 + 256 * (v / 0x100 % 256 + 256 * (v / 0x1_0000 % 256 + 256 * (v / 0x100_0000 % 256)))
  {
    var a, b, c := v / 0x100, v / 0x1_0000, v / 0x100_0000;
    assert v == 256 * a + v % 256;
    assert b == a / 256 && a == 256 * b + a % 256;
    assert c == b / 256 && b == 256 * c + b % 256;
  }
}
