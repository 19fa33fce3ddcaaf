/** The bytes a module stands for: temp_byte_dumper.hpp. */
module Dump {
  import opened Wrappers
  import opened Store
  import opened Shapes
  import opened SortWalk
  import opened Renumber
  import opened CanonicalForm
  import opened Idempotence
  import opened NameLookup
  import opened FunctionScope

  // What the names of the emitting functions and of their operand types stand for.
  datatype Emitters = Emitters(byteType: Id, bytePointer: Id, emit: Id, emitBytes: Id)

  // `OutOfRange`: an index the table does not have.  `Missing`: a component that is not there.
  datatype Fault = OutOfRange | Missing

  type Bytes = seq<byte>
  type Values = seq<Bytes>

  // ---------- the table of operand values ----------

  // The table grows to twice the id when the id is beyond its end.
  function Put(values: Values, e: Id, v: Bytes): (r: Values)
    requires e != INVALID
    ensures e < |r| && r[e] == v && |values| <= |r|
    ensures forall i {:trigger r[i]} :: 0 <= i < |values| && i != e ==> r[i] == values[i]
    ensures forall i {:trigger r[i]} :: |values| <= i < |r| && i != e ==> r[i] == []
  {
    (if |values| <= e then values + seq(2 * e - |values|, _ => []) else values)[e := v]
  }

  function NumberAssigned(values: Values, s: Store, k: Emitters, e: Id): Result<Values, Fault>
    requires e != INVALID && e < |s|
  {
    var x := s[e];
    if x.data.number.Some? then
      if x.links.typeOf.None? then Err(Missing)
      else if x.links.typeOf.value != k.byteType then Ok(values)
      else Ok(Put(values, e, [x.data.number.value % 256]))
    else if x.data.text.Some? then
      if x.links.typeOf.None? then Err(Missing)
      else if x.links.typeOf.value != k.bytePointer then Ok(values)
      else Ok(Put(values, e, x.data.text.value))
    else Ok(values)
  }

  function CallBytes(values: Values, s: Store, k: Emitters, e: Id, inside: bool): Result<Bytes, Fault>
    requires e < |s|
  {
    var x := s[e];
    if x.links.call.None? || inside then Ok([])
    else if x.links.call.value != k.emit && x.links.call.value != k.emitBytes then Ok([])
    else if x.links.inputs.None? || x.links.inputs.value == [] then Err(Missing)
    else
      var operand := x.links.inputs.value[0];
      if operand >= |values| then Err(OutOfRange)
      else if x.links.call.value == k.emitBytes && x.links.call.value != k.emit then Ok(values[operand])
      else if values[operand] == [] then Err(OutOfRange)
      else Ok([values[operand][0]])
  }

  // The whole run over the trees of a block; `inside` says whether a function is around them.
  function Dumped(s: Store, k: Emitters, mods: set<Id>, f: Forest, inside: bool, values: Values): Result<(Values, Bytes), Fault>
    requires Rep(s, f) && INVALID !in Ids(f)
    decreases f
  {
    match f
    case Nil => Ok((values, []))
    case Cons(id, kids, rest) =>
      var within := inside || FunctionLike(s, mods, id);
      var first := if s[id].block.Some? then Dumped(s, k, mods, kids, within, values) else Visited(s, k, id, within, values);
      if first.Err? then first
      else
        var others := Dumped(s, k, mods, rest, inside, first.value.0);
        if others.Err? then others else Ok((others.value.0, first.value.1 + others.value.1))
  }

  function Visited(s: Store, k: Emitters, e: Id, inside: bool, values: Values): Result<(Values, Bytes), Fault>
    requires e != INVALID && e < |s|
  {
    var table := NumberAssigned(values, s, k, e);
    if table.Err? then Err(table.error)
    else
      var called := CallBytes(table.value, s, k, e, inside);
      if called.Err? then Err(called.error) else Ok((table.value, called.value))
  }

  // A run that starts after `out` ends with `r` and the table `values`.
  ghost predicate Reports(run: Result<(Values, Bytes), Fault>, out: Bytes, values: Values, r: Result<Bytes, Fault>) {
    if run.Ok? then r == Ok(out + run.value.1) && values == run.value.0 else r == Err(run.error)
  }

  // What is ahead, after `bytes`, completes the whole run, after `out`.
  ghost predicate Ahead(whole: Result<(Values, Bytes), Fault>, out: Bytes, rest: Result<(Values, Bytes), Fault>, bytes: Bytes) {
    if rest.Ok? then whole.Ok? && whole.value.0 == rest.value.0 && out + whole.value.1 == bytes + rest.value.1
    else whole == rest
  }

  // Climbing from each entity leads to the block that lists it.
  ghost predicate Climbs(s: Store, f: Forest, p: Id) {
    match f
    case Nil => true
    case Cons(id, kids, rest) =>
      id != INVALID && id != p && FindParent(s, id) == p && Climbs(s, kids, id) && Climbs(s, rest, p)
  }

  lemma {:induction false} TreeClimbs(s: Store, root: Id, kids: Forest, f: Forest, p: Id)
    requires Tree(s, root, kids) && Parents(s, kids, root)
    requires Rep(s, f) && NoDup(f) && p !in Ids(f) && Ids(f) <= Ids(kids) && Parents(s, f, p)
    ensures Climbs(s, f, p)
    decreases f
  {
    if f.Cons? {
      CachedParent(s, root, kids, f.id);
      TreeClimbs(s, root, kids, f.kids, f.id);
      TreeClimbs(s, root, kids, f.rest, p);
      assert f.id in Ids(kids) && INVALID !in Ids(Cons(root, kids, Nil));
    }
  }

  /** The dumper: a table of values that grows while the output is appended to. */
  class ByteDumper {
    var values: Values

    constructor ()
      ensures values == []
    {
      values := [];
    }

    /**
     Puts the value of an entity into the table, if it has one.  What the table holds of other entities it goes
     on holding; a value without a type is a fault, the only one, and changes nothing.
     */
    method InterpretNumberAssign(s: Store, k: Emitters, e: Id) returns (fault: Option<Fault>)
      requires e != INVALID && e < |s|
      modifies this
      ensures fault == if Typed(s, e) then None else Some(Missing)
      ensures |old(values)| <= |values| && forall x {:trigger values[x]} :: 0 <= x < |old(values)| && x != e ==> values[x] == old(values)[x]
      ensures if Typed(s, e) && ValueOf(s, k, e).Some? then e < |values| && values[e] == ValueOf(s, k, e).value else values == old(values)
      ensures var r := NumberAssigned(old(values), s, k, e);
              if r.Ok? then fault == None && values == r.value else fault == Some(r.error)
    {
      fault := None;
      if s[e].data.number.Some? {
        if s[e].links.typeOf.None? { return Some(Missing); }
        if s[e].links.typeOf.value != k.byteType { return; }
        values := Put(values, e, [s[e].data.number.value % 256]);
        return;
      }
      if s[e].data.text.Some? {
        if s[e].links.typeOf.None? { return Some(Missing); }
        if s[e].links.typeOf.value != k.bytePointer { return; }
        values := Put(values, e, s[e].data.text.value);
      }
    }

    method InterpretCall(s: Store, k: Emitters, mods: set<Id>, e: Id, ghost line: seq<Id>) returns (r: Result<Bytes, Fault>)
      requires e < |s| && TypesResolve(s, mods) && Line(s, e, line)
      ensures r == CallBytes(values, s, k, e, FirstFunction(s, mods, line) != INVALID)
    {
      hide Line, TypesResolve, FirstFunction;
      if s[e].links.call.None? { return Ok([]); }
      var function_ := FindFunctionInsideOf(s, mods, e, line);
      if function_ != INVALID { return Ok([]); }
      var callee := s[e].links.call.value;
      if callee == k.emit {
        if s[e].links.inputs.None? || s[e].links.inputs.value == [] { return Err(Missing); }
        var operand := s[e].links.inputs.value[0];
        if operand >= |values| || values[operand] == [] { return Err(OutOfRange); }
        return Ok([values[operand][0]]);
      } else if callee == k.emitBytes {
        if s[e].links.inputs.None? || s[e].links.inputs.value == [] { return Err(Missing); }
        var operand := s[e].links.inputs.value[0];
        if operand >= |values| { return Err(OutOfRange); }
        return Ok(values[operand]);
      }
      r := Ok([]);
    }

    method InterpretBlock(s: Store, k: Emitters, mods: set<Id>, subtree: Id, out: Bytes, ghost kids: Forest, ghost line: seq<Id>)
      returns (r: Result<Bytes, Fault>)
      requires Rep(s, Cons(subtree, kids, Nil)) && INVALID !in Ids(kids) && s[subtree].block.Some?
      requires TypesResolve(s, mods) && Line(s, subtree, line) && Climbs(s, kids, subtree)
      modifies this
      ensures Reports(Dumped(s, k, mods, kids, FirstFunction(s, mods, line) != INVALID, old(values)), out, values, r)
      decreases kids
    {
      hide *;
      BlockParts(s, subtree, kids);
      ghost var inside := FirstFunction(s, mods, line) != INVALID;
      ghost var todo := kids;
      var block := s[subtree].block.value;
      var bytes := out;
      ghost var first := values;
      DumpStart(Dumped(s, k, mods, kids, inside, values), out);
      for i := 0 to |block|
        invariant Rep(s, todo) && INVALID !in Ids(todo) && Climbs(s, todo, subtree)
        invariant Roots(todo) == block[i..] && (todo == kids || todo < kids)
        invariant Ahead(Dumped(s, k, mods, kids, inside, first), out, Dumped(s, k, mods, todo, inside, values), bytes)
      {
        var e := block[i];
        NextParts(s, todo, subtree, block, i);
        LineBelow(s, subtree, line, e);
        LineValid(s, subtree, line);
        FirstBelow(s, mods, line, e);
        ghost var whole, within := Dumped(s, k, mods, kids, inside, first), FirstFunction(s, mods, [e] + line) != INVALID;
        DumpNext(s, k, mods, todo, inside, within, values, whole, out, bytes);
        ghost var before := values;
        if s[e].block.Some? {
          r := InterpretBlock(s, k, mods, e, bytes, todo.kids, [e] + line);
          Finished(whole, out, bytes, Dumped(s, k, mods, todo.kids, within, before), values, r);
          if r.Err? { return; }
          bytes := r.value;
        } else {
          var fault := InterpretNumberAssign(s, k, e);
          AssignPart(s, k, e, within, before, values, fault);
          if fault.Some? {
            Finished(whole, out, bytes, Visited(s, k, e, within, before), values, Err(fault.value));
            return Err(fault.value);
          }
          var more := InterpretCall(s, k, mods, e, [e] + line);
          r := if more.Ok? then Ok(bytes + more.value) else more;
          CallPart(s, k, e, within, before, values, bytes, more, r);
          Finished(whole, out, bytes, Visited(s, k, e, within, before), values, r);
          if r.Err? { return; }
          bytes := r.value;
        }
        todo := todo.rest;
      }
      r := Ok(bytes);
      DumpEnd(s, k, mods, inside, Dumped(s, k, mods, kids, inside, first), out, todo, values, bytes);
    }
  
    method Interpret(s: Store, k: Emitters, mods: set<Id>, root: Id, ghost kids: Forest) returns (r: Result<Bytes, Fault>)
      requires Tree(s, root, kids) && Parents(s, kids, root) && Topmost(s, root) && s[root].block.Some?
      requires TypesResolve(s, mods)
      modifies this
      ensures INVALID !in Ids(kids) && Rep(s, kids)
      ensures Reports(Dumped(s, k, mods, kids, FunctionLike(s, mods, root), old(values)), [], values, r)
    {
      TreeOf(s, root, kids);
      TreeParts(s, root, kids);
      TreeClimbs(s, root, kids, kids, root);
      RootLine(s, root);
      FirstBelow(s, mods, [], root);
      assert [root] + [] == [root];
      hide *;
      r := InterpretBlock(s, k, mods, root, [], kids, [root]);
    }
  }

  // ---------- the steps of the loop ----------

  lemma {:induction false} BlockParts(s: Store, e: Id, kids: Forest)
    requires Rep(s, Cons(e, kids, Nil)) && s[e].block.Some?
    ensures e < |s| && Roots(kids) == s[e].block.value && Rep(s, kids)
  {}

  lemma {:induction false} DumpStart(run: Result<(Values, Bytes), Fault>, out: Bytes)
    ensures Ahead(run, out, run, out)
  {}

  lemma {:induction false} NextParts(s: Store, todo: Forest, p: Id, block: seq<Id>, i: nat)
    requires Rep(s, todo) && INVALID !in Ids(todo) && Climbs(s, todo, p) && i < |block| && Roots(todo) == block[i..]
    ensures todo.Cons? && todo.id == block[i] && todo.kids < todo && todo.rest < todo
    ensures todo.id < |s| && todo.id != INVALID && todo.id != p && FindParent(s, todo.id) == p
    ensures Rep(s, Cons(todo.id, todo.kids, Nil)) && INVALID !in Ids(todo.kids) && Climbs(s, todo.kids, todo.id)
    ensures Rep(s, todo.kids)
    ensures Rep(s, todo.rest) && INVALID !in Ids(todo.rest) && Climbs(s, todo.rest, p) && Roots(todo.rest) == block[i + 1..]
  {
    assert Roots(todo)[0] == todo.id && Roots(todo)[1..] == Roots(todo.rest);
    hide FindParent;
  }

  lemma {:induction false} LineValid(s: Store, e: Id, line: seq<Id>)
    requires Line(s, e, line)
    ensures INVALID !in line
  {
    hide FindParent;
    forall i: nat | i < |line| ensures line[i] != INVALID { assert Next(line, i) != line[i]; }
  }

  // The run over what is left is the run over its first tree, then the others.
  lemma {:induction false} DumpNext(s: Store, k: Emitters, mods: set<Id>, todo: Forest, inside: bool, within: bool, values: Values,
                                    whole: Result<(Values, Bytes), Fault>, out: Bytes, bytes: Bytes)
    requires todo.Cons? && Rep(s, todo) && INVALID !in Ids(todo) && within == (inside || FunctionLike(s, mods, todo.id))
    requires Ahead(whole, out, Dumped(s, k, mods, todo, inside, values), bytes)
    ensures todo.id < |s| && todo.id != INVALID && Rep(s, todo.kids) && INVALID !in Ids(todo.kids)
    ensures Rep(s, todo.rest) && INVALID !in Ids(todo.rest)
    ensures var first := if s[todo.id].block.Some? then Dumped(s, k, mods, todo.kids, within, values)
                         else Visited(s, k, todo.id, within, values);
            if first.Err? then whole == first
            else Ahead(whole, out, Dumped(s, k, mods, todo.rest, inside, first.value.0), bytes + first.value.1)
  {
    hide FunctionLike, Visited;
    var first := if s[todo.id].block.Some? then Dumped(s, k, mods, todo.kids, within, values)
                 else Visited(s, k, todo.id, within, values);
    if first.Ok? {
      var others := Dumped(s, k, mods, todo.rest, inside, first.value.0);
      if others.Ok? { BytesAssoc(bytes, first.value.1, others.value.1); }
    }
  }

  lemma {:induction false} BytesAssoc(a: Bytes, b: Bytes, c: Bytes)
    ensures (a + b) + c == a + (b + c)
  {}

  // The first tree is done: either the whole run failed there, or the output has grown by its bytes.
  lemma {:induction false} Finished(whole: Result<(Values, Bytes), Fault>, out: Bytes, bytes: Bytes,
                                    part: Result<(Values, Bytes), Fault>, values: Values, r: Result<Bytes, Fault>)
    requires Reports(part, bytes, values, r)
    ensures r.Err? ==> part.Err? && (whole == part ==> Reports(whole, out, values, r))
    ensures r.Ok? ==> part.Ok? && r.value == bytes + part.value.1 && values == part.value.0
  {}

  lemma {:induction false} AssignPart(s: Store, k: Emitters, e: Id, within: bool, before: Values, values: Values, fault: Option<Fault>)
    requires e != INVALID && e < |s|
    requires var r := NumberAssigned(before, s, k, e);
             if r.Ok? then fault == None && values == r.value else fault == Some(r.error)
    ensures fault.Some? ==> Visited(s, k, e, within, before) == Err(fault.value)
    ensures fault.Some? ==> forall bytes :: Reports(Visited(s, k, e, within, before), bytes, values, Err(fault.value))
  {}

  lemma {:induction false} CallPart(s: Store, k: Emitters, e: Id, within: bool, before: Values, values: Values, bytes: Bytes,
                                    more: Result<Bytes, Fault>, r: Result<Bytes, Fault>)
    requires e != INVALID && e < |s|
    requires NumberAssigned(before, s, k, e) == Ok(values) && more == CallBytes(values, s, k, e, within)
    requires r == if more.Ok? then Ok(bytes + more.value) else more
    ensures Reports(Visited(s, k, e, within, before), bytes, values, r)
  {}

  lemma {:induction false} DumpEnd(s: Store, k: Emitters, mods: set<Id>, inside: bool, whole: Result<(Values, Bytes), Fault>, out: Bytes,
                                   todo: Forest, values: Values, bytes: Bytes)
    requires Rep(s, todo) && INVALID !in Ids(todo) && Roots(todo) == []
    requires Ahead(whole, out, Dumped(s, k, mods, todo, inside, values), bytes)
    ensures Reports(whole, out, values, Ok(bytes))
  {
    RootsNonEmpty(todo);
    assert todo == Nil && bytes + [] == bytes;
  }

  // ---------- what the bytes mean, without the table ----------

  // The operand value an entity stands for, read off the entity itself.
  function ValueOf(s: Store, k: Emitters, e: Id): Option<Bytes> {
    if e >= |s| || s[e].links.typeOf.None? then None
    else if s[e].data.number.Some? then
      if s[e].links.typeOf.value == k.byteType then Some([s[e].data.number.value % 256]) else None
    else if s[e].data.text.Some? && s[e].links.typeOf.value == k.bytePointer then Some(s[e].data.text.value)
    else None
  }

  predicate Emits(s: Store, k: Emitters, e: Id) {
    e < |s| && s[e].links.call.Some? && (s[e].links.call.value == k.emit || s[e].links.call.value == k.emitBytes)
  }

  function Operand(s: Store, e: Id): Option<Id> {
    if e < |s| && s[e].links.inputs.Some? && s[e].links.inputs.value != [] then Some(s[e].links.inputs.value[0]) else None
  }

  function EmittedBy(s: Store, k: Emitters, e: Id): Bytes {
    if !Emits(s, k, e) || Operand(s, e).None? then []
    else
      var v := ValueOf(s, k, Operand(s, e).value);
      if v.None? then []
      else if s[e].links.call.value == k.emit then v.value[..if v.value == [] then 0 else 1]
      else v.value
  }

  /** The meaning: the operand bytes of the emitting calls in order, those around which there is a function left out. */
  function Emitted(s: Store, k: Emitters, mods: set<Id>, f: Forest, inside: bool): Bytes {
    match f
    case Nil => []
    case Cons(id, kids, rest) =>
      var within := inside || FunctionLike(s, mods, id);
      (if HasBlock(s, id) then Emitted(s, k, mods, kids, within) else if within then [] else EmittedBy(s, k, id))
      + Emitted(s, k, mods, rest, inside)
  }

  // The leaves that put a value into the table.
  function Defined(s: Store, k: Emitters, f: Forest): set<Id> {
    set x | x in Ids(f) && !HasBlock(s, x) && ValueOf(s, k, x).Some?
  }

  // Numbers and texts say their type.
  predicate Typed(s: Store, e: Id) {
    e < |s| && (s[e].data.number.Some? || s[e].data.text.Some? ==> s[e].links.typeOf.Some?)
  }

  predicate OperandReady(s: Store, k: Emitters, e: Id, seen: set<Id>) {
    Emits(s, k, e) ==>
      && Operand(s, e).Some? && Operand(s, e).value in seen
      && (s[e].links.call.value == k.emit ==> ValueOf(s, k, Operand(s, e).value) != Some([]))
  }

  // Outside of functions, what a call emits was defined before it; `seen` was defined before `f`.
  predicate DefinedBeforeUse(s: Store, k: Emitters, mods: set<Id>, f: Forest, inside: bool, seen: set<Id>) {
    match f
    case Nil => true
    case Cons(id, kids, rest) =>
      var within := inside || FunctionLike(s, mods, id);
      && (if HasBlock(s, id) then DefinedBeforeUse(s, k, mods, kids, within, seen)
          else Typed(s, id) && (within || OperandReady(s, k, id, seen + Defined(s, k, Cons(id, Nil, Nil)))))
      && DefinedBeforeUse(s, k, mods, rest, inside, seen + (if HasBlock(s, id) then Defined(s, k, kids) else Defined(s, k, Cons(id, Nil, Nil))))
  }

  // The table holds the values of what was seen.
  ghost predicate Holds(values: Values, s: Store, k: Emitters, seen: set<Id>) {
    forall x {:trigger x in seen} :: x in seen ==> x < |values| && ValueOf(s, k, x) == Some(values[x])
  }

  lemma {:induction false} VisitIsMeaning(s: Store, k: Emitters, e: Id, inside: bool, values: Values, seen: set<Id>)
    requires e != INVALID && e < |s| && !HasBlock(s, e) && Holds(values, s, k, seen) && Typed(s, e)
    requires inside || OperandReady(s, k, e, seen + Defined(s, k, Cons(e, Nil, Nil)))
    ensures var r := Visited(s, k, e, inside, values);
            && r.Ok? && Holds(r.value.0, s, k, seen + Defined(s, k, Cons(e, Nil, Nil)))
            && r.value.1 == if inside then [] else EmittedBy(s, k, e)
  {
    assert Ids(Cons(e, Nil, Nil)) == {e};
    var table := NumberAssigned(values, s, k, e);
    var seen' := seen + Defined(s, k, Cons(e, Nil, Nil));
    assert table.Ok? && Holds(table.value, s, k, seen');
    if !inside && Emits(s, k, e) {
      var op := Operand(s, e).value;
      assert op in seen';
    }
  }

  /** Where operands are defined before they are used, the table changes nothing: the dumper emits the meaning. */
  lemma {:induction false} DumperEmitsMeaning(s: Store, k: Emitters, mods: set<Id>, f: Forest, inside: bool, values: Values, seen: set<Id>)
    requires Rep(s, f) && INVALID !in Ids(f) && Holds(values, s, k, seen)
    requires DefinedBeforeUse(s, k, mods, f, inside, seen)
    ensures var r := Dumped(s, k, mods, f, inside, values);
            r.Ok? && r.value.1 == Emitted(s, k, mods, f, inside)
            && forall x :: x in seen || x in Defined(s, k, f) ==> x < |r.value.0| && ValueOf(s, k, x) == Some(r.value.0[x])
    decreases f
  {
    if f.Cons? {
      var within := inside || FunctionLike(s, mods, f.id);
      hide FunctionLike, ValueOf, Visited, Emits, EmittedBy, Typed, OperandReady;
      var now := if HasBlock(s, f.id) then Defined(s, k, f.kids) else Defined(s, k, Cons(f.id, Nil, Nil));
      var first := if s[f.id].block.Some? then Dumped(s, k, mods, f.kids, within, values) else Visited(s, k, f.id, within, values);
      if HasBlock(s, f.id) {
        DumperEmitsMeaning(s, k, mods, f.kids, within, values, seen);
      } else {
        VisitIsMeaning(s, k, f.id, within, values, seen);
      }
      assert Holds(first.value.0, s, k, seen + now);
      DumperEmitsMeaning(s, k, mods, f.rest, inside, first.value.0, seen + now);
      DefinedParts(s, k, f);
    }
  }

  lemma {:induction false} DefinedParts(s: Store, k: Emitters, f: Forest)
    requires Rep(s, f) && f.Cons?
    ensures Defined(s, k, f) == (if HasBlock(s, f.id) then Defined(s, k, f.kids) else Defined(s, k, Cons(f.id, Nil, Nil))) + Defined(s, k, f.rest)
  {
    hide ValueOf;
    assert Ids(Cons(f.id, Nil, Nil)) == {f.id};
    if !HasBlock(s, f.id) { RootsNonEmpty(f.kids); }
  }
}
