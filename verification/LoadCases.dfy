/** Two loads and their bytes: mizu.doir:38-52 and test.doir:9. */
module LoadCases {
  import opened Wrappers
  import opened Store
  import opened Shapes
  import opened Inline
  import D = Dump
  import opened Materialize
  import opened LoadDump
  import opened LoadRun

  const OPS: Ops := Ops(1, 2, 4, 8, 10, 12, 11, 17)
  const NAMES: Builtins := Builtins(6, 8, 7, 9)
  const EMITTERS: D.Emitters := D.Emitters(2, 3, 4, 5)
  const LOWER: OpIds := OpIds(13, 14, 15, 16)
  const UPPER: OpIds := OpIds(18, 19, 20, 21)
  const LOWER_CODE: Bytes := [6, 0, 0, 0, 0, 0, 0, 0]
  const UPPER_CODE: Bytes := [7, 0, 0, 0, 0, 0, 0, 0]

  function Below(p: Id, ty: Id, data: Data): Entity {
    BLANK.(parent := Some(p), links := NO_LINKS.(typeOf := Some(ty)), data := data)
  }

  function Calls(p: Id, ty: Id, fn: Id, inputs: seq<Id>): Entity {
    Below(p, ty, NO_DATA).(links := NO_LINKS.(typeOf := Some(ty), call := Some(fn), inputs := Some(inputs)))
  }

  function OpAt(o: OpIds): Entity {
    BLANK.(block := Some([o.parameter, o.text, o.emission, o.ret]), links := NO_LINKS.(typeOf := Some(1)))
  }

  // The two operations, a constant 7 in register 3, and a call that loads it.
  function Mizu(load: Id): Store {
    [BLANK, BLANK, BLANK, BLANK, BLANK, BLANK, BLANK, BLANK, BLANK, BLANK, BLANK, BLANK,
     OpAt(LOWER), Below(12, 1, NO_DATA.(param := Some(0))), Below(12, 3, NO_DATA.(text := Some(LOWER_CODE))), Calls(12, 2, 5, [14]), Calls(12, 1, 6, [1]),
     OpAt(UPPER), Below(17, 1, NO_DATA.(param := Some(0))), Below(17, 3, NO_DATA.(text := Some(UPPER_CODE))), Calls(17, 2, 5, [19]), Calls(17, 1, 6, [1]),
     BLANK.(links := NO_LINKS.(typeOf := Some(1)), data := NO_DATA.(number := Some(7), register := Some(3))),
     BLANK.(links := NO_LINKS.(typeOf := Some(1), call := Some(load), inputs := Some([1, 22])))]
  }

  lemma {:induction false} LowerIsOperation(load: Id)
    ensures Operation(Mizu(load), EMITTERS, OPS, NAMES, 23, 12, LOWER, LOWER_CODE)
  {}

  lemma {:induction false} UpperIsOperation(load: Id)
    ensures Operation(Mizu(load), EMITTERS, OPS, NAMES, 23, 17, UPPER, UPPER_CODE)
  {}

  lemma {:induction false} MizuLoad(load: Id)
    ensures PlainLoad(Mizu(load), OPS, 23) && NamesThere(Mizu(load), NAMES)
    ensures |Mizu(load)| == 24 && Mizu(load)[23].links.call == Some(load) && Mizu(load)[23].links.inputs == Some([1, 22])
    ensures Resolve(Mizu(load), 1) == Some(1) && Resolve(Mizu(load), 22) == Some(22)
    ensures Mizu(load)[22].data.number == Some(7) && Mizu(load)[22].data.register == Some(3)
  {
    assert ResolveIn(Mizu(load), 1, 24) == Some(1) && ResolveIn(Mizu(load), 22, 24) == Some(22);
  }

  /** The load of 7 into register 3: opcode 6 for the lower half, 7 for the upper one. */
  method LoadSeven(upper: bool) returns (mod: Module, ghost bytes: Bytes)
    ensures bytes == [if upper then 7 else 6, 0, 0, 0, 0, 0, 0, 0, 3, 0, 7, 0, 0, 0, 0, 0]
    ensures exists f {:trigger Rep(mod.ents, Cons(23, f, Nil))} ::
              && Rep(mod.ents, Cons(23, f, Nil)) && INVALID !in Ids(Cons(23, f, Nil))
              && D.Dumped(mod.ents, EMITTERS, {}, Cons(23, f, Nil), false, []).Ok?
              && D.Dumped(mod.ents, EMITTERS, {}, Cons(23, f, Nil), false, []).value.1 == bytes
  {
    var load := if upper then 11 else 10;
    mod := new Module();
    mod.ents := Mizu(load);
    MizuLoad(load);
    LowerIsOperation(load);
    UpperIsOperation(load);
    SevenBytes(upper);
    hide *;
    var fault;
    ghost var f;
    fault, f := LoadIsSixteenBytes(mod, 23, OPS, NAMES, EMITTERS, {}, LOWER, LOWER_CODE, UPPER, UPPER_CODE);
    bytes := D.Dumped(mod.ents, EMITTERS, {}, Cons(23, f, Nil), false, []).value.1;
  }

  lemma {:induction false} SevenBytes(upper: bool)
    ensures OPS.loadImmediate == 10 && OPS.loadUpperImmediate == 11 && OPS.loadImmediateOp == 12 && OPS.loadUpperImmediateOp == 17
    ensures |LOWER_CODE| == |UPPER_CODE| == 8 && INVALID == 0
    ensures (if upper then UPPER_CODE else LOWER_CODE) + RegisterBytes(3) + LittleEndian(7 % 0x1_0000_0000) + [0, 0] ==
            [if upper then 7 else 6, 0, 0, 0, 0, 0, 0, 0, 3, 0, 7, 0, 0, 0, 0, 0]
  {}
}
