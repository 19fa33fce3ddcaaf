/** A module that the structural check accepts, and changes to it that it rejects: interface.verify.cpp:84-427. */
module VerifyCases {
  import opened Wrappers
  import opened Store
  import opened Shapes
  import opened SortWalk
  import opened Inline
  import opened FunctionScope
  import opened Verify

  const NOWHERE: Context := Context({}, 0, 0)

  function Typed(ty: Id, x: Entity): Entity {
    x.(parent := Some(1), links := x.links.(typeOf := Some(ty)))
  }

  const PLAIN: Entity := BLANK.(block := Some([]), parent := Some(1), data := NO_DATA.(typeDef := Some(TypeDefinition(8, 8, 0))))
  const FUNCTION_TYPE: Entity := BLANK.(parent := Some(1), links := NO_LINKS.(returnType := Some(5), inputs := Some([5])),
                                        data := NO_DATA.(typeDef := Some(TypeDefinition(8, 8, 0))))
  const DEFINITION: Entity := Typed(2, BLANK.(block := Some([6]), links := NO_LINKS.(returnType := Some(5)), data := NO_DATA.(paramNames := Some(["x"]))))
  const SPACE: Entity := BLANK.(block := Some([]), parent := Some(1), data := NO_DATA.(flags := {Flag.Namespace}))
  const PARAMETER: Entity := Typed(5, BLANK.(data := NO_DATA.(name := Some("x"), flags := {Valueless}, param := Some(0)))).(parent := Some(3))
  const SEVEN: Entity := Typed(5, BLANK.(data := NO_DATA.(number := Some(7))))
  const CALL: Entity := Typed(5, BLANK.(links := NO_LINKS.(call := Some(3), inputs := Some([7]))))

  // The block 1 lists a function type, a definition of it with its parameter 6, a namespace, a type, a number and a call.
  const FINE: Store := [BLANK, BLANK.(block := Some([2, 3, 4, 5, 7, 8])), FUNCTION_TYPE, DEFINITION, SPACE, PLAIN, PARAMETER, SEVEN, CALL]

  lemma {:induction false} FineKind(e: Id)
    requires 1 <= e <= 8
    ensures KindVerdict(FINE, NOWHERE, e, e == 1) == Valid
  {
    if e == 3 { DefinitionFine(); }
    hide FunctionVerdict;
  }

  lemma {:induction false} DefinitionFine()
    ensures FunctionVerdict(FINE, NOWHERE, FINE[3]) == Valid
  {
    assert ResolveIn(FINE, 2, 9) == Some(2);
    assert Unmodified(FINE, {}, 2, 9) == Some(2);
    assert Indices(FINE, [6]) == [Some(0)];
    DefinitionIff(FINE, NOWHERE, FINE[3]);
  }

  lemma {:induction false} FineLocal(e: Id)
    requires 1 <= e <= 8
    ensures Local(FINE, NOWHERE, e, e == 1)
  {
    FineKind(e);
    hide KindVerdict;
    assert Children(FINE, 1) == [2, 3, 4, 5, 7, 8] && Children(FINE, 3) == [6];
    assert e != 1 && e != 3 ==> Children(FINE, e) == [];
  }

  // A part of the tree below `p`, all that acceptance asks of it, and the members it has.
  ghost predicate Part(f: Forest, p: Id, ids: set<Id>, roots: seq<Id>) {
    && Rep(FINE, f) && NoDup(f) && Parents(FINE, f, p) && AllLocal(FINE, NOWHERE, f) && Ids(f) == ids && Roots(f) == roots
  }

  lemma {:induction false} NoPart(p: Id)
    ensures Part(Nil, p, {}, [])
  {}

  lemma {:induction false} PartMore(e: Id, kids: Forest, below: set<Id>, roots: seq<Id>, rest: Forest, p: Id, ids: set<Id>, others: seq<Id>,
                                    all: set<Id>, xs: seq<Id>)
    requires 2 <= e <= 8 && |FINE| == 9 && FINE[e].parent == Some(p) && Children(FINE, e) == roots && Local(FINE, NOWHERE, e, false)
    requires Part(kids, e, below, roots) && Part(rest, p, ids, others) && e !in below && e !in ids && below !! ids
    requires all == {e} + below + ids && xs == [e] + others
    ensures Part(Cons(e, kids, rest), p, all, xs)
  {
    hide Local, FINE;
  }

  lemma {:induction false} FineLinked(e: Id)
    requires 2 <= e <= 8
    ensures |FINE| == 9 && FINE[e].parent == Some(if e == 6 then 3 else 1) && Children(FINE, e) == if e == 3 then [6] else []
    ensures Local(FINE, NOWHERE, e, false)
  {
    FineLocal(e);
    hide Local;
  }

  // The last four children of the root.
  lemma {:induction false} FineTail() returns (f: Forest)
    ensures Part(f, 1, {4, 5, 7, 8}, [4, 5, 7, 8])
  {
    hide *;
    FineLinked(4);
    FineLinked(5);
    FineLinked(7);
    FineLinked(8);
    forall p ensures Part(Nil, p, {}, []) { NoPart(p); }
    PartMore(8, Nil, {}, [], Nil, 1, {}, [], {8}, [8]);
    PartMore(7, Nil, {}, [], Cons(8, Nil, Nil), 1, {8}, [8], {7, 8}, [7, 8]);
    PartMore(5, Nil, {}, [], Cons(7, Nil, Cons(8, Nil, Nil)), 1, {7, 8}, [7, 8], {5, 7, 8}, [5, 7, 8]);
    f := Cons(5, Nil, Cons(7, Nil, Cons(8, Nil, Nil)));
    PartMore(4, Nil, {}, [], f, 1, {5, 7, 8}, [5, 7, 8], {4, 5, 7, 8}, [4, 5, 7, 8]);
    f := Cons(4, Nil, f);
  }

  lemma {:induction false} FineTree() returns (kids: Forest)
    ensures Sound(FINE, NOWHERE, 1, kids, true)
  {
    hide *;
    FineLinked(2);
    FineLinked(3);
    FineLinked(6);
    forall p ensures Part(Nil, p, {}, []) { NoPart(p); }
    var f := FineTail();
    PartMore(6, Nil, {}, [], Nil, 3, {}, [], {6}, [6]);
    PartMore(3, Cons(6, Nil, Nil), {6}, [6], f, 1, {4, 5, 7, 8}, [4, 5, 7, 8], {3, 4, 5, 6, 7, 8}, [3, 4, 5, 7, 8]);
    kids := Cons(3, Cons(6, Nil, Nil), f);
    PartMore(2, Nil, {}, [], kids, 1, {3, 4, 5, 6, 7, 8}, [3, 4, 5, 7, 8], {2, 3, 4, 5, 6, 7, 8}, [2, 3, 4, 5, 7, 8]);
    kids := Cons(2, Nil, kids);
    PartSound(kids);
  }

  lemma {:induction false} PartSound(kids: Forest)
    requires Part(kids, 1, {2, 3, 4, 5, 6, 7, 8}, [2, 3, 4, 5, 7, 8])
    ensures Sound(FINE, NOWHERE, 1, kids, true)
  {
    FineLocal(1);
    assert |FINE| == 9 && Children(FINE, 1) == [2, 3, 4, 5, 7, 8];
    hide Local, FINE, AllLocal, Rep, NoDup, Parents, Ids;
    TreeIntro(FINE, 1, kids);
  }

  /** The check accepts the module, definition, parameter, names and call included. */
  method AcceptFine() returns (v: Verdict)
    ensures FINE[3].links.returnType.Some? && FINE[3].block == Some([6]) && FINE[6].data.param == Some(0) && FINE[8].links.call == Some(3)
    ensures v == Valid
  {
    ghost var sound := FineTree();
    ghost var ids: set<Id> := {1, 2, 3, 4, 5, 6, 7, 8};
    FineLinks();
    ghost var kids: Forest;
    hide Sound, Parented, Rank;
    v, kids := Structure(FINE, NOWHERE, 1, true, 0, ids);
  }

  lemma {:induction false} FineLinks()
    ensures Rank(FINE, 1, 0) && Parented(FINE, {1, 2, 3, 4, 5, 6, 7, 8})
  {
    var ids: set<Id> := {1, 2, 3, 4, 5, 6, 7, 8};
    forall e, c {:trigger e in ids, c in Children(FINE, e)} | e in ids && c in Children(FINE, e)
      ensures c in ids && c < |FINE| && FINE[c].parent.Some?
    {
      if e == 1 { assert Children(FINE, e) == [2, 3, 4, 5, 7, 8]; } else if e == 3 { assert Children(FINE, e) == [6]; }
    }
  }

  // The check of one entity after a change to it.
  function Changed(e: Id, x: Entity): Verdict
    requires e < 9
  {
    KindVerdict(FINE[e := x], NOWHERE, e, false)
  }

  lemma {:induction false} ChangedDefinition(x: Entity)
    requires x.links.typeOf == Some(2) && x.links.returnType.Some? && x.links.call.None?
    ensures var s := FINE[3 := x]; Unmodified(s, {}, 2, 9) == Some(2) && s[2].links.inputs == Some([5]) && |s| == 9 && s[3] == x
    ensures Changed(3, x) != Invalid
    ensures Changed(3, x) == Valid ==> FunctionVerdict(FINE[3 := x], NOWHERE, x) == Valid
  {
    assert ResolveIn(FINE[3 := x], 2, 9) == Some(2);
  }

  /** What the check does not accept: definitions that do not fit their type. */
  lemma {:induction false} MisfitsRejected()
    ensures Changed(3, DEFINITION.(block := Some([]))) == Thrown
    ensures Changed(3, DEFINITION.(data := NO_DATA.(paramNames := Some(["x", "y"])))) == Thrown
    ensures Changed(3, DEFINITION.(data := NO_DATA.(paramNames := Some(["y"])))) == Thrown
  {
    MissingParameter();
    TwoNames();
    OtherName();
  }

  lemma {:induction false} MissingParameter()
    ensures Changed(3, DEFINITION.(block := Some([]))) == Thrown
  {
    var x := DEFINITION.(block := Some([]));
    ChangedDefinition(x);
    DefinitionIff(FINE[3 := x], NOWHERE, x);
    hide Changed, FunctionVerdict, Unmodified, FINE;
    assert Some(0) !in Indices(FINE[3 := x], []);
  }

  lemma {:induction false} TwoNames()
    ensures Changed(3, DEFINITION.(data := NO_DATA.(paramNames := Some(["x", "y"])))) == Thrown
  {
    var x := DEFINITION.(data := NO_DATA.(paramNames := Some(["x", "y"])));
    ChangedDefinition(x);
    DefinitionIff(FINE[3 := x], NOWHERE, x);
    hide Changed, FunctionVerdict, Unmodified, FINE;
  }

  lemma {:induction false} OtherName()
    ensures Changed(3, DEFINITION.(data := NO_DATA.(paramNames := Some(["y"])))) == Thrown
  {
    var x := DEFINITION.(data := NO_DATA.(paramNames := Some(["y"])));
    var s := FINE[3 := x];
    ChangedDefinition(x);
    DefinitionIff(s, NOWHERE, x);
    var ps := Indices(s, [6]);
    assert ps[0] == Some(0) && ps[0] !in ps[..0] && s[6].data.name == Some("x") && x.block == Some([6]);
    assert "x" != "y" by { assert "x"[0] != "y"[0]; }
    hide Changed, FunctionVerdict, Unmodified, FINE;
  }

  /** And values, calls, types, namespaces and blocks that break their rules. */
  lemma {:induction false} BrokenRejected()
    ensures Changed(7, SEVEN.(data := NO_DATA)) == Thrown
    ensures Changed(7, SEVEN.(data := SEVEN.data.(text := Some([])))) == Thrown
    ensures Changed(7, SEVEN.(data := SEVEN.data.(flags := {Constant}))) == Thrown
    ensures Changed(7, SEVEN.(data := SEVEN.data.(flags := {Pure}))) == Thrown
    ensures Changed(8, CALL.(links := CALL.links.(inputs := None))) == Thrown
    ensures Changed(5, PLAIN.(block := None)) == Thrown
    ensures Changed(5, PLAIN.(data := PLAIN.data.(number := Some(7)))) == Thrown
    ensures Changed(4, SPACE.(data := NO_DATA.(flags := {Flag.Namespace, Pure}))) == Thrown
    ensures Changed(4, SPACE.(block := None)) == Thrown
    ensures Changed(4, BLANK.(block := Some([]), parent := Some(1))) == Thrown
    ensures Changed(4, BLANK) == Invalid
  {
    hide FunctionVerdict;
    assert Pure in {Flag.Namespace, Pure} - {Flag.Namespace};
  }
}
