/** What one expansion does to two things that it might be expected to leave or to rewrite: opt/inline_functions.cpp:25-45. */
module InlineCases {
  import opened Wrappers
  import opened Store
  import opened Shapes
  import opened Copy
  import opened Substitute
  import opened Builder
  import opened Inline
  import opened Weights
  import opened InlineStep
  import opened InlinePass
  import opened CaptureFree

  const NAMES: Builtins := Builtins(3, 4, 5, 6)

  const A_TYPE: Entity := BLANK.(data := NO_DATA.(typeDef := Some(TypeDefinition(8, 8, 0))))
  const A_FUNCTION: Entity := BLANK.(block := Some([]), links := NO_LINKS.(typeOf := Some(1)))

  // The function 7 has the parameter 8 and a type 9 that points to it; 10 calls it with `indicate_return`.
  const CALLING: Store := [
    BLANK, A_TYPE, BLANK, A_FUNCTION, A_FUNCTION, A_FUNCTION, A_FUNCTION,
    BLANK.(block := Some([8, 9]), links := NO_LINKS.(typeOf := Some(1))),
    BLANK.(parent := Some(7), links := NO_LINKS.(typeOf := Some(1)), data := NO_DATA.(param := Some(0))),
    A_TYPE.(parent := Some(7), links := NO_LINKS.(pointer := Some(Pointer(8, 0)))),
    BLANK.(parent := Some(11), links := NO_LINKS.(typeOf := Some(1), call := Some(7), inputs := Some([3])),
           data := NO_DATA.(flags := {Flag.Inline})),
    BLANK.(block := Some([10]))]

  const WEIGHTS: seq<nat> := [1, 1, 1, 1, 1, 1, 1, 3, 1, 1, 3, 4]

  // An entity with nothing below it, neither a call nor an alias.
  lemma {:induction false} PlainGood(e: Id)
    requires e in {0, 1, 2, 3, 4, 5, 6, 8, 9}
    ensures Good(CALLING, WEIGHTS, NAMES, e)
  {
    assert Children(CALLING, e) == [] && WEIGHTS[e] == 1 && |WEIGHTS| == |CALLING| == 12;
    assert CALLING[e].links.call.None? && CALLING[e].links.alias.None?;
    assert CALLING[e].data.param.Some? ==> CALLING[e].links.typeOf.Some? && CALLING[e].block.None?;
    hide *;
    PlainIsGood(CALLING, WEIGHTS, NAMES, e);
  }

  lemma {:induction false} PlainIsGood(s: Store, w: seq<nat>, b: Builtins, e: Id)
    requires e < |s| == |w| && w[e] == 1 && Children(s, e) == [] && s[e].links.call.None? && s[e].links.alias.None?
    requires s[e].data.param.Some? ==> s[e].links.typeOf.Some? && s[e].block.None?
    ensures Good(s, w, b, e)
  {
    assert Kids(s, e) == [] && Weight(w, []) == 0;
  }

  lemma {:induction false} FunctionGood()
    ensures Good(CALLING, WEIGHTS, NAMES, 7)
  {
    assert Children(CALLING, 7) == [8, 9] && [8, 9][1..] == [9] && [9][1..] == [];
    assert Weight(WEIGHTS, [9]) == 1 && Weight(WEIGHTS, [8, 9]) == 2;
    assert CALLING[8].parent == Some(7) && CALLING[9].parent == Some(7);
  }

  lemma {:induction false} RootGood()
    ensures Good(CALLING, WEIGHTS, NAMES, 11)
  {
    assert Children(CALLING, 11) == [10] && [10][1..] == [];
    assert Weight(WEIGHTS, [10]) == 3;
  }

  lemma {:induction false} CallingFacts()
    ensures Callee(CALLING, 10) == 7 && Marked(CALLING, 10) && Args(CALLING, 10) == [3] && Resolve(CALLING, 7) == Some(7)
    ensures Function(CALLING, 7) && Children(CALLING, 7) == [8, 9]
    ensures NonParams(CALLING, [8, 9]) == [9] && ParamIn(CALLING, [8, 9], 0) == Some(8)
  {
    assert ResolveIn(CALLING, 7, 12) == Some(7);
    assert [8, 9][1..] == [9] && [9][1..] == [];
    assert NonParams(CALLING, []) == [] && NonParams(CALLING, [9]) == [9];
  }

  lemma {:induction false} CallGood()
    ensures Good(CALLING, WEIGHTS, NAMES, 10)
  {
    CallingFacts();
    assert Weight(WEIGHTS, [9]) == 1 by { assert [9][1..] == []; }
    assert 3 !in [8, 9] && Twin(NAMES, 7) == 7;
    assert Children(CALLING, 10) == [];
  }

  lemma {:induction false} CallingTwins(a: Id, c: Id)
    requires a in {3, 5} && c in {4, 6}
    ensures Twins(CALLING, a, c)
  {
    assert Children(CALLING, a) == [] == Children(CALLING, c);
    assert NonParams(CALLING, []) == [];
    assert CALLING[1].links.call.None?;
  }

  lemma {:induction false} CallingInv()
    ensures Inv(CALLING, WEIGHTS, NAMES)
  {
    CallingTwins(3, 4);
    CallingTwins(5, 6);
    forall e: Id | e < |CALLING| ensures Good(CALLING, WEIGHTS, NAMES, e) {
      if e == 7 { FunctionGood(); } else if e == 10 { CallGood(); } else if e == 11 { RootGood(); } else { PlainGood(e); }
    }
    assert Keyed(ReturnPairs(NAMES), 12);
    hide Good, Twins;
  }

  /**
   The expansion of call 10.  The parameter's alias 12 resolves to `indicate_yield`, although the argument was
   `indicate_return`; and the copy 13 of the pointer still points to the parameter 8, not to its alias.
   */
  method ExpandCalling() returns (mod: Module)
    ensures CALLING[10].links.inputs == Some([NAMES.indicateReturn]) && Resolve(CALLING, NAMES.indicateReturn) == Some(NAMES.indicateReturn)
    ensures |mod.ents| == 14 && Resolve(mod.ents, 12) == Some(NAMES.indicateYield)
    ensures mod.ents[13].links.pointer == Some(Pointer(8, 0)) && mod.ents[12].data.param == None
    ensures mod.ents[10].block == Some([12, 13]) && mod.ents[10].links.call == None && mod.ents[12].data.name == Some("a0")
  {
    mod := new Module();
    mod.ents := CALLING;
    CallingInv();
    CallingFacts();
    hide *;
    InvInlinable(CALLING, WEIGHTS, NAMES, 10);
    CallingThere();
    ghost var p := InlineFunctions(mod, 10, NAMES, Body(CALLING, WEIGHTS, NAMES, 7));
    StepIntro(CALLING, mod.ents, WEIGHTS, NAMES, p);
    Expansion(mod.ents, p);
  }

  lemma {:induction false} CallingThere()
    ensures |CALLING| == 12 && CALLING[10].links.inputs == Some([3]) && NAMES.indicateReturn == 3 && NAMES.indicateYield == 4
    ensures Resolve(CALLING, 3) == Some(3) && Resolve(CALLING, 4) == Some(4)
  {
    assert ResolveIn(CALLING, 3, 12) == Some(3) && ResolveIn(CALLING, 4, 12) == Some(4);
  }

  lemma {:induction false} Expansion(t: Store, p: Plan)
    requires Step(CALLING, t, WEIGHTS, NAMES, p) && p.e == 10
    ensures |t| == 14 && Resolve(t, 12) == Some(4)
    ensures t[13].links.pointer == Some(Pointer(8, 0)) && t[12].data.param == None
    ensures t[10].block == Some([12, 13]) && t[10].links.call == None && t[12].data.name == Some("a0")
  {
    hide *;
    CallingThere();
    CallingFacts();
    StepShaped(CALLING, t, WEIGHTS, NAMES, p);
    ExpansionBody(p);
    StepLonger(CALLING, t, WEIGHTS, NAMES, p);
    ArgumentAt(p);
    ParameterResolvesToArgument(CALLING, t, WEIGHTS, NAMES, p, 0, false);
    StepAlias(CALLING, t, WEIGHTS, NAMES, p, 0);
    AliasParamless(p.e, ArgName(CALLING, p.params[0], 0), Sub(p.ret, Sub(p.par, p.args[0])));
    CopiedAt13(t, p);
    ExpandedAt10(t, p);
  }

  lemma {:induction false} CallingParam(t: Store, p: Plan)
    requires Step(CALLING, t, WEIGHTS, NAMES, p) && p.e == 10 && p.args == [3]
    ensures p.params == [8]
  {
    CallingFacts();
    assert PlanFor(CALLING, p, Body(CALLING, WEIGHTS, NAMES, 7), NAMES) by { hide Inv, Inlined, PlanFor; }
    hide Step, Inv, Inlined, CALLING, ParamIn;
    assert |p.params| == 1 && ParamIn(CALLING, Children(CALLING, 7), 0) == Some(p.params[0]);
  }

  lemma {:induction false} ExpandedAt10(t: Store, p: Plan)
    requires Step(CALLING, t, WEIGHTS, NAMES, p) && p.e == 10 && |t| == 14 && p.args == [3] && Roots(p.body) == [9] && Pre(p.body) == [9]
    ensures t[10].block == Some([12, 13]) && t[10].links.call == None && t[12].data.name == Some("a0")
  {
    CallingThere();
    CallingParam(t, p);
    assert CALLING[8].data.name == None;
    assert Inlined(CALLING, t, p) by { hide Inv, Inlined, PlanFor; }
    hide CALLING, Step, Inv, PlanFor;
    assert Pre(p.body)[0] == 9 && Sub(p.subs, 9) == 13;
    assert Range(12, 1) + SubIds(p.subs, [9]) == [12, 13];
    assert p.args[0] == 3;
    assert "a" + Digits(0) == "a0";
  }

  lemma {:induction false} ArgumentAt(p: Plan)
    requires p.args == [3]
    ensures |p.args| == 1 && p.args[0] == 3 && Twin(NAMES, p.args[0]) == 4
  {}

  lemma {:induction false} AliasParamless(c: Id, name: string, r: Id)
    ensures AliasEntity(c, name, r).data.param == None
  {}

  lemma {:induction false} ExpansionBody(p: Plan)
    requires Shaped(CALLING, p) && p.fd == 7
    ensures Roots(p.body) == [9] && Ids(p.body) == {9} && Pre(p.body) == [9] && Size(p.body) == 1
  {
    CallingFacts();
    var f := p.body;
    assert Roots(f) == [9];
    hide NonParams, Function, Marked, CALLING;
    assert f.Cons? && f.id == 9 && Roots(f) == [9] + Roots(f.rest);
    RootsNonEmpty(f.rest);
    assert Children(CALLING, 9) == [] by { CallingLeaf(); }
    RootsNonEmpty(f.kids);
    assert f == Cons(9, Nil, Nil);
    assert Ids(Nil) == {} && Pre(Nil) == [];
  }

  lemma {:induction false} CallingLeaf()
    ensures Children(CALLING, 9) == [] && CALLING[9].links.pointer == Some(Pointer(8, 0)) && CALLING[9].links.inputs.None?
    ensures CALLING[9].links.typeOf.None? && CALLING[9].data.typeDef.Some?
  {}

  lemma {:induction false} CopiedAt13(t: Store, p: Plan)
    requires Step(CALLING, t, WEIGHTS, NAMES, p) && |t| == 14 && |p.args| == 1 && Ids(p.body) == {9} && Pre(p.body) == [9]
    ensures t[13].links.pointer == Some(Pointer(8, 0))
  {
    CallingThere();
    CallingLeaf();
    assert Inlined(CALLING, t, p) by { hide Inv; }
    hide Step, CALLING, Inv;
    assert Pre(p.body)[0] == 9;
    assert Sub(p.subs, 9) == 13 && Sub(p.subs, 8) == 8;
    assert 9 in Ids(p.body);
    assert t[13].links == CopyLinksOf(CALLING, p, 9);
    hide Inlined;
  }

  // ---------- a call that only its function's type marks ----------

  // The type 1 asks for inlining; 3 calls the function 2 of that type and does not ask for it itself.
  const BY_TYPE: Store := [
    BLANK, A_TYPE.(data := NO_DATA.(typeDef := Some(TypeDefinition(8, 8, 0)), flags := {Flag.Inline})), A_FUNCTION,
    BLANK.(links := NO_LINKS.(typeOf := Some(1), call := Some(2), inputs := Some([])),
           data := NO_DATA.(flags := {Flag.Export, Flag.Flatten, Flag.Pure}))]

  lemma {:induction false} ByTypeFacts()
    ensures Resolve(BY_TYPE, 2) == Some(2) && Callable(BY_TYPE, 3) && Callee(BY_TYPE, 3) == 2
    ensures Inlinable(BY_TYPE, 3, 2, Nil, Builtins(1, 0, 2, 0))
    ensures BY_TYPE[3].links.call == Some(2) && BY_TYPE[2].links.typeOf == Some(1)
    ensures BY_TYPE[3].data.flags == {Flag.Export, Flag.Flatten, Flag.Pure} && Flag.Inline in BY_TYPE[1].data.flags
  {
    assert ResolveIn(BY_TYPE, 2, 4) == Some(2);
  }

  /** The flag of the function's type alone is enough for a call to be expanded. */
  method ExpandByType() returns (mod: Module)
    ensures BY_TYPE[3].data.flags == {Flag.Export, Flag.Flatten, Flag.Pure} && BY_TYPE[3].links.call == Some(2)
    ensures |mod.ents| == 4 && mod.ents[3].links.call == None && mod.ents[3].links.inputs == None && mod.ents[3].block == Some([])
    ensures mod.ents[3].data.flags == {Flag.Export, Flag.Flatten}
    ensures mod.ents[..3] == BY_TYPE[..3]
  {
    mod := new Module();
    mod.ents := BY_TYPE;
    ByTypeFacts();
    hide Inlined, PlanFor, Inlinable;
    ghost var p := InlineFunctions(mod, 3, Builtins(1, 0, 2, 0), Nil);
    ByTypeExpansion(mod.ents, p);
  }

  lemma {:induction false} ByTypeExpansion(t: Store, p: Plan)
    requires PlanFor(BY_TYPE, p, Nil, Builtins(1, 0, 2, 0)) && Inlined(BY_TYPE, t, p) && p.e == 3
    ensures |t| == 4 && t[3].block == Some([]) && t[3].links.call == None && t[3].links.inputs == None && t[..3] == BY_TYPE[..3]
    ensures t[3].data.flags == {Flag.Export, Flag.Flatten}
  {
    assert p.args == [] && p.body == Nil && Size(p.body) == 0;
    assert Range(4, 0) + SubIds(p.subs, Roots(Nil)) == [];
  }
}
