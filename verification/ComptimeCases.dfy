/** When the comptime sweep stops, when it does not, and what validation has left to find: sema/comptime.hpp. */
module ComptimeCases {
  import opened Wrappers
  import opened Store
  import opened Shapes
  import opened ComptimeFlags

  // ---------- references without cycles ----------

  // What the rule of a call looks at: its inputs and the type of its function.
  ghost predicate LooksAt(s: Store, e: Id, x: Id) {
    Managed(s, e) && (x in s[e].links.inputs.value || FunctionType(s, e) == Some(x))
  }

  // Calls that are visited look only at calls of lower rank.
  ghost predicate Ranked(s: Store, domain: set<Id>, rank: seq<nat>) {
    forall e, x {:trigger LooksAt(s, e, x)} ::
      e in domain && x in domain && LooksAt(s, e, x) && Managed(s, x) ==> x < |rank| && e < |rank| && rank[x] < rank[e]
  }

  // `f` has the final value of everything but calls of rank `r` and more.
  ghost predicate Agrees(s: Store, domain: set<Id>, rank: seq<nat>, f: set<Id>, g: set<Id>, r: nat) {
    forall x: Id {:trigger x in f} :: (x in domain && Managed(s, x) ==> x < |rank| && rank[x] < r) ==> (x in f <==> x in g)
  }

  lemma {:induction false} PremiseAgrees(s: Store, domain: set<Id>, rank: seq<nat>, f: set<Id>, g: set<Id>, r: nat, e: Id)
    requires Ranked(s, domain, rank) && Agrees(s, domain, rank, f, g, r) && e in domain && Managed(s, e) && e < |rank| && rank[e] <= r
    ensures Premise(s, f, e) <==> Premise(s, g, e)
  {
    forall x: Id | LooksAt(s, e, x) ensures x in f <==> x in g {
      assert x in domain && Managed(s, x) ==> rank[x] < rank[e];
    }
    hide Managed, FunctionType, Ranked, Agrees;
    assert forall i :: 0 <= i < |s[e].links.inputs.value| ==> LooksAt(s, e, s[e].links.inputs.value[i]) by {
      assert forall i :: 0 <= i < |s[e].links.inputs.value| ==> s[e].links.inputs.value[i] in s[e].links.inputs.value;
      assert Managed(s, e);
    }
    if FunctionType(s, e).Some? { assert LooksAt(s, e, FunctionType(s, e).value); }
  }

  lemma {:induction false} StepAgrees(s: Store, base: Id, domain: set<Id>, rank: seq<nat>, f: set<Id>, g: set<Id>, r: nat, e: Id)
    requires Ranked(s, domain, rank) && Agrees(s, domain, rank, f, g, r) && e in domain && Fixed(s, base, domain, g)
    ensures Agrees(s, domain, rank, Stepped(s, base, f, e), g, r)
    ensures Managed(s, e) && e < |rank| && rank[e] <= r ==> (e in Stepped(s, base, f, e) <==> e in g)
  {
    assert Stepped(s, base, g, e) == g;
    if Managed(s, e) && e < |rank| && rank[e] <= r { PremiseAgrees(s, domain, rank, f, g, r, e); }
    hide Managed, Premise, Always, Ranked;
  }

  // One sweep settles the next rank.
  lemma {:induction false} SweepAgrees(s: Store, base: Id, domain: set<Id>, rank: seq<nat>, f: set<Id>, g: set<Id>, r: nat, order: seq<Id>, e: Id)
    requires Ranked(s, domain, rank) && Agrees(s, domain, rank, f, g, r) && Members(order) <= domain && Fixed(s, base, domain, g)
    ensures Agrees(s, domain, rank, Swept(s, base, f, order), g, r)
    ensures Managed(s, e) && e < |rank| && rank[e] == r && (e in order || (e in f <==> e in g)) ==>
              (e in Swept(s, base, f, order) <==> e in g)
    decreases |order|
  {
    hide Ranked, Fixed, Agrees;
    if order != [] {
      assert order[0] in Members(order) && Members(order[1..]) <= Members(order);
      StepAgrees(s, base, domain, rank, f, g, r, order[0]);
      SteppedOther(s, base, f, order[0], e);
      SweepAgrees(s, base, domain, rank, Stepped(s, base, f, order[0]), g, r, order[1..], e);
    }
  }

  lemma {:induction false} SteppedOther(s: Store, base: Id, f: set<Id>, e: Id, x: Id)
    ensures x != e ==> (x in Stepped(s, base, f, e) <==> x in f)
  {}

  lemma {:induction false} SweepSettles(s: Store, base: Id, order: seq<Id>, rank: seq<nat>, f: set<Id>, g: set<Id>, r: nat)
    requires Ranked(s, Members(order), rank) && Agrees(s, Members(order), rank, f, g, r) && Fixed(s, base, Members(order), g)
    ensures Agrees(s, Members(order), rank, Swept(s, base, f, order), g, r + 1)
  {
    var h := Swept(s, base, f, order);
    SweepAgrees(s, base, Members(order), rank, f, g, r, order, 0);
    forall x: Id {:trigger x in h} | x in Members(order) && Managed(s, x) ==> x < |rank| && rank[x] < r + 1 ensures x in h <==> x in g {
      SweepAgrees(s, base, Members(order), rank, f, g, r, order, x);
    }
  }

  // The first sweep settles everything that is not a call.
  lemma {:induction false} FirstSweep(s: Store, base: Id, domain: set<Id>, f: set<Id>, g: set<Id>, order: seq<Id>, x: Id)
    requires Fixed(s, base, domain, g) && Members(order) <= domain
    requires !(x in domain && Managed(s, x))
    ensures x in Swept(s, base, f, order) <==> x in f || (x in order && Always(s, base, x))
    decreases |order|
  {
    if order != [] {
      assert order[0] in Members(order) && Members(order[1..]) <= Members(order);
      hide Premise, Always, Fixed;
      FirstSweep(s, base, domain, Stepped(s, base, f, order[0]), g, order[1..], x);
    }
  }

  /**
   Where calls do not look at one another in a cycle, the sweeps reach the least fixed point from any
   flags at all, after two sweeps more than the highest rank.
   */
  lemma {:induction false} AcyclicSettles(s: Store, base: Id, order: seq<Id>, rank: seq<nat>, flags: set<Id>, top: nat) returns (least: set<Id>)
    requires Ranked(s, Members(order), rank)
    requires forall e {:trigger e in order} :: e in order && Managed(s, e) ==> e < |rank| && rank[e] < top
    ensures Least(s, base, Members(order), Given(s, Members(order), flags), least)
    ensures Iterated(s, base, flags, order, top + 1) == least
  {
    var m, start := Members(order), Given(s, Members(order), flags);
    least := LeastExists(s, base, order, flags);
    LeastParts(s, base, m, start, least);
    hide Fixed, Least, Ranked, Swept, Always, Premise;
    Settling(s, base, order, rank, flags, start, least, top);
    var f := Iterated(s, base, flags, order, top + 1);
    assert forall x :: x in f <==> x in least;
  }

  lemma {:induction false} Settling(s: Store, base: Id, order: seq<Id>, rank: seq<nat>, flags: set<Id>, start: set<Id>, least: set<Id>, r: nat)
    requires Ranked(s, Members(order), rank) && start == Given(s, Members(order), flags) && Least(s, base, Members(order), start, least)
    ensures Agrees(s, Members(order), rank, Iterated(s, base, flags, order, r + 1), least, r)
  {
    LeastParts(s, base, Members(order), start, least);
    hide Fixed, Least, Ranked, Swept, Always, Premise;
    if r == 0 {
      var f := Iterated(s, base, flags, order, 1);
      assert f == Swept(s, base, Iterated(s, base, flags, order, 0), order);
      forall x: Id {:trigger x in f} | !(x in Members(order) && Managed(s, x)) ensures x in f <==> x in least {
        FirstSweep(s, base, Members(order), flags, least, order, x);
        LeastStart(s, base, order, start, least, x);
      }
    } else {
      Settling(s, base, order, rank, flags, start, least, r - 1);
      SweepSettles(s, base, order, rank, Iterated(s, base, flags, order, r), least, r - 1);
    }
  }

  // ---------- a cycle that never comes to rest ----------

  function Forward(input: Id): Entity {
    BLANK.(links := NO_LINKS.(call := Some(4), inputs := Some([input])))
  }

  // Three calls passing one another's flag on, and the function they call.
  const RING: Store := [BLANK, Forward(2), Forward(3), Forward(1), BLANK.(links := NO_LINKS.(typeOf := Some(5))), BLANK]

  lemma {:induction false} RingStep(flags: set<Id>, e: Id)
    requires e in {1, 2, 3} && 5 !in flags
    ensures var input := if e == 3 then 1 else e + 1;
            Stepped(RING, 0, flags, e) == if input in flags then flags + {e} else flags - {e}
  {
    var input := if e == 3 then 1 else e + 1;
    assert RING[e] == Forward(input) && Managed(RING, e);
    assert ResolveIn(RING, 5, 6) == Some(5);
    assert FunctionType(RING, e) == Some(5);
    assert RING[e].links.inputs.value == [input] && RING[e].links.inputs.value[0] == input;
    assert Premise(RING, flags, e) <==> input in flags;
  }

  lemma {:induction false} RingSweep(flags: set<Id>)
    requires flags == {2} || flags == {1, 3}
    ensures Swept(RING, 0, flags, [1, 2, 3]) == if flags == {2} then {1, 3} else {2}
  {
    RingStep(flags, 1);
    var a := Stepped(RING, 0, flags, 1);
    RingStep(a, 2);
    var b := Stepped(RING, 0, a, 2);
    RingStep(b, 3);
    var c := Stepped(RING, 0, b, 3);
    hide Stepped;
    assert [1, 2, 3][1..] == [2, 3] && [2, 3][1..] == [3] && [3][1..] == [];
    assert Swept(RING, 0, c, []) == c;
    assert Swept(RING, 0, b, [3]) == c;
    assert Swept(RING, 0, a, [2, 3]) == c;
  }

  /**
   From flags that are not justified the sweeps need not end: with one flag on a ring of three calls every
   sweep changes something, for ever.
   */
  lemma {:induction false} RingNeverRests(n: nat)
    ensures var f := Iterated(RING, 0, {2}, [1, 2, 3], n);
            f == (if n % 2 == 0 then {2} else {1, 3}) && Swept(RING, 0, f, [1, 2, 3]) != f
  {
    if n > 0 { RingNeverRests(n - 1); }
    RingSweep(Iterated(RING, 0, {2}, [1, 2, 3], n));
    assert 2 in {2} && 2 !in {1, 3};
  }

  // ---------- justified flags that are not supported ----------

  // Two calls in a row, the second passing on the flag of a value; they call the same function.
  const CHAIN: Store := [BLANK, Forward(2), Forward(3), BLANK, BLANK.(links := NO_LINKS.(typeOf := Some(5))), BLANK]

  lemma {:induction false} ChainStep(flags: set<Id>, e: Id)
    requires e in {1, 2} && 5 !in flags
    ensures Managed(CHAIN, e) && (Premise(CHAIN, flags, e) <==> e + 1 in flags)
    ensures Stepped(CHAIN, 0, flags, e) == if e + 1 in flags then flags + {e} else flags - {e}
  {
    assert CHAIN[e] == Forward(e + 1) && Managed(CHAIN, e);
    assert ResolveIn(CHAIN, 5, 6) == Some(5);
    assert FunctionType(CHAIN, e) == Some(5);
    assert CHAIN[e].links.inputs.value == [e + 1] && CHAIN[e].links.inputs.value[0] == e + 1;
  }

  /**
   Justified flags alone do not make a sweep only add.  The flag of the first call is one that the rules give in
   the end, but it is not supported yet, so the first sweep takes it away.
   */
  lemma {:induction false} JustifiedCanShrink()
    ensures Justified(CHAIN, 0, {1, 2}, {1, 3}) && !Supported(CHAIN, {1, 2}, {1, 3})
    ensures Swept(CHAIN, 0, {1, 3}, [1, 2]) == {2, 3}
  {
    var f, domain := {1, 3}, {1, 2};
    ChainStep(f, 1);
    ChainStep({3}, 2);
    assert 1 in f && 1 in domain;
    assert Stepped(CHAIN, 0, f, 1) == {3};
    assert Stepped(CHAIN, 0, {3}, 2) == {2, 3};
    assert [1, 2][1..] == [2] && [2][1..] == [];
    assert Swept(CHAIN, 0, {2, 3}, []) == {2, 3};
    assert Swept(CHAIN, 0, {3}, [2]) == {2, 3};
    var start := Given(CHAIN, domain, f);
    assert 3 in start;
    forall g | Closed(CHAIN, 0, domain, start, g) ensures f <= g {
      assert 3 in g && 1 in domain && 2 in domain;
      ChainClosed(start, g);
    }
  }

  lemma {:induction false} ChainClosed(start: set<Id>, g: set<Id>)
    requires Closed(CHAIN, 0, {1, 2}, start, g) && 3 in g
    ensures 1 in g
  {
    var domain := {1, 2};
    assert 1 in domain && 2 in domain;
    if 5 in g {
      assert ResolveIn(CHAIN, 5, 6) == Some(5);
      assert FunctionType(CHAIN, 1) == Some(5) && Managed(CHAIN, 1);
    } else {
      ChainStep(g, 2);
      ChainStep(g, 1);
    }
  }

  // ---------- what types and inputs make known ----------

  function ValueOf(ty: Id): Entity {
    BLANK.(links := NO_LINKS.(typeOf := Some(ty)))
  }

  function TypeWith(flags: set<Flag>): Entity {
    BLANK.(data := NO_DATA.(typeDef := Some(TypeDefinition(8, 8, 0)), flags := flags))
  }

  // 2 is a call to the comptime base type 1; 4 points to it, 7 is another name for the type 6, which is always known.
  const TYPES: Store := [
    BLANK, BLANK, BLANK.(links := NO_LINKS.(call := Some(1))), ValueOf(2),
    BLANK.(links := NO_LINKS.(pointer := Some(Pointer(2, 0)))), ValueOf(4),
    TypeWith({Flag.AlwaysComptime}), BLANK.(links := NO_LINKS.(alias := Some(6))), ValueOf(7),
    TypeWith({}), ValueOf(9), ValueOf(9),
    BLANK.(links := NO_LINKS.(call := Some(11), inputs := Some([3, 9]))),
    BLANK.(links := NO_LINKS.(call := Some(11), inputs := Some([10])))]

  const VISITED: seq<Id> := [3, 5, 8, 10, 12, 13]

  lemma {:induction false} TypesResolve()
    ensures |TYPES| == 14 && Resolve(TYPES, 2) == Some(2) && Resolve(TYPES, 4) == Some(4)
    ensures Resolve(TYPES, 7) == Some(6) && Resolve(TYPES, 9) == Some(9)
  {
    assert ResolveIn(TYPES, 2, 14) == Some(2) && ResolveIn(TYPES, 4, 14) == Some(4) && ResolveIn(TYPES, 9, 14) == Some(9);
    assert ResolveIn(TYPES, 6, 13) == Some(6);
  }

  lemma {:induction false} TypesBase()
    ensures BaseType(TYPES, 2) == Some(2) && BaseType(TYPES, 4) == Some(2)
    ensures BaseType(TYPES, 7) == Some(6) && BaseType(TYPES, 9) == Some(9)
  {
    TypesResolve();
    hide Resolve;
    assert BaseTypeIn(TYPES, 2, 14) == Some(2) && BaseTypeIn(TYPES, 9, 14) == Some(9) && BaseTypeIn(TYPES, 7, 14) == Some(6);
    assert BaseTypeIn(TYPES, 2, 13) == Some(2);
  }

  lemma {:induction false} TypesFollowable(e: Id)
    requires e in VISITED
    ensures Followable(TYPES, e)
  {
    TypesResolve();
    TypesBase();
    hide Resolve, BaseType;
  }

  lemma {:induction false} TypesUnflagged()
    ensures Flagged(TYPES) == {}
  {}

  /**
   Values are known whose type is a call to the comptime base type, also behind a pointer, or always known, also
   behind an alias; so is a call with such an input and a type.  A plain value is not, nor a call with it.
   */
  method VisitTypes() returns (mod: Module)
    ensures |mod.ents| == 14 && mod.ents[..3] == TYPES[..3]
    ensures Comptime in mod.ents[3].data.flags && Comptime in mod.ents[5].data.flags && Comptime in mod.ents[8].data.flags
    ensures Comptime !in mod.ents[10].data.flags && Comptime in mod.ents[12].data.flags && Comptime !in mod.ents[13].data.flags
  {
    mod := new Module();
    mod.ents := TYPES;
    TypesUnflagged();
    forall e {:trigger e in VISITED} | e in VISITED ensures Followable(TYPES, e) { TypesFollowable(e); }
    hide *;
    NoFlagsJustified(TYPES, 1, Members(VISITED), {});
    ghost var sweeps := FixedPoint(mod, VISITED, 1);
    assert TypesDone(mod.ents) by { TypesDoneIntro(mod.ents); }
    TypesVisited(mod.ents);
  }

  // The state that the fixed point leaves behind.
  ghost predicate TypesDone(t: Store) {
    && SameRules(TYPES, t)
    && Least(TYPES, 1, Members(VISITED), Given(TYPES, Members(VISITED), Flagged(TYPES)), Flagged(t))
  }

  lemma {:induction false} TypesDoneIntro(t: Store)
    requires SameRules(TYPES, t)
    requires Least(TYPES, 1, Members(VISITED), Given(TYPES, Members(VISITED), Flagged(TYPES)), Flagged(t))
    ensures TypesDone(t)
  {}

  lemma {:induction false} TypesVisited(t: Store)
    requires TypesDone(t)
    ensures |t| == 14 && t[..3] == TYPES[..3]
    ensures Comptime in t[3].data.flags && Comptime in t[5].data.flags && Comptime in t[8].data.flags
    ensures Comptime !in t[10].data.flags && Comptime in t[12].data.flags && Comptime !in t[13].data.flags
  {
    hide *;
    ValueVisited(t, 3);
    ValueVisited(t, 5);
    ValueVisited(t, 8);
    ValueVisited(t, 10);
    CallsVisited(t);
    assert |TYPES| == 14 by { TypesResolve(); }
    forall e | 0 <= e < 3 ensures t[e] == TYPES[e] { NotVisited(t, e); }
  }

  lemma {:induction false} NotVisited(t: Store, e: Id)
    requires TypesDone(t) && e in {0, 1, 2, 9}
    ensures |t| == 14 == |TYPES| && t[e] == TYPES[e]
  {
    TypesResolve();
    forall e {:trigger e in VISITED} | e in VISITED ensures Followable(TYPES, e) { TypesFollowable(e); }
    hide Least, SameRules, Followable, Resolve, BaseType;
    LeastMeans(TYPES, t, 1, VISITED);
    assert t[e] == t[e];
  }

  lemma {:induction false} ValueVisited(t: Store, e: Id)
    requires TypesDone(t) && e in {3, 5, 8, 10}
    ensures |t| == 14 && (Comptime in t[e].data.flags <==> e != 10)
  {
    TypesResolve();
    TypesBase();
    forall e {:trigger e in VISITED} | e in VISITED ensures Followable(TYPES, e) { TypesFollowable(e); }
    assert e in VISITED && TYPES[e].links.call.None? && TYPES[e].links.typeOf.Some? && TYPES[e].data.flags == {};
    hide Least, SameRules, Followable, Resolve, BaseType;
    LeastMeans(TYPES, t, 1, VISITED);
  }

  lemma {:induction false} CallsVisited(t: Store)
    requires TypesDone(t)
    ensures |t| == 14 && Comptime in t[12].data.flags && Comptime !in t[13].data.flags
  {
    ValueVisited(t, 3);
    ValueVisited(t, 10);
    NotVisited(t, 9);
    TypesResolve();
    forall e {:trigger e in VISITED} | e in VISITED ensures Followable(TYPES, e) { TypesFollowable(e); }
    assert 12 in VISITED && 13 in VISITED && TYPES[12].data.flags == TYPES[13].data.flags == {};
    assert t[10].data.typeDef == None by { SameEntity(TYPES, t, 10); }
    hide Least, SameRules, Followable, Resolve, BaseType;
    LeastMeans(TYPES, t, 1, VISITED);
    assert 10 in [10];
  }

  // ---------- validation ----------

  method ValidateComptime(s: Store, e: Id, registerFor: Id) returns (ok: bool)
    ensures ok <==> Validated(s, e, registerFor)
    // a flagged call with an unknown input is only let through when the call is `register_for` and it is the second
    ensures e >= |s| || s[e].links.call.None? || s[e].links.inputs.None? || Comptime !in s[e].data.flags ==> ok
    ensures e < |s| && s[e].links.call.Some? && s[e].links.inputs.Some? && Comptime in s[e].data.flags ==>
              var inputs := s[e].links.inputs.value;
              !ok <==>
                exists i :: 0 <= i < |inputs| && (inputs[i] < |s| ==> Comptime !in s[inputs[i]].data.flags && s[inputs[i]].data.typeDef.None?)
                  && (forall k :: 0 <= k < i ==> inputs[k] < |s| && (Comptime in s[inputs[k]].data.flags || s[inputs[k]].data.typeDef.Some?))
                  && !(s[e].links.call.value == registerFor && i == 1)
  {
    if e >= |s| || s[e].links.call.None? { return true; }
    if s[e].links.inputs.None? { return true; }
    var inputs := s[e].links.inputs.value;
    var i := FirstUnknown(s, inputs);
    if i < |inputs| && FlagSet(s, e, Comptime) {
      if s[e].links.call.value == registerFor && i == 1 { return true; }
      return false;
    }
    ok := true;
  }

  // A call flagged Comptime knows its inputs, but for the second one of `register_for`.
  ghost predicate Validated(s: Store, e: Id, registerFor: Id) {
    Calling(s, e) && FlagSet(s, e, Comptime) ==>
      AllKnown(s, e) || (s[e].links.call.value == registerFor && SecondUnknown(s, e))
  }

  predicate Calling(s: Store, e: Id) {
    e < |s| && s[e].links.call.Some? && s[e].links.inputs.Some?
  }

  ghost predicate AllKnown(s: Store, e: Id)
    requires Calling(s, e)
  {
    forall k :: 0 <= k < |s[e].links.inputs.value| ==> Known(s, s[e].links.inputs.value[k])
  }

  // The first input that is not known is the second one.
  ghost predicate SecondUnknown(s: Store, e: Id)
    requires Calling(s, e)
  {
    var xs := s[e].links.inputs.value;
    |xs| > 1 && Known(s, xs[0]) && !Known(s, xs[1])
  }

  /**
   After the fixed point validation has something to say only about calls flagged because of their
   function's type: for every other visited call the flag and the inputs agree.
   */
  lemma {:induction false} ValidatedByFixedPoint(s: Store, base: Id, domain: set<Id>, e: Id)
    requires Fixed(s, base, domain, Flagged(s)) && e in domain && Managed(s, e)
    ensures Calling(s, e)
    ensures FlagSet(s, e, Comptime) && !AllKnown(s, e) ==> FunctionType(s, e).Some? && FlagSet(s, FunctionType(s, e).value, Comptime)
    ensures AllKnown(s, e) ==> FlagSet(s, e, Comptime)
  {
    var flags := Flagged(s);
    assert Stepped(s, base, flags, e) == flags;
    assert e in flags <==> Premise(s, flags, e);
  }
}
