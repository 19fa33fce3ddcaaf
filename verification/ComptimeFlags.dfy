/** What is known at compile time: sema/comptime.hpp under the fixed point of systems.hpp:142-151. */
module ComptimeFlags {
  import opened Wrappers
  import opened Store
  import opened Shapes

  // ---------- the rules ----------

  // An entity without its Comptime flag: all that the rules look at besides the flags themselves.
  function Unflagged(x: Entity): Entity {
    x.(data := x.data.(flags := x.data.flags - {Comptime}))
  }

  ghost predicate SameRules(s: Store, t: Store) {
    |t| == |s| && forall e {:trigger t[e]} :: 0 <= e < |s| ==> Unflagged(t[e]) == Unflagged(s[e])
  }

  ghost function Flagged(s: Store): (r: set<Id>)
    ensures forall e: Id :: e in r <==> FlagSet(s, e, Comptime)
  {
    set e: Id | e < |s| && FlagSet(s, e, Comptime)
  }

  // A call whose flag the pass looks after, setting it and clearing it.
  predicate Managed(s: Store, e: Id) {
    e < |s| && s[e].links.call.Some? && s[e].links.inputs.Some? && NoComptime !in s[e].data.flags
  }

  // The type of the called function, aliases resolved.
  function FunctionType(s: Store, e: Id): Option<Id> {
    if e >= |s| || s[e].links.call.None? then None
    else
      var function_ := s[e].links.call.value;
      if function_ < |s| && s[function_].links.typeOf.Some? then Resolve(s, s[function_].links.typeOf.value) else None
  }

  // interface.resolve.cpp:174-181; `None` when aliases or pointers go round for ever.
  function BaseTypeIn(s: Store, e: Id, fuel: nat): Option<Id>
    decreases fuel
  {
    var r := Resolve(s, e);
    if r.Some? && r.value < |s| && s[r.value].links.pointer.Some? then
      if fuel == 0 then None else BaseTypeIn(s, s[r.value].links.pointer.value.base, fuel - 1)
    else r
  }

  function BaseType(s: Store, e: Id): Option<Id> {
    BaseTypeIn(s, e, |s|)
  }

  predicate IsTypeDefinition(s: Store, e: Id) {
    e < |s| && s[e].data.typeDef.Some?
  }

  // A value whose type is known at compile time throughout.
  predicate Always(s: Store, comptimeBase: Id, e: Id) {
    && e < |s| && s[e].links.call.None? && s[e].links.typeOf.Some? && NoComptime !in s[e].data.flags
    && var ty := BaseType(s, s[e].links.typeOf.value);
       ty.Some? && ty.value < |s|
       && if s[ty.value].links.call == Some(comptimeBase) then true
          else s[ty.value].data.typeDef.Some? && AlwaysComptime in s[ty.value].data.flags
  }

  // A call is known when its inputs are, types being known anyway, or when its function's type says so.
  ghost predicate Premise(s: Store, flags: set<Id>, e: Id)
    requires Managed(s, e)
  {
    || (forall i {:trigger s[e].links.inputs.value[i]} :: 0 <= i < |s[e].links.inputs.value| ==>
          s[e].links.inputs.value[i] in flags || IsTypeDefinition(s, s[e].links.inputs.value[i]))
    || (FunctionType(s, e).Some? && FunctionType(s, e).value in flags)
  }

  ghost function Stepped(s: Store, base: Id, flags: set<Id>, e: Id): set<Id> {
    if Managed(s, e) then (if Premise(s, flags, e) then flags + {e} else flags - {e})
    else if Always(s, base, e) then flags + {e}
    else flags
  }

  ghost function Swept(s: Store, base: Id, flags: set<Id>, order: seq<Id>): set<Id>
    decreases |order|
  {
    if order == [] then flags else Swept(s, base, Stepped(s, base, flags, order[0]), order[1..])
  }

  // ---------- the visit and the sweep ----------

  // What following references needs to come to an end.
  ghost predicate Followable(s: Store, e: Id) {
    && (Managed(s, e) ==> FunctionType(s, e).Some?)
    && (e < |s| && s[e].links.call.None? && s[e].links.typeOf.Some? ==> BaseType(s, s[e].links.typeOf.value).Some?)
  }

  method ResolveBaseType(s: Store, start: Id) returns (r: Id)
    requires BaseType(s, start).Some?
    ensures Some(r) == BaseType(s, start)
    ensures r < |s| ==> s[r].links.alias.None? && s[r].links.pointer.None?
  {
    ghost var fuel: nat := |s|;
    r := FollowAliases(s, start);
    while r < |s| && s[r].links.pointer.Some?
      invariant BaseType(s, start).Some? && (r < |s| ==> s[r].links.alias.None?)
      invariant BaseType(s, start) == if r < |s| && s[r].links.pointer.Some? then
                  (if fuel == 0 then None else BaseTypeIn(s, s[r].links.pointer.value.base, fuel - 1)) else Some(r)
      decreases fuel
    {
      fuel := fuel - 1;
      r := FollowAliases(s, s[r].links.pointer.value.base);
    }
  }

  predicate Known(s: Store, e: Id) {
    FlagSet(s, e, Comptime) || IsTypeDefinition(s, e)
  }

  method FirstUnknown(s: Store, inputs: seq<Id>) returns (i: nat)
    ensures i <= |inputs| && forall k :: 0 <= k < i ==> Known(s, inputs[k])
    ensures i < |inputs| ==> !Known(s, inputs[i])
  {
    i := 0;
    while i < |inputs| && Known(s, inputs[i])
      invariant i <= |inputs| && forall k :: 0 <= k < i ==> Known(s, inputs[k])
    {
      i := i + 1;
    }
  }

  method BubbleComptime(mod: Module, e: Id, base: Id, changed: bool) returns (changed': bool)
    requires Followable(mod.ents, e)
    modifies mod
    ensures SameRules(old(mod.ents), mod.ents)
    ensures Flagged(mod.ents) == Stepped(old(mod.ents), base, Flagged(old(mod.ents)), e)
    ensures changed' == (changed || Flagged(mod.ents) != Flagged(old(mod.ents)))
    // only the visited entity can change
    ensures forall y: Id {:trigger mod.ents[y]} :: y < |mod.ents| && y != e ==> mod.ents[y] == old(mod.ents)[y]
    // a value: its flag stays, and it gets one if its type says so
    ensures e < |mod.ents| && old(mod.ents)[e].links.call.None? && old(mod.ents)[e].links.typeOf.Some? && NoComptime !in old(mod.ents)[e].data.flags ==>
              var s := old(mod.ents);
              var ty := BaseType(s, s[e].links.typeOf.value).value;
              Comptime in mod.ents[e].data.flags <==>
                || Comptime in s[e].data.flags
                || (ty < |s| && s[ty].links.call == Some(base))
                || (ty < |s| && s[ty].data.typeDef.Some? && AlwaysComptime in s[ty].data.flags)
    // a call: it has the flag if its inputs have it, types having it anyway, or the type of its function has it
    ensures e < |mod.ents| && old(mod.ents)[e].links.call.Some? && old(mod.ents)[e].links.inputs.Some? && NoComptime !in old(mod.ents)[e].data.flags ==>
              var s := old(mod.ents);
              var inputs, ft := s[e].links.inputs.value, Resolve(s, s[s[e].links.call.value].links.typeOf.value).value;
              Comptime in mod.ents[e].data.flags <==>
                || (forall x :: x in inputs ==> x < |s| && (Comptime in s[x].data.flags || s[x].data.typeDef.Some?))
                || (ft < |s| && Comptime in s[ft].data.flags)
    // anything else stays as it is
    ensures e < |mod.ents| && (NoComptime in old(mod.ents)[e].data.flags
              || (if old(mod.ents)[e].links.call.Some? then old(mod.ents)[e].links.inputs.None? else old(mod.ents)[e].links.typeOf.None?)) ==>
              mod.ents == old(mod.ents)
  {
    var s := mod.ents;
    changed' := changed;
    if e < |s| && s[e].links.call.Some? {
      if s[e].links.inputs.None? || FlagSet(s, e, NoComptime) { return; }
      var inputs := s[e].links.inputs.value;
      var i := FirstUnknown(s, inputs);
      var comptime := i == |inputs|;
      var function_ := s[e].links.call.value;
      var ft := FollowAliases(s, s[function_].links.typeOf.value);
      var comptimeFunction := FlagSet(s, ft, Comptime);
      assert Premise(s, Flagged(s), e) <==> comptime || comptimeFunction;
      var isComptime := FlagSet(s, e, Comptime);
      if comptime || comptimeFunction {
        SetFlag(mod, e, true);
        if !isComptime { changed' := true; }
      } else if isComptime {
        SetFlag(mod, e, false);
        changed' := true;
      }
    } else if e < |s| && s[e].links.typeOf.Some? {
      if FlagSet(s, e, NoComptime) { return; }
      var ty := ResolveBaseType(s, s[e].links.typeOf.value);
      var always := false;
      if ty < |s| && s[ty].links.call == Some(base) {
        always := true;
      } else if ty >= |s| || s[ty].data.typeDef.None? {
        return;
      } else {
        always := FlagSet(s, ty, AlwaysComptime);
      }
      if !FlagSet(s, e, Comptime) && always {
        SetFlag(mod, e, true);
        changed' := true;
      }
    }
  }

  method SetFlag(mod: Module, e: Id, on: bool)
    requires e < |mod.ents|
    modifies mod
    ensures |mod.ents| == |old(mod.ents)| && mod.ents == old(mod.ents)[e := mod.ents[e]]
    ensures mod.ents[e].data.flags == if on then old(mod.ents)[e].data.flags + {Comptime} else old(mod.ents)[e].data.flags - {Comptime}
    ensures SameRules(old(mod.ents), mod.ents)
    ensures Flagged(mod.ents) == if on then Flagged(old(mod.ents)) + {e} else Flagged(old(mod.ents)) - {e}
  {
    ghost var s := mod.ents;
    var x := mod.ents[e];
    var flags := if on then x.data.flags + {Comptime} else x.data.flags - {Comptime};
    assert flags - {Comptime} == x.data.flags - {Comptime};
    mod.ents := mod.ents[e := x.(data := x.data.(flags := flags))];
    assert forall y: Id :: y != e ==> (FlagSet(mod.ents, y, Comptime) <==> FlagSet(s, y, Comptime));
    assert FlagSet(mod.ents, e, Comptime) <==> on;
  }

  // ---------- the rules do not depend on the flags ----------

  lemma {:induction false} SameResolve(s: Store, t: Store, e: Id, fuel: nat)
    requires SameRules(s, t)
    ensures ResolveIn(t, e, fuel) == ResolveIn(s, e, fuel)
    decreases fuel
  {
    if e < |s| {
      assert Unflagged(t[e]).links == Unflagged(s[e]).links;
      if s[e].links.alias.Some? && fuel > 0 { SameResolve(s, t, s[e].links.alias.value, fuel - 1); }
    }
  }

  lemma {:induction false} SameBaseType(s: Store, t: Store, e: Id, fuel: nat)
    requires SameRules(s, t)
    ensures BaseTypeIn(t, e, fuel) == BaseTypeIn(s, e, fuel)
    decreases fuel
  {
    SameResolve(s, t, e, |s|);
    var r := Resolve(s, e);
    if r.Some? && r.value < |s| {
      assert Unflagged(t[r.value]).links == Unflagged(s[r.value]).links;
      if s[r.value].links.pointer.Some? && fuel > 0 { SameBaseType(s, t, s[r.value].links.pointer.value.base, fuel - 1); }
    }
  }

  lemma {:induction false} SameEntity(s: Store, t: Store, e: Id)
    requires SameRules(s, t)
    ensures e < |s| <==> e < |t|
    ensures e < |s| ==> t[e].links == s[e].links && t[e].block == s[e].block && t[e].data.typeDef == s[e].data.typeDef
    ensures e < |s| ==> (NoComptime in t[e].data.flags <==> NoComptime in s[e].data.flags)
    ensures e < |s| ==> (AlwaysComptime in t[e].data.flags <==> AlwaysComptime in s[e].data.flags)
  {
    if e < |s| {
      assert Unflagged(t[e]).links == Unflagged(s[e]).links && Unflagged(t[e]).data == Unflagged(s[e]).data;
      assert NoComptime in Unflagged(t[e]).data.flags <==> NoComptime in t[e].data.flags;
      assert NoComptime in Unflagged(s[e]).data.flags <==> NoComptime in s[e].data.flags;
      assert AlwaysComptime in Unflagged(t[e]).data.flags <==> AlwaysComptime in t[e].data.flags;
      assert AlwaysComptime in Unflagged(s[e]).data.flags <==> AlwaysComptime in s[e].data.flags;
    }
  }

  lemma {:induction false} SameRule(s: Store, t: Store, base: Id, e: Id)
    requires SameRules(s, t)
    ensures (Managed(t, e) <==> Managed(s, e)) && (Always(t, base, e) <==> Always(s, base, e))
    ensures FunctionType(t, e) == FunctionType(s, e) && (IsTypeDefinition(t, e) <==> IsTypeDefinition(s, e))
    ensures Followable(t, e) <==> Followable(s, e)
  {
    SameEntity(s, t, e);
    if e < |s| && s[e].links.call.Some? {
      var function_ := s[e].links.call.value;
      SameEntity(s, t, function_);
      if function_ < |s| && s[function_].links.typeOf.Some? { SameResolve(s, t, s[function_].links.typeOf.value, |s|); }
    } else if e < |s| && s[e].links.typeOf.Some? {
      SameBaseType(s, t, s[e].links.typeOf.value, |s|);
      var ty := BaseType(s, s[e].links.typeOf.value);
      if ty.Some? { SameEntity(s, t, ty.value); }
    }
    hide SameRules, BaseType;
  }

  lemma {:induction false} SameStep(s: Store, t: Store, base: Id, flags: set<Id>, e: Id)
    requires SameRules(s, t)
    ensures Stepped(t, base, flags, e) == Stepped(s, base, flags, e)
  {
    SameRule(s, t, base, e);
    SameEntity(s, t, e);
    if Managed(s, e) {
      forall x ensures IsTypeDefinition(t, x) <==> IsTypeDefinition(s, x) { SameEntity(s, t, x); }
      hide Managed, FunctionType, IsTypeDefinition, SameRules;
      assert Premise(t, flags, e) <==> Premise(s, flags, e);
    }
  }

  lemma {:induction false} SameTrans(s: Store, t: Store, u: Store)
    requires SameRules(s, t) && SameRules(t, u)
    ensures SameRules(s, u)
  {
    forall e {:trigger u[e]} | 0 <= e < |s| ensures Unflagged(u[e]) == Unflagged(s[e]) { assert Unflagged(t[e]) == Unflagged(s[e]); }
  }

  // ---------- least fixed points ----------

  // `flags` obeys the rules on `domain` and has what was there to begin with.
  ghost predicate Closed(s: Store, base: Id, domain: set<Id>, start: set<Id>, flags: set<Id>) {
    && start <= flags
    && forall e {:trigger e in domain} :: e in domain ==>
         (Managed(s, e) && Premise(s, flags, e) ==> e in flags) && (Always(s, base, e) ==> e in flags)
  }

  // What the flags start from: all of them, but for the calls the pass looks after.
  ghost function Given(s: Store, domain: set<Id>, flags: set<Id>): set<Id> {
    set e | e in flags && !(e in domain && Managed(s, e))
  }

  // Every flag at the start is one the rules would give anyway; so it is when no call has a flag.
  ghost predicate Justified(s: Store, base: Id, domain: set<Id>, flags: set<Id>) {
    forall g {:trigger Closed(s, base, domain, Given(s, domain, flags), g)} :: Closed(s, base, domain, Given(s, domain, flags), g) ==> flags <= g
  }

  // Nothing more to do on `domain`.
  ghost predicate Fixed(s: Store, base: Id, domain: set<Id>, flags: set<Id>) {
    forall e {:trigger Stepped(s, base, flags, e)} :: e in domain ==> Stepped(s, base, flags, e) == flags
  }

  // The least set that obeys the rules: said without any order of visits.
  ghost predicate Least(s: Store, base: Id, domain: set<Id>, start: set<Id>, flags: set<Id>) {
    && Fixed(s, base, domain, flags) && start <= flags
    && forall g {:trigger Closed(s, base, domain, start, g)} :: Closed(s, base, domain, start, g) ==> flags <= g
  }

  ghost function Members(order: seq<Id>): (r: set<Id>)
    ensures forall x :: x in r <==> x in order
  {
    set x | x in order
  }

  lemma {:induction false} PremiseMonotone(s: Store, f: set<Id>, g: set<Id>, e: Id)
    requires Managed(s, e) && f <= g && Premise(s, f, e)
    ensures Premise(s, g, e)
  {}

  lemma {:induction false} StepMonotone(s: Store, base: Id, f: set<Id>, g: set<Id>, e: Id)
    requires f <= g
    ensures Stepped(s, base, f, e) <= Stepped(s, base, g, e)
  {
    if Managed(s, e) && Premise(s, f, e) { PremiseMonotone(s, f, g, e); }
    hide Managed, Premise, Always;
  }

  lemma {:induction false} SweepMonotone(s: Store, base: Id, f: set<Id>, g: set<Id>, order: seq<Id>)
    requires f <= g
    ensures Swept(s, base, f, order) <= Swept(s, base, g, order)
    decreases |order|
  {
    hide Stepped;
    if order != [] {
      StepMonotone(s, base, f, g, order[0]);
      SweepMonotone(s, base, Stepped(s, base, f, order[0]), Stepped(s, base, g, order[0]), order[1..]);
    }
  }

  // A state whose flagged calls all have their premise: such a state only grows.
  ghost predicate Supported(s: Store, domain: set<Id>, flags: set<Id>) {
    forall e {:trigger e in domain} :: e in domain && Managed(s, e) && e in flags ==> Premise(s, flags, e)
  }

  lemma {:induction false} StepOnlyAdds(s: Store, base: Id, domain: set<Id>, f: set<Id>, e: Id)
    requires Supported(s, domain, f) && e in domain
    ensures f <= Stepped(s, base, f, e) && Supported(s, domain, Stepped(s, base, f, e))
  {
    hide Managed, Premise, Always;
    var g := Stepped(s, base, f, e);
    assert f <= g;
    forall x | x in domain && Managed(s, x) && x in g ensures Premise(s, g, x) { PremiseMonotone(s, f, g, x); }
  }

  /** Started without unsupported calls, a sweep only adds flags, in whatever order it visits. */
  lemma {:induction false} SweepOnlyAdds(s: Store, base: Id, domain: set<Id>, f: set<Id>, order: seq<Id>)
    requires Supported(s, domain, f) && Members(order) <= domain
    ensures f <= Swept(s, base, f, order) && Supported(s, domain, Swept(s, base, f, order))
    decreases |order|
  {
    hide Stepped, Supported;
    if order != [] {
      assert order[0] in Members(order);
      StepOnlyAdds(s, base, domain, f, order[0]);
      assert Members(order[1..]) <= Members(order);
      SweepOnlyAdds(s, base, domain, Stepped(s, base, f, order[0]), order[1..]);
    }
  }

  // A sweep that changes nothing in the end, and only adds, changed nothing on the way.
  lemma {:induction false} StillSweep(s: Store, base: Id, domain: set<Id>, f: set<Id>, order: seq<Id>)
    requires Supported(s, domain, f) && Members(order) <= domain && Swept(s, base, f, order) == f
    ensures Fixed(s, base, Members(order), f)
    decreases |order|
  {
    hide Stepped, Supported;
    if order != [] {
      assert order[0] in Members(order) && Members(order[1..]) <= Members(order);
      var g := Stepped(s, base, f, order[0]);
      StepOnlyAdds(s, base, domain, f, order[0]);
      SweepOnlyAdds(s, base, domain, g, order[1..]);
      assert g == f;
      StillSweep(s, base, domain, f, order[1..]);
      assert forall x :: x in Members(order) ==> x == order[0] || x in Members(order[1..]);
    }
  }

  // A sweep stays inside of any closed set above it.
  lemma {:induction false} StepInside(s: Store, base: Id, domain: set<Id>, start: set<Id>, f: set<Id>, g: set<Id>, e: Id)
    requires f <= g && Closed(s, base, domain, start, g) && e in domain
    ensures Stepped(s, base, f, e) <= g
  {
    if Managed(s, e) && Premise(s, f, e) { PremiseMonotone(s, f, g, e); }
    hide Managed, Premise, Always;
  }

  lemma {:induction false} SweepInside(s: Store, base: Id, domain: set<Id>, start: set<Id>, f: set<Id>, g: set<Id>, order: seq<Id>)
    requires f <= g && Closed(s, base, domain, start, g) && Members(order) <= domain
    ensures Swept(s, base, f, order) <= g
    decreases |order|
  {
    hide Stepped, Closed;
    if order != [] {
      assert order[0] in Members(order) && Members(order[1..]) <= Members(order);
      StepInside(s, base, domain, start, f, g, order[0]);
      SweepInside(s, base, domain, start, Stepped(s, base, f, order[0]), g, order[1..]);
    }
  }

  // `n` sweeps.
  ghost function Iterated(s: Store, base: Id, flags: set<Id>, order: seq<Id>, n: nat): set<Id> {
    if n == 0 then flags else Swept(s, base, Iterated(s, base, flags, order, n - 1), order)
  }

  // From the given flags every sweep adds something until it reaches a fixed point: at most one sweep per entity visited.
  lemma {:induction false} IteratedGrows(s: Store, base: Id, order: seq<Id>, start: set<Id>, n: nat)
    requires Supported(s, Members(order), start)
    ensures var f := Iterated(s, base, start, order, n);
            && Supported(s, Members(order), f) && start <= f <= start + Members(order)
            && (Fixed(s, base, Members(order), f) || |f - start| >= n)
  {
    hide Supported, Fixed, Swept;
    if n == 0 {
    } else {
      IteratedGrows(s, base, order, start, n - 1);
      var f := Iterated(s, base, start, order, n - 1);
      var g := Swept(s, base, f, order);
      SweepOnlyAdds(s, base, Members(order), f, order);
      SweepBounded(s, base, f, order);
      if g == f {
        StillSweep(s, base, Members(order), f, order);
      } else {
        if Fixed(s, base, Members(order), f) { FixedStill(s, base, order, f); }
        var x :| x in g && x !in f;
        CardinalityMonotone((f - start) + {x}, g - start);
      }
    }
  }

  lemma {:induction false} SweepBounded(s: Store, base: Id, f: set<Id>, order: seq<Id>)
    ensures Swept(s, base, f, order) <= f + Members(order)
    decreases |order|
  {
    hide Managed, Premise, Always;
    if order != [] {
      var g := Stepped(s, base, f, order[0]);
      assert g <= f + {order[0]};
      SweepBounded(s, base, g, order[1..]);
      assert order[0] in Members(order) && Members(order[1..]) <= Members(order);
    }
  }

  lemma {:induction false} FixedStill(s: Store, base: Id, order: seq<Id>, f: set<Id>)
    requires Fixed(s, base, Members(order), f)
    ensures Swept(s, base, f, order) == f
    decreases |order|
  {
    hide Stepped;
    if order != [] {
      assert order[0] in Members(order) && Members(order[1..]) <= Members(order);
      FixedStill(s, base, order[1..], f);
    }
  }

  lemma {:induction false} MembersSize(order: seq<Id>)
    ensures |Members(order)| <= |order|
    decreases |order|
  {
    if order == [] { assert Members(order) == {}; }
    else {
      MembersSize(order[1..]);
      assert Members(order) == Members(order[1..]) + {order[0]};
    }
  }

  // ---------- the fixed point ----------

  lemma {:induction false} GivenSupported(s: Store, domain: set<Id>, flags: set<Id>)
    ensures Supported(s, domain, Given(s, domain, flags)) && Given(s, domain, flags) <= flags
  {
    hide Managed, Premise;
  }

  // With all of the order flagged nothing can be added any more.
  lemma {:induction false} Saturated(s: Store, base: Id, domain: set<Id>, f: set<Id>)
    requires Supported(s, domain, f) && domain <= f
    ensures Fixed(s, base, domain, f)
  {
    forall e {:trigger Stepped(s, base, f, e)} | e in domain ensures Stepped(s, base, f, e) == f {
      StepOnlyAdds(s, base, domain, f, e);
      hide Managed, Premise, Always;
    }
  }

  lemma {:induction false} FixedClosed(s: Store, base: Id, domain: set<Id>, start: set<Id>, f: set<Id>)
    requires Fixed(s, base, domain, f) && start <= f
    ensures Closed(s, base, domain, start, f)
  {
    forall e {:trigger e in domain} | e in domain
      ensures (Managed(s, e) && Premise(s, f, e) ==> e in f) && (Always(s, base, e) ==> e in f)
    {
      assert Stepped(s, base, f, e) == f;
      AlwaysUnmanaged(s, base, e);
      hide Managed, Premise, Always;
    }
  }

  lemma {:induction false} AlwaysUnmanaged(s: Store, base: Id, e: Id)
    ensures !(Managed(s, e) && Always(s, base, e))
  {
    hide BaseType;
  }

  // As many sweeps as there are entities to visit reach the least fixed point.
  lemma {:induction false} LeastExists(s: Store, base: Id, order: seq<Id>, flags: set<Id>) returns (least: set<Id>)
    ensures var m, start := Members(order), Given(s, Members(order), flags);
            least == Iterated(s, base, start, order, |m|) && Least(s, base, m, start, least)
  {
    var m, start := Members(order), Given(s, Members(order), flags);
    hide *;
    GivenSupported(s, m, flags);
    IteratedGrows(s, base, order, start, |m|);
    least := Iterated(s, base, start, order, |m|);
    if !Fixed(s, base, m, least) {
      assert least - start <= m;
      SameSize(least - start, m);
      Saturated(s, base, m, least);
    }
    forall g {:trigger Closed(s, base, m, start, g)} | Closed(s, base, m, start, g) ensures least <= g {
      ClosedAbove(s, base, m, start, g);
      IteratedInside(s, base, start, order, start, g, |m|);
    }
    LeastIntro(s, base, m, start, least);
  }

  lemma {:induction false} LeastIntro(s: Store, base: Id, domain: set<Id>, start: set<Id>, flags: set<Id>)
    requires Fixed(s, base, domain, flags) && start <= flags
    requires forall g {:trigger Closed(s, base, domain, start, g)} :: Closed(s, base, domain, start, g) ==> flags <= g
    ensures Least(s, base, domain, start, flags)
  {}

  lemma {:induction false} ClosedAbove(s: Store, base: Id, domain: set<Id>, start: set<Id>, g: set<Id>)
    requires Closed(s, base, domain, start, g)
    ensures start <= g
  {}

  lemma {:induction false} SameSize(a: set<Id>, b: set<Id>)
    requires a <= b && |a| >= |b|
    ensures a == b
  {
    if x :| x in b && x !in a { CardinalityMonotone(a, b - {x}); }
  }

  lemma {:induction false} IteratedInside(s: Store, base: Id, f: set<Id>, order: seq<Id>, start: set<Id>, g: set<Id>, n: nat)
    requires f <= g && Closed(s, base, Members(order), start, g)
    ensures Iterated(s, base, f, order, n) <= g
  {
    hide Closed, Swept;
    if n > 0 {
      IteratedInside(s, base, f, order, start, g, n - 1);
      SweepInside(s, base, Members(order), start, Iterated(s, base, f, order, n - 1), g, order);
    }
  }

  lemma {:induction false} IteratedMonotone(s: Store, base: Id, f: set<Id>, g: set<Id>, order: seq<Id>, n: nat)
    requires f <= g
    ensures Iterated(s, base, f, order, n) <= Iterated(s, base, g, order, n)
  {
    hide Swept;
    if n > 0 {
      IteratedMonotone(s, base, f, g, order, n - 1);
      SweepMonotone(s, base, Iterated(s, base, f, order, n - 1), Iterated(s, base, g, order, n - 1), order);
    }
  }

  // Every state on the way lies between the run from the given flags and the least fixed point.
  lemma {:induction false} Between(s: Store, base: Id, order: seq<Id>, flags: set<Id>, n: nat) returns (least: set<Id>)
    requires Justified(s, base, Members(order), flags)
    ensures var m, start, f := Members(order), Given(s, Members(order), flags), Iterated(s, base, flags, order, n);
            && Least(s, base, m, start, least) && start <= f <= least
            && (Fixed(s, base, m, f) ==> f == least) && (n >= |m| ==> f == least)
  {
    var m, start, f := Members(order), Given(s, Members(order), flags), Iterated(s, base, flags, order, n);
    least := LeastExists(s, base, order, flags);
    LeastParts(s, base, m, start, least);
    GivenSupported(s, m, flags);
    FixedClosed(s, base, m, start, least);
    assert flags <= least;
    hide *;
    IteratedInside(s, base, flags, order, start, least, n);
    IteratedMonotone(s, base, start, flags, order, n);
    IteratedGrows(s, base, order, start, n);
    if Fixed(s, base, m, f) {
      FixedClosed(s, base, m, start, f);
      LeastBelow(s, base, m, start, least, f);
    }
    if n >= |m| { IteratedStays(s, base, order, start, |m|, n); }
  }

  lemma {:induction false} LeastParts(s: Store, base: Id, domain: set<Id>, start: set<Id>, least: set<Id>)
    requires Least(s, base, domain, start, least)
    ensures Fixed(s, base, domain, least) && start <= least
  {}

  lemma {:induction false} LeastBelow(s: Store, base: Id, domain: set<Id>, start: set<Id>, least: set<Id>, g: set<Id>)
    requires Least(s, base, domain, start, least) && Closed(s, base, domain, start, g)
    ensures least <= g
  {}

  lemma {:induction false} IteratedStays(s: Store, base: Id, order: seq<Id>, f: set<Id>, n: nat, more: nat)
    requires n <= more && Fixed(s, base, Members(order), Iterated(s, base, f, order, n))
    ensures Iterated(s, base, f, order, more) == Iterated(s, base, f, order, n)
    decreases more
  {
    hide Fixed, Swept;
    if more > n {
      IteratedStays(s, base, order, f, n, more - 1);
      FixedStill(s, base, order, Iterated(s, base, f, order, n));
    }
  }

  method Sweep(mod: Module, order: seq<Id>, base: Id, changed: bool) returns (changed': bool)
    requires forall e {:trigger e in order} :: e in order ==> Followable(mod.ents, e)
    modifies mod
    ensures SameRules(old(mod.ents), mod.ents)
    ensures Flagged(mod.ents) == Swept(old(mod.ents), base, Flagged(old(mod.ents)), order)
    ensures !changed' ==> !changed && Fixed(old(mod.ents), base, Members(order), Flagged(old(mod.ents)))
    ensures Fixed(old(mod.ents), base, Members(order), Flagged(old(mod.ents))) ==> changed' == changed
  {
    hide Stepped, SameRules, Followable, Swept;
    ghost var s, f := mod.ents, Flagged(mod.ents);
    changed' := changed;
    SameSelf(s);
    SweptNothing(s, base, f);
    for i := 0 to |order|
      invariant SameRules(s, mod.ents) && Flagged(mod.ents) == Swept(s, base, f, order[..i])
      invariant !changed' ==> !changed && Flagged(mod.ents) == f && forall k :: 0 <= k < i ==> Stepped(s, base, f, order[k]) == f
      invariant Fixed(s, base, Members(order), f) ==> changed' == changed && Flagged(mod.ents) == f
    {
      var e := order[i];
      ghost var t := mod.ents;
      assert e in order && e in Members(order);
      SameRule(s, t, base, e);
      SameStep(s, t, base, Flagged(t), e);
      changed' := BubbleComptime(mod, e, base, changed');
      SameTrans(s, t, mod.ents);
      SweptOneMore(s, base, f, order, i);
    }
    assert order[..|order|] == order;
  }

  lemma {:induction false} SameSelf(s: Store)
    ensures SameRules(s, s)
  {}

  lemma {:induction false} SweptNothing(s: Store, base: Id, f: set<Id>)
    ensures forall order: seq<Id> :: Swept(s, base, f, order[..0]) == f
  {}

  lemma {:induction false} SweptOneMore(s: Store, base: Id, f: set<Id>, order: seq<Id>, i: nat)
    requires i < |order|
    ensures Swept(s, base, f, order[..i + 1]) == Stepped(s, base, Swept(s, base, f, order[..i]), order[i])
    decreases i
  {
    hide Stepped;
    if i == 0 {
      assert order[..1] == [order[0]] && [order[0]][1..] == [];
      assert Swept(s, base, Stepped(s, base, f, order[0]), []) == Stepped(s, base, f, order[0]);
    } else {
      assert order[..i + 1][1..] == order[1..][..i] && order[..i][1..] == order[1..][..i - 1];
      SweptOneMore(s, base, Stepped(s, base, f, order[0]), order[1..], i - 1);
    }
  }

  /** Without flags on calls, or with supported ones only, sweep after sweep only adds. */
  lemma {:induction false} EverySweepOnlyAdds(s: Store, base: Id, order: seq<Id>, flags: set<Id>, n: nat)
    requires Supported(s, Members(order), flags)
    ensures flags <= Iterated(s, base, flags, order, n) <= Iterated(s, base, flags, order, n + 1)
    ensures Supported(s, Members(order), Iterated(s, base, flags, order, n))
    decreases n
  {
    hide Supported, Swept;
    var g := Iterated(s, base, flags, order, n);
    if n == 0 {
      assert g == flags;
    } else {
      EverySweepOnlyAdds(s, base, order, flags, n - 1);
      SweepOnlyAdds(s, base, Members(order), Iterated(s, base, flags, order, n - 1), order);
    }
    SweepOnlyAdds(s, base, Members(order), g, order);
  }

  lemma {:induction false} NoFlagsSupported(s: Store, domain: set<Id>, flags: set<Id>)
    requires forall e {:trigger e in domain} :: e in domain && Managed(s, e) ==> e !in flags
    ensures Supported(s, domain, flags)
  {
    hide Managed, Premise;
  }

  lemma {:induction false} LeastStart(s: Store, base: Id, order: seq<Id>, start: set<Id>, g: set<Id>, x: Id)
    requires Least(s, base, Members(order), start, g) && !(x in Members(order) && Managed(s, x))
    ensures x in g <==> x in start || (x in order && Always(s, base, x))
  {
    LeastParts(s, base, Members(order), start, g);
    FixedClosed(s, base, Members(order), start, g);
    if !(x in start || (x in order && Always(s, base, x))) {
      var h := g - {x};
      forall e {:trigger e in Members(order)} | e in Members(order)
        ensures (Managed(s, e) && Premise(s, h, e) ==> e in h) && (Always(s, base, e) ==> e in h)
      {
        if Managed(s, e) && Premise(s, h, e) { PremiseMonotone(s, h, g, e); }
      }
      hide Managed, Premise, Always;
      assert Closed(s, base, Members(order), start, h);
    }
  }

  /** The least fixed point said of the flags themselves. */
  lemma {:induction false} LeastMeans(s: Store, t: Store, base: Id, order: seq<Id>)
    requires SameRules(s, t) && forall e {:trigger e in order} :: e in order ==> Followable(s, e)
    requires Least(s, base, Members(order), Given(s, Members(order), Flagged(s)), Flagged(t))
    ensures |t| == |s|
    // what is not visited, or neither a call nor a value, or not to be known, is as it was
    ensures forall e: Id {:trigger t[e]} :: e < |t| ==>
              e !in order || NoComptime in s[e].data.flags
              || (if s[e].links.call.Some? then s[e].links.inputs.None? else s[e].links.typeOf.None?) ==>
              t[e] == s[e]
    // a value has the flag if it had it or its type says so
    ensures forall e {:trigger e in order} :: e in order && e < |t| ==>
              NoComptime !in s[e].data.flags && s[e].links.call.None? && s[e].links.typeOf.Some? ==>
              var ty := BaseType(s, s[e].links.typeOf.value);
              && ty.Some?
              && (Comptime in t[e].data.flags <==>
                    || Comptime in s[e].data.flags
                    || (ty.value < |s| && s[ty.value].links.call == Some(base))
                    || (ty.value < |s| && s[ty.value].data.typeDef.Some? && AlwaysComptime in s[ty.value].data.flags))
    // a call has the flag if its inputs have it now, types having it anyway, or the type of its function has it
    ensures forall e {:trigger e in order} :: e in order && e < |t| ==>
              NoComptime !in s[e].data.flags && s[e].links.call.Some? && s[e].links.inputs.Some? ==>
              var inputs, fd := s[e].links.inputs.value, s[e].links.call.value;
              && fd < |s| && s[fd].links.typeOf.Some? && Resolve(s, s[fd].links.typeOf.value).Some?
              && var ft := Resolve(s, s[fd].links.typeOf.value).value;
                 (Comptime in t[e].data.flags <==>
                    || (forall x :: x in inputs ==> x < |t| && (Comptime in t[x].data.flags || t[x].data.typeDef.Some?))
                    || (ft < |t| && Comptime in t[ft].data.flags))
  {
    SameLength(s, t);
    hide SameRules, Least, BaseType, Given, Always, Resolve;
    forall e: Id {:trigger t[e]} | e < |t| && (e !in order || NoComptime in s[e].data.flags
              || (if s[e].links.call.Some? then s[e].links.inputs.None? else s[e].links.typeOf.None?))
      ensures t[e] == s[e]
    {
      NoCallAtRest(s, t, base, order, e);
      AlwaysMeans(s, base, e);
    }
    forall e {:trigger e in order} | e in order && e < |t| && NoComptime !in s[e].data.flags && s[e].links.call.None? && s[e].links.typeOf.Some?
      ensures var ty := BaseType(s, s[e].links.typeOf.value);
              && ty.Some?
              && (Comptime in t[e].data.flags <==>
                    || Comptime in s[e].data.flags
                    || (ty.value < |s| && s[ty.value].links.call == Some(base))
                    || (ty.value < |s| && s[ty.value].data.typeDef.Some? && AlwaysComptime in s[ty.value].data.flags))
    {
      NoCallAtRest(s, t, base, order, e);
      assert Followable(s, e);
      AlwaysMeans(s, base, e);
    }
    forall e {:trigger e in order} | e in order && e < |t| && NoComptime !in s[e].data.flags && s[e].links.call.Some? && s[e].links.inputs.Some?
      ensures var inputs, fd := s[e].links.inputs.value, s[e].links.call.value;
              && fd < |s| && s[fd].links.typeOf.Some? && Resolve(s, s[fd].links.typeOf.value).Some?
              && var ft := Resolve(s, s[fd].links.typeOf.value).value;
                 (Comptime in t[e].data.flags <==>
                    || (forall x :: x in inputs ==> x < |t| && (Comptime in t[x].data.flags || t[x].data.typeDef.Some?))
                    || (ft < |t| && Comptime in t[ft].data.flags))
    {
      CallAtRest(s, t, base, order, e);
    }
  }

  lemma {:induction false} AlwaysMeans(s: Store, base: Id, e: Id)
    requires e < |s|
    ensures NoComptime in s[e].data.flags || s[e].links.call.Some? || s[e].links.typeOf.None? ==> !Always(s, base, e)
    ensures NoComptime !in s[e].data.flags && s[e].links.call.None? && s[e].links.typeOf.Some? ==>
              var ty := BaseType(s, s[e].links.typeOf.value);
              ty.Some? ==> (Always(s, base, e) <==>
                || (ty.value < |s| && s[ty.value].links.call == Some(base))
                || (ty.value < |s| && s[ty.value].data.typeDef.Some? && AlwaysComptime in s[ty.value].data.flags))
  {
    hide BaseType;
  }

  lemma {:induction false} SameLength(s: Store, t: Store)
    requires SameRules(s, t)
    ensures |t| == |s|
  {}

  lemma {:induction false} CallAtRest(s: Store, t: Store, base: Id, order: seq<Id>, e: Id)
    requires SameRules(s, t) && e in order && Managed(s, e) && Followable(s, e)
    requires Least(s, base, Members(order), Given(s, Members(order), Flagged(s)), Flagged(t))
    ensures e < |s| == |t| && s[e].links.call.Some? && s[e].links.inputs.Some? && NoComptime !in s[e].data.flags
    ensures s[e].links.call.value < |s| && s[s[e].links.call.value].links.typeOf.Some?
    ensures Resolve(s, s[s[e].links.call.value].links.typeOf.value).Some?
    ensures var inputs, ft := s[e].links.inputs.value, Resolve(s, s[s[e].links.call.value].links.typeOf.value).value;
            Comptime in t[e].data.flags <==>
              || (forall x :: x in inputs ==> x < |t| && (Comptime in t[x].data.flags || t[x].data.typeDef.Some?))
              || (ft < |t| && Comptime in t[ft].data.flags)
  {
    var start, flags := Given(s, Members(order), Flagged(s)), Flagged(t);
    LeastParts(s, base, Members(order), start, flags);
    assert Stepped(s, base, flags, e) == flags by { assert e in Members(order); }
    assert e in flags <==> Premise(s, flags, e);
    hide Least, Stepped, Fixed, Given, Followable;
    forall x ensures IsTypeDefinition(t, x) <==> IsTypeDefinition(s, x) { SameEntity(s, t, x); }
  }

  lemma {:induction false} NoCallAtRest(s: Store, t: Store, base: Id, order: seq<Id>, e: Id)
    requires SameRules(s, t) && e < |s| && !(e in order && Managed(s, e))
    requires Least(s, base, Members(order), Given(s, Members(order), Flagged(s)), Flagged(t))
    ensures |t| == |s| && (Comptime in t[e].data.flags <==> Comptime in s[e].data.flags || (e in order && Always(s, base, e)))
    ensures !(e in order && Always(s, base, e)) ==> t[e] == s[e]
  {
    var start := Given(s, Members(order), Flagged(s));
    LeastStart(s, base, order, start, Flagged(t), e);
    assert e in start <==> Comptime in s[e].data.flags;
    assert e in Flagged(t) <==> Comptime in t[e].data.flags;
    assert Unflagged(t[e]) == Unflagged(s[e]);
    hide Least, Always, Managed, SameRules, Given;
    if Comptime in t[e].data.flags <==> Comptime in s[e].data.flags { SameFlags(s[e], t[e]); }
  }

  lemma {:induction false} SameFlags(x: Entity, y: Entity)
    requires Unflagged(y) == Unflagged(x) && (Comptime in y.data.flags <==> Comptime in x.data.flags)
    ensures y == x
  {
    assert forall f :: f in y.data.flags <==> (f == Comptime && f in x.data.flags) || f in Unflagged(x).data.flags;
    assert y.data.flags == x.data.flags;
    assert y.data == Unflagged(y).data.(flags := y.data.flags) && x.data == Unflagged(x).data.(flags := x.data.flags);
  }

  lemma {:induction false} Finished(s: Store, t: Store, base: Id, order: seq<Id>, sweeps: nat)
    requires SameRules(s, t) && forall e {:trigger e in order} :: e in order ==> Followable(s, e)
    requires Justified(s, base, Members(order), Flagged(s)) && Flagged(t) == Iterated(s, base, Flagged(s), order, sweeps)
    requires Fixed(s, base, Members(order), Flagged(t))
    ensures Least(s, base, Members(order), Given(s, Members(order), Flagged(s)), Flagged(t))
    ensures Supported(s, Members(order), Flagged(s)) ==> Flagged(s) <= Flagged(t)
    ensures |t| == |s|
    // what is not visited, or neither a call nor a value, or not to be known, is as it was
    ensures forall e: Id {:trigger t[e]} :: e < |t| ==>
              e !in order || NoComptime in s[e].data.flags
              || (if s[e].links.call.Some? then s[e].links.inputs.None? else s[e].links.typeOf.None?) ==>
              t[e] == s[e]
    // a value has the flag if it had it or its type says so
    ensures forall e {:trigger e in order} :: e in order && e < |t| ==>
              NoComptime !in s[e].data.flags && s[e].links.call.None? && s[e].links.typeOf.Some? ==>
              var ty := BaseType(s, s[e].links.typeOf.value);
              && ty.Some?
              && (Comptime in t[e].data.flags <==>
                    || Comptime in s[e].data.flags
                    || (ty.value < |s| && s[ty.value].links.call == Some(base))
                    || (ty.value < |s| && s[ty.value].data.typeDef.Some? && AlwaysComptime in s[ty.value].data.flags))
    // a call has the flag if its inputs have it now, types having it anyway, or the type of its function has it
    ensures forall e {:trigger e in order} :: e in order && e < |t| ==>
              NoComptime !in s[e].data.flags && s[e].links.call.Some? && s[e].links.inputs.Some? ==>
              var inputs, fd := s[e].links.inputs.value, s[e].links.call.value;
              && fd < |s| && s[fd].links.typeOf.Some? && Resolve(s, s[fd].links.typeOf.value).Some?
              && var ft := Resolve(s, s[fd].links.typeOf.value).value;
                 (Comptime in t[e].data.flags <==>
                    || (forall x :: x in inputs ==> x < |t| && (Comptime in t[x].data.flags || t[x].data.typeDef.Some?))
                    || (ft < |t| && Comptime in t[ft].data.flags))
  {
    hide *;
    var least := Between(s, base, order, Flagged(s), sweeps);
    if Supported(s, Members(order), Flagged(s)) { EverySweepOnlyAdds(s, base, order, Flagged(s), sweeps); }
    LeastMeans(s, t, base, order);
  }

  /**
   Sweeps until nothing changes.  If no call starts with a flag the rules would not give it (none at all,
   say), this stops after at most one sweep more than there are entities to visit, and ends in the least
   fixed point of the rules, which does not depend on the order of visits.
   */
  method FixedPoint(mod: Module, order: seq<Id>, base: Id) returns (ghost sweeps: nat)
    requires forall e {:trigger e in order} :: e in order ==> Followable(mod.ents, e)
    requires Justified(mod.ents, base, Members(order), Flagged(mod.ents))
    modifies mod
    ensures SameRules(old(mod.ents), mod.ents)
    ensures Least(old(mod.ents), base, Members(order), Given(old(mod.ents), Members(order), Flagged(old(mod.ents))), Flagged(mod.ents))
    ensures 1 <= sweeps <= |Members(order)| + 1
    ensures Supported(old(mod.ents), Members(order), Flagged(old(mod.ents))) ==> Flagged(old(mod.ents)) <= Flagged(mod.ents)
    ensures |mod.ents| == |old(mod.ents)|
    // what is not visited, or neither a call nor a value, or not to be known, is as it was
    ensures forall e: Id {:trigger mod.ents[e]} :: e < |mod.ents| ==>
              var s, t := old(mod.ents), mod.ents;
              e !in order || NoComptime in s[e].data.flags
              || (if s[e].links.call.Some? then s[e].links.inputs.None? else s[e].links.typeOf.None?) ==>
              t[e] == s[e]
    // a value has the flag if it had it or its type says so
    ensures forall e {:trigger e in order} :: e in order && e < |mod.ents| ==>
              var s, t := old(mod.ents), mod.ents;
              NoComptime !in s[e].data.flags && s[e].links.call.None? && s[e].links.typeOf.Some? ==>
              var ty := BaseType(s, s[e].links.typeOf.value);
              && ty.Some?
              && (Comptime in t[e].data.flags <==>
                    || Comptime in s[e].data.flags
                    || (ty.value < |s| && s[ty.value].links.call == Some(base))
                    || (ty.value < |s| && s[ty.value].data.typeDef.Some? && AlwaysComptime in s[ty.value].data.flags))
    // a call has the flag if its inputs have it now, types having it anyway, or the type of its function has it
    ensures forall e {:trigger e in order} :: e in order && e < |mod.ents| ==>
              var s, t := old(mod.ents), mod.ents;
              NoComptime !in s[e].data.flags && s[e].links.call.Some? && s[e].links.inputs.Some? ==>
              var inputs, fd := s[e].links.inputs.value, s[e].links.call.value;
              && fd < |s| && s[fd].links.typeOf.Some? && Resolve(s, s[fd].links.typeOf.value).Some?
              && var ft := Resolve(s, s[fd].links.typeOf.value).value;
                 (Comptime in t[e].data.flags <==>
                    || (forall x :: x in inputs ==> x < |t| && (Comptime in t[x].data.flags || t[x].data.typeDef.Some?))
                    || (ft < |t| && Comptime in t[ft].data.flags))
  {
    hide *;
    ghost var s, f, m := mod.ents, Flagged(mod.ents), Members(order);
    SameSelf(s);
    var changed := true;
    sweeps := 0;
    IteratedNext(s, base, f, order, 0);
    while changed
      invariant SameRules(s, mod.ents) && Flagged(mod.ents) == Iterated(s, base, f, order, sweeps)
      invariant sweeps <= |m| + 1 && (sweeps == |m| + 1 ==> !changed) && (sweeps == 0 ==> changed)
      invariant !changed ==> Fixed(s, base, m, Flagged(mod.ents))
      decreases |m| + 1 - sweeps
    {
      ghost var t, before := mod.ents, Flagged(mod.ents);
      SweepSame(s, t, base, before, order);
      changed := false;
      changed := Sweep(mod, order, base, changed);
      SameTrans(s, t, mod.ents);
      ghost var least := Between(s, base, order, f, sweeps);
      LeastParts(s, base, m, Given(s, m, f), least);
      if Fixed(s, base, m, before) { FixedStill(s, base, order, before); }
      IteratedNext(s, base, f, order, sweeps);
      sweeps := sweeps + 1;
    }
    Finished(s, mod.ents, base, order, sweeps);
  }

  lemma {:induction false} IteratedNext(s: Store, base: Id, flags: set<Id>, order: seq<Id>, n: nat)
    ensures Iterated(s, base, flags, order, 0) == flags
    ensures Iterated(s, base, flags, order, n + 1) == Swept(s, base, Iterated(s, base, flags, order, n), order)
  {}

  // A sweep and its fixed points are those of the rules, whatever the flags are by now.
  lemma {:induction false} SweepSame(s: Store, t: Store, base: Id, flags: set<Id>, order: seq<Id>)
    requires SameRules(s, t)
    ensures Swept(t, base, flags, order) == Swept(s, base, flags, order)
    ensures Fixed(t, base, Members(order), flags) <==> Fixed(s, base, Members(order), flags)
    ensures forall e {:trigger Followable(t, e)} :: Followable(t, e) <==> Followable(s, e)
  {
    hide SameRules, Followable, Stepped;
    SweptSame(s, t, base, flags, order);
    forall e: Id ensures (Followable(t, e) <==> Followable(s, e)) && Stepped(t, base, flags, e) == Stepped(s, base, flags, e) {
      SameRule(s, t, base, e);
      SameStep(s, t, base, flags, e);
    }
  }

  lemma {:induction false} SweptSame(s: Store, t: Store, base: Id, flags: set<Id>, order: seq<Id>)
    requires SameRules(s, t)
    ensures Swept(t, base, flags, order) == Swept(s, base, flags, order)
    decreases |order|
  {
    hide SameRules, Stepped;
    if order != [] {
      SameStep(s, t, base, flags, order[0]);
      SweptSame(s, t, base, Stepped(s, base, flags, order[0]), order[1..]);
    }
  }

  /** With no flag on any call the start is justified. */
  lemma {:induction false} NoFlagsJustified(s: Store, base: Id, domain: set<Id>, flags: set<Id>)
    requires forall e {:trigger e in domain} :: e in domain && Managed(s, e) ==> e !in flags
    ensures Justified(s, base, domain, flags)
  {
    hide Managed, Premise, Always;
    assert Given(s, domain, flags) == flags;
  }

  /** Least fixed points are unique: only what is visited matters, not when. */
  lemma {:induction false} LeastUnique(s: Store, base: Id, domain: set<Id>, start: set<Id>, a: set<Id>, b: set<Id>)
    requires Least(s, base, domain, start, a) && Least(s, base, domain, start, b)
    ensures a == b
  {
    LeastParts(s, base, domain, start, a);
    LeastParts(s, base, domain, start, b);
    FixedClosed(s, base, domain, start, a);
    FixedClosed(s, base, domain, start, b);
    hide Fixed, Closed;
  }
}
