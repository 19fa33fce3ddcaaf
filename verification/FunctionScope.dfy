/** Is an entity inside of a function?  `resolve_type_modifications` and `find_function_inside_of` of interface.resolve.cpp. */
module FunctionScope {
  import opened Wrappers
  import opened Store
  import opened Shapes
  import opened SortWalk
  import opened Renumber
  import opened CanonicalForm
  import opened Idempotence
  import opened NameLookup

  predicate HasReturnType(s: Store, e: Id) {
    e < |s| && s[e].links.returnType.Some?
  }

  // A type with the modifier calls around it stripped; `None` when that goes on for ever or an input is missing.
  function Unmodified(s: Store, modifiers: set<Id>, ty: Id, fuel: nat): Option<Id>
    decreases fuel
  {
    if ty < |s| && s[ty].links.call.Some? then
      if s[ty].links.call.value !in modifiers then Some(ty)
      else if fuel == 0 || s[ty].links.inputs.None? || s[ty].links.inputs.value == [] then None
      else Unmodified(s, modifiers, s[ty].links.inputs.value[0], fuel - 1)
    else Resolve(s, ty)
  }

  method ResolveTypeModifications(s: Store, modifiers: set<Id>, ty: Id) returns (r: Id)
    requires Unmodified(s, modifiers, ty, |s|).Some?
    ensures Some(r) == Unmodified(s, modifiers, ty, |s|)
  {
    r := ty;
    ghost var fuel: nat := |s|;
    while r < |s| && s[r].links.call.Some?
      invariant Unmodified(s, modifiers, r, fuel) == Unmodified(s, modifiers, ty, |s|)
      decreases fuel
    {
      if s[r].links.call.value !in modifiers { return; }
      r := s[r].links.inputs.value[0];
      fuel := fuel - 1;
    }
    r := FollowAliases(s, r);
  }

  // A function or something of a function type.
  predicate FunctionLike(s: Store, modifiers: set<Id>, e: Id) {
    || HasReturnType(s, e)
    || (e < |s| && s[e].links.typeOf.Some? &&
        var ty := Unmodified(s, modifiers, s[e].links.typeOf.value, |s|);
        ty.Some? && HasReturnType(s, ty.value))
  }

  ghost predicate TypesResolve(s: Store, modifiers: set<Id>) {
    forall e {:trigger s[e]} :: 0 <= e < |s| && s[e].links.typeOf.Some? ==> Unmodified(s, modifiers, s[e].links.typeOf.value, |s|).Some?
  }

  // What follows on a line; nothing follows its end.
  function Next(line: seq<Id>, i: nat): Id {
    if i + 1 < |line| then line[i + 1] else INVALID
  }

  // The way from an entity up to the root, one `find_parent` at a time.
  ghost predicate Line(s: Store, e: Id, line: seq<Id>) {
    && line != [] && line[0] == e
    && forall i: nat {:trigger Next(line, i)} :: i < |line| ==>
         line[i] != INVALID && FindParent(s, line[i]) == Next(line, i) != line[i]
  }

  ghost function FirstFunction(s: Store, modifiers: set<Id>, line: seq<Id>): Id
    decreases |line|
  {
    if line == [] then INVALID
    else if FunctionLike(s, modifiers, line[0]) then line[0]
    else FirstFunction(s, modifiers, line[1..])
  }

  lemma {:induction false} FirstMeans(s: Store, modifiers: set<Id>, line: seq<Id>)
    requires forall i :: 0 <= i < |line| ==> line[i] != INVALID
    ensures var r := FirstFunction(s, modifiers, line);
            && (r != INVALID ==> r in line && FunctionLike(s, modifiers, r))
            && forall i :: 0 <= i < |line| && r !in line[..i + 1] ==> !FunctionLike(s, modifiers, line[i])
    decreases |line|
  {
    hide FunctionLike;
    if line != [] && !FunctionLike(s, modifiers, line[0]) {
      var r := FirstFunction(s, modifiers, line);
      FirstMeans(s, modifiers, line[1..]);
      forall i | 0 <= i < |line| && r !in line[..i + 1] ensures !FunctionLike(s, modifiers, line[i]) {
        if i > 0 {
          assert line[..i + 1] == [line[0]] + line[1..][..i];
          assert line[1..][i - 1] == line[i];
        }
      }
    } else if line != [] {
      forall i {:trigger line[i]} | 0 <= i < |line| ensures line[0] in line[..i + 1] { assert line[..i + 1][0] == line[0]; }
    }
  }

  lemma {:induction false} LineThere(s: Store, e: Id, line: seq<Id>)
    requires Line(s, e, line)
    ensures forall i :: 0 <= i < |line| ==> line[i] != INVALID
  {
    hide FindParent;
    forall i | 0 <= i < |line| ensures line[i] != INVALID { assert Next(line, i) != line[i]; }
  }

  lemma {:induction false} TypesThere(s: Store, modifiers: set<Id>, line: seq<Id>)
    requires TypesResolve(s, modifiers)
    ensures forall i :: 0 <= i < |line| && line[i] < |s| && s[line[i]].links.typeOf.Some? ==>
              Unmodified(s, modifiers, s[line[i]].links.typeOf.value, |s|).Some?
  {
    hide Unmodified;
  }

  method FindFunctionInsideOf(s: Store, modifiers: set<Id>, start: Id, ghost line: seq<Id>) returns (r: Id)
    requires TypesResolve(s, modifiers) && Line(s, start, line)
    ensures r == FirstFunction(s, modifiers, line)
    // it has a return type, or its type without modifiers has one
    ensures r != INVALID ==> r in line && r < |s|
    ensures r != INVALID && s[r].links.returnType.None? ==>
              s[r].links.typeOf.Some? &&
              var ty := Unmodified(s, modifiers, s[r].links.typeOf.value, |s|);
              ty.Some? && ty.value < |s| && s[ty.value].links.returnType.Some?
    // and nothing before it does
    ensures forall i :: 0 <= i < |line| && r !in line[..i + 1] && line[i] < |s| ==>
              && s[line[i]].links.returnType.None?
              && (s[line[i]].links.typeOf.Some? ==>
                    var ty := Unmodified(s, modifiers, s[line[i]].links.typeOf.value, |s|);
                    ty.Some? && (ty.value < |s| ==> s[ty.value].links.returnType.None?))
  {
    hide FindParent;
    LineThere(s, start, line);
    FirstMeans(s, modifiers, line);
    TypesThere(s, modifiers, line);
    assert line[0] != INVALID by { assert Next(line, 0) != line[0]; }
    var subtree, last := start, INVALID;
    ghost var i: nat := 0;
    while subtree != INVALID && subtree != last
      invariant i <= |line| && FirstFunction(s, modifiers, line[i..]) == FirstFunction(s, modifiers, line)
      invariant if i < |line| then subtree == line[i] != last else subtree == INVALID
      invariant i < |line| ==> line[i] != INVALID
      decreases |line| - i
    {
      if subtree < |s| && s[subtree].links.returnType.Some? { return subtree; }
      if subtree < |s| && s[subtree].links.typeOf.Some? {
        var ty := ResolveTypeModifications(s, modifiers, s[subtree].links.typeOf.value);
        if ty < |s| && s[ty].links.returnType.Some? { return subtree; }
      }
      last := subtree;
      assert FindParent(s, line[i]) == Next(line, i);
      subtree := FindParent(s, subtree);
      assert line[i..][1..] == line[i + 1..];
      i := i + 1;
      assert i < |line| ==> Next(line, i) != line[i];
    }
    r := INVALID;
  }

  // ---------- lines of a tree ----------

  // Nothing lists the root, so climbing stops there.
  ghost predicate Topmost(s: Store, root: Id) {
    root < |s| && s[root].parent.None? && forall e: Id {:trigger Children(s, e)} :: root !in Children(s, e)
  }

  lemma {:induction false} TopmostParent(s: Store, root: Id)
    requires Topmost(s, root) && root != INVALID
    ensures FindParent(s, root) == INVALID
  {
    FindBlockIsLeast(s, root, root);
    forall k: Id ensures !IsBlock(s, k, root) { assert root !in Children(s, k); }
  }

  lemma {:induction false} RootLine(s: Store, root: Id)
    requires Topmost(s, root) && root != INVALID
    ensures Line(s, root, [root])
  {
    TopmostParent(s, root);
    assert Next([root], 0) == INVALID;
  }

  lemma {:induction false} LineBelow(s: Store, p: Id, line: seq<Id>, e: Id)
    requires Line(s, p, line) && FindParent(s, e) == p && e != INVALID && e != p
    ensures Line(s, e, [e] + line)
  {
    hide FindParent;
    var longer := [e] + line;
    forall i: nat | i < |longer| ensures longer[i] != INVALID && FindParent(s, longer[i]) == Next(longer, i) != longer[i] {
      if i > 0 {
        assert longer[i] == line[i - 1];
        assert Next(longer, i) == Next(line, i - 1) != line[i - 1];
      }
    }
  }

  lemma {:induction false} FirstBelow(s: Store, modifiers: set<Id>, line: seq<Id>, e: Id)
    requires INVALID !in line && e != INVALID
    ensures FirstFunction(s, modifiers, [e] + line) != INVALID <==>
              FunctionLike(s, modifiers, e) || FirstFunction(s, modifiers, line) != INVALID
  {
    assert ([e] + line)[1..] == line;
  }

  // ---------- a renumbering keeps the answer ----------

  // `b` is `a` with every id renamed.
  ghost predicate Matches(m: Renaming, a: set<Id>, b: set<Id>) {
    forall x: Id {:trigger Sub(m, x)} :: x in a <==> Sub(m, x) in b
  }

  lemma {:induction false} MovedOutside(s: Store, t: Store, order: seq<Id>, inv: Renaming, e: Id)
    requires Renumbered(s, t, order, inv)
    ensures e < |s| <==> Sub(inv, e) < |t|
    ensures e < |s| ==> t[Sub(inv, e)] == MapRefs(inv, s[e])
  {
    SameLengths(s, t, order, inv);
    if e < |s| { MovedEntity(s, t, order, inv, e); }
  }

  lemma {:induction false} ResolveMoved(s: Store, t: Store, order: seq<Id>, inv: Renaming, e: Id, fuel: nat)
    requires Renumbered(s, t, order, inv)
    ensures ResolveIn(t, Sub(inv, e), fuel) == SubOpt(inv, ResolveIn(s, e, fuel))
    decreases fuel
  {
    MovedOutside(s, t, order, inv, e);
    hide Renumbered;
    if e < |s| && s[e].links.alias.Some? && fuel > 0 {
      ResolveMoved(s, t, order, inv, s[e].links.alias.value, fuel - 1);
    }
  }

  lemma {:induction false} UnmodifiedMoved(s: Store, t: Store, order: seq<Id>, inv: Renaming, mods: set<Id>, mods': set<Id>, ty: Id, fuel: nat)
    requires Renumbered(s, t, order, inv) && Matches(inv, mods, mods')
    ensures Unmodified(t, mods', Sub(inv, ty), fuel) == SubOpt(inv, Unmodified(s, mods, ty, fuel))
    decreases fuel
  {
    MovedOutside(s, t, order, inv, ty);
    SameLengths(s, t, order, inv);
    ResolveMoved(s, t, order, inv, ty, |s|);
    hide Renumbered;
    if ty < |s| && s[ty].links.call.Some? && s[ty].links.call.value in mods && s[ty].links.inputs.Some? && s[ty].links.inputs.value != [] && fuel > 0 {
      UnmodifiedMoved(s, t, order, inv, mods, mods', s[ty].links.inputs.value[0], fuel - 1);
    }
  }

  lemma {:induction false} FunctionLikeMoved(s: Store, t: Store, order: seq<Id>, inv: Renaming, mods: set<Id>, mods': set<Id>, e: Id)
    requires Renumbered(s, t, order, inv) && Matches(inv, mods, mods')
    ensures FunctionLike(t, mods', Sub(inv, e)) <==> FunctionLike(s, mods, e)
  {
    MovedOutside(s, t, order, inv, e);
    SameLengths(s, t, order, inv);
    hide Matches, Unmodified;
    if e < |s| && s[e].links.typeOf.Some? {
      var ty := s[e].links.typeOf.value;
      UnmodifiedMoved(s, t, order, inv, mods, mods', ty, |s|);
      var u := Unmodified(s, mods, ty, |s|);
      if u.Some? { MovedOutside(s, t, order, inv, u.value); }
    }
    hide Renumbered;
  }

  // References alone decide, so sorting child lists changes nothing either.
  lemma {:induction false} FunctionLikeSame(s: Store, t: Store, mods: set<Id>, e: Id)
    requires |t| == |s| && forall y {:trigger t[y]} :: 0 <= y < |s| ==> t[y].links == s[y].links
    ensures FunctionLike(t, mods, e) <==> FunctionLike(s, mods, e)
  {
    if e < |s| && s[e].links.typeOf.Some? { UnmodifiedSame(s, t, mods, s[e].links.typeOf.value, |s|); }
  }

  lemma {:induction false} UnmodifiedSame(s: Store, t: Store, mods: set<Id>, ty: Id, fuel: nat)
    requires |t| == |s| && forall y {:trigger t[y]} :: 0 <= y < |s| ==> t[y].links == s[y].links
    ensures Unmodified(t, mods, ty, fuel) == Unmodified(s, mods, ty, fuel)
    decreases fuel
  {
    if ty < |s| && s[ty].links.call.Some? {
      if s[ty].links.call.value in mods && fuel > 0 && s[ty].links.inputs.Some? && s[ty].links.inputs.value != [] {
        UnmodifiedSame(s, t, mods, s[ty].links.inputs.value[0], fuel - 1);
      }
    } else {
      ResolveSame(s, t, ty, |s|);
    }
  }
}
