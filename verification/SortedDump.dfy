/** Sorting does not change the bytes: sema/canonicalize/sort.cpp against temp_byte_dumper.hpp. */
module SortedDump {
  import opened Wrappers
  import opened Store
  import opened Shapes
  import opened SortWalk
  import opened Renumber
  import opened CanonicalForm
  import opened Idempotence
  import opened FunctionScope
  import opened Dump

  // ---------- inside of functions nothing is emitted, so order does not matter there ----------

  lemma {:induction false} SilentInside(s: Store, k: Emitters, mods: set<Id>, f: Forest)
    ensures Emitted(s, k, mods, f, true) == []
  {
    if f.Cons? {
      SilentInside(s, k, mods, f.kids);
      SilentInside(s, k, mods, f.rest);
    }
  }

  ghost predicate TypedLeaves(s: Store, ids: set<Id>) {
    forall x {:trigger x in ids} :: x in ids && !HasBlock(s, x) ==> Typed(s, x)
  }

  lemma {:induction false} InsideNeedsTypes(s: Store, k: Emitters, mods: set<Id>, f: Forest, seen: set<Id>)
    requires Rep(s, f)
    ensures DefinedBeforeUse(s, k, mods, f, true, seen) <==> TypedLeaves(s, Ids(f))
    decreases f
  {
    if f.Cons? {
      hide Typed, Defined, OperandReady, FunctionLike;
      var now := if HasBlock(s, f.id) then Defined(s, k, f.kids) else Defined(s, k, Cons(f.id, Nil, Nil));
      InsideNeedsTypes(s, k, mods, f.kids, seen);
      InsideNeedsTypes(s, k, mods, f.rest, seen + now);
      if !HasBlock(s, f.id) { RootsNonEmpty(f.kids); }
      LeavesOf(s, f);
    }
  }

  lemma {:induction false} LeavesOf(s: Store, f: Forest)
    requires f.Cons?
    ensures TypedLeaves(s, Ids(f)) <==> (HasBlock(s, f.id) || Typed(s, f.id)) && TypedLeaves(s, Ids(f.kids)) && TypedLeaves(s, Ids(f.rest))
  {
    hide Typed;
    assert f.id in Ids(f);
    assert forall x {:trigger x in Ids(f)} :: x in Ids(f) <==> x == f.id || x in Ids(f.kids) || x in Ids(f.rest);
    assert forall x :: x in Ids(f.kids) ==> x in Ids(f);
    assert forall x :: x in Ids(f.rest) ==> x in Ids(f);
  }

  // ---------- sorting child lists ----------

  // What stays the same for every entity.
  ghost predicate SameBut(s: Store, m: Store, ids: set<Id>) {
    && |m| == |s| && Resorted(s, m, ids)
    && forall y {:trigger m[y]} :: 0 <= y < |s| ==> m[y].links == s[y].links && m[y].data == s[y].data
  }

  lemma {:induction false} SameButIntro(s: Store, m: Store, ids: set<Id>)
    requires Resorted(s, m, ids)
    ensures SameBut(s, m, ids)
  {
    ResortedData(s, m, ids);
  }

  lemma {:induction false} SameLeaf(s: Store, m: Store, ids: set<Id>, k: Emitters, e: Id)
    requires SameBut(s, m, ids)
    ensures HasBlock(m, e) <==> HasBlock(s, e)
    ensures ValueOf(m, k, e) == ValueOf(s, k, e) && (Typed(m, e) <==> Typed(s, e))
    ensures Emits(m, k, e) <==> Emits(s, k, e)
    ensures Operand(m, e) == Operand(s, e)
  {
    if e < |s| {
      ResortedAt(s, m, ids, e);
      assert m[e].links == s[e].links;
    }
  }

  lemma {:induction false} SameEmission(s: Store, m: Store, ids: set<Id>, k: Emitters, e: Id, seen: set<Id>)
    requires SameBut(s, m, ids)
    ensures EmittedBy(m, k, e) == EmittedBy(s, k, e)
    ensures OperandReady(m, k, e, seen) <==> OperandReady(s, k, e, seen)
  {
    SameLeaf(s, m, ids, k, e);
    if Emits(s, k, e) { assert m[e].links == s[e].links; }
    if Operand(s, e).Some? { SameLeaf(s, m, ids, k, Operand(s, e).value); }
    hide SameBut, ValueOf, Emits, Operand, Typed;
  }

  // The children before and after have the same members.
  lemma {:induction false} SameChildren(s: Store, m: Store, ids: set<Id>, e: Id, x: Id)
    requires SameBut(s, m, ids) && e < |s|
    ensures x in Children(m, e) <==> x in Children(s, e)
    ensures !Sorts(s[e]) ==> Children(m, e) == Children(s, e)
  {
    ResortedAt(s, m, ids, e);
    if m[e] != s[e] { PermutedMember(Children(m, e), Children(s, e), x); }
  }

  // So what hangs below is the same, in some order.
  lemma {:induction false} SameBelow(s: Store, m: Store, ids: set<Id>, f: Forest, g: Forest, z: Id)
    requires SameBut(s, m, ids) && Rep(s, f) && Rep(m, g) && NoDup(f) && z in Ids(f)
    requires forall x :: x in Roots(f) ==> x in Roots(g)
    ensures z in Ids(g)
    decreases Size(f)
  {
    var i := RootOf(f, z);
    var r := Roots(f)[i];
    PickRep(s, f, r);
    PickRep(m, g, r);
    PickIds(g, r);
    PickNoDup(f, r);
    hide SameBut, Rep, NoDup, Roots, Pick, Ids;
    if z != r {
      forall x | x in Roots(Pick(f, r)) ensures x in Roots(Pick(g, r)) { SameChildren(s, m, ids, r, x); }
      SameBelow(s, m, ids, Pick(f, r), Pick(g, r), z);
    }
  }

  lemma {:induction false} SameBack(s: Store, m: Store, ids: set<Id>, f: Forest, g: Forest, z: Id)
    requires SameBut(s, m, ids) && Rep(s, f) && Rep(m, g) && NoDup(g) && z in Ids(g)
    requires forall x :: x in Roots(g) ==> x in Roots(f)
    ensures z in Ids(f)
    decreases Size(g)
  {
    var i := RootOf(g, z);
    var r := Roots(g)[i];
    PickRep(s, f, r);
    PickRep(m, g, r);
    PickIds(f, r);
    PickNoDup(g, r);
    hide SameBut, Rep, NoDup, Roots, Pick, Ids;
    if z != r {
      forall x | x in Roots(Pick(g, r)) ensures x in Roots(Pick(f, r)) { SameChildren(s, m, ids, r, x); }
      SameBack(s, m, ids, Pick(f, r), Pick(g, r), z);
    }
  }

  lemma {:induction false} SameIds(s: Store, m: Store, ids: set<Id>, f: Forest, g: Forest)
    requires SameBut(s, m, ids) && Rep(s, f) && Rep(m, g) && NoDup(f) && NoDup(g)
    requires forall x :: x in Roots(f) <==> x in Roots(g)
    ensures Ids(f) == Ids(g)
  {
    hide *;
    forall z ensures z in Ids(f) <==> z in Ids(g) {
      if z in Ids(f) { SameBelow(s, m, ids, f, g, z); }
      if z in Ids(g) { SameBack(s, m, ids, f, g, z); }
    }
  }

  lemma {:induction false} SameTypes(s: Store, m: Store, ids: set<Id>, k: Emitters, a: set<Id>)
    requires SameBut(s, m, ids)
    ensures TypedLeaves(m, a) <==> TypedLeaves(s, a)
  {
    forall e: Id ensures (HasBlock(m, e) <==> HasBlock(s, e)) && (Typed(m, e) <==> Typed(s, e)) { SameLeaf(s, m, ids, k, e); }
  }

  lemma {:induction false} SameDefined(s: Store, m: Store, ids: set<Id>, k: Emitters, f: Forest, g: Forest)
    requires SameBut(s, m, ids) && Ids(f) == Ids(g)
    ensures Defined(m, k, g) == Defined(s, k, f)
  {
    forall e: Id ensures (HasBlock(m, e) <==> HasBlock(s, e)) && ValueOf(m, k, e) == ValueOf(s, k, e) { SameLeaf(s, m, ids, k, e); }
  }

  ghost predicate SameMeaning(s: Store, m: Store, k: Emitters, mods: set<Id>, f: Forest, g: Forest, inside: bool, seen: set<Id>) {
    && Emitted(m, k, mods, g, inside) == Emitted(s, k, mods, f, inside)
    && (DefinedBeforeUse(s, k, mods, f, inside, seen) ==> DefinedBeforeUse(m, k, mods, g, inside, seen))
  }

  // Inside of a function, whatever the order.
  lemma {:induction false} InsideSame(s: Store, m: Store, ids: set<Id>, k: Emitters, mods: set<Id>, f: Forest, g: Forest, seen: set<Id>)
    requires SameBut(s, m, ids) && Rep(s, f) && Rep(m, g) && NoDup(f) && NoDup(g)
    requires forall x :: x in Roots(f) <==> x in Roots(g)
    ensures SameMeaning(s, m, k, mods, f, g, true, seen)
  {
    hide Rep, NoDup, Roots, Ids, SameBut, TypedLeaves, Emitted, DefinedBeforeUse;
    SameIds(s, m, ids, f, g);
    SilentInside(s, k, mods, f);
    SilentInside(m, k, mods, g);
    InsideNeedsTypes(s, k, mods, f, seen);
    InsideNeedsTypes(m, k, mods, g, seen);
    SameTypes(s, m, ids, k, Ids(f));
  }

  lemma {:induction false} RearrangedMeaning(s: Store, m: Store, ids: set<Id>, k: Emitters, mods: set<Id>,
                                             f: Forest, g: Forest, inside: bool, seen: set<Id>)
    requires SameBut(s, m, ids) && Rep(s, f) && Rep(m, g) && NoDup(f) && NoDup(g) && Roots(f) == Roots(g)
    ensures SameMeaning(s, m, k, mods, f, g, inside, seen)
    decreases f
  {
    if f.Cons? || g.Cons? {
      Heads(s, m, f, g);
      var e := f.id;
      var now := if HasBlock(s, e) then Defined(s, k, f.kids) else Defined(s, k, Cons(e, Nil, Nil));
      var within := inside || FunctionLike(s, mods, e);
      assert Sorts(s[e]) ==> within;
      hide Rep, NoDup, Roots, SameBut, Defined, HasBlock, FunctionLike, Emitted, DefinedBeforeUse, SameMeaning, Children;
      RearrangedMeaning(s, m, ids, k, mods, f.rest, g.rest, inside, seen + now);
      BelowSame(s, m, ids, k, f.kids, g.kids, e);
      if Sorts(s[e]) {
        InsideSame(s, m, ids, k, mods, f.kids, g.kids, seen);
      } else {
        RearrangedMeaning(s, m, ids, k, mods, f.kids, g.kids, within, seen);
      }
      SameLeaf(s, m, ids, k, e);
      SameEmission(s, m, ids, k, e, seen + Defined(s, k, Cons(e, Nil, Nil)));
      SameDefined(s, m, ids, k, Cons(e, Nil, Nil), Cons(e, Nil, Nil));
      SameRoot(s, m, ids, mods, e);
      MeaningStep(s, m, k, mods, f, g, inside, seen, within, now);
    }
  }

  lemma {:induction false} Heads(s: Store, m: Store, f: Forest, g: Forest)
    requires Rep(s, f) && Rep(m, g) && NoDup(f) && NoDup(g) && Roots(f) == Roots(g) && (f.Cons? || g.Cons?)
    ensures f.Cons? && g.Cons? && f.id == g.id && Roots(f.rest) == Roots(g.rest)
    ensures f.id < |s| && Rep(s, f.kids) && Rep(m, g.kids) && NoDup(f.kids) && NoDup(g.kids)
    ensures Rep(s, f.rest) && Rep(m, g.rest) && NoDup(f.rest) && NoDup(g.rest)
    ensures Children(s, f.id) == Roots(f.kids) && Children(m, g.id) == Roots(g.kids)
  {
    RootsNonEmpty(f);
    RootsNonEmpty(g);
    assert Roots(f)[0] == f.id && Roots(g)[0] == g.id;
    assert Roots(f)[1..] == Roots(f.rest) && Roots(g)[1..] == Roots(g.rest);
  }

  lemma {:induction false} MeaningStep(s: Store, m: Store, k: Emitters, mods: set<Id>, f: Forest, g: Forest, inside: bool,
                                       seen: set<Id>, within: bool, now: set<Id>)
    requires f.Cons? && g.Cons? && f.id == g.id && within == (inside || FunctionLike(s, mods, f.id))
    requires (HasBlock(m, f.id) <==> HasBlock(s, f.id)) && (FunctionLike(m, mods, f.id) <==> FunctionLike(s, mods, f.id))
    requires now == if HasBlock(s, f.id) then Defined(s, k, f.kids) else Defined(s, k, Cons(f.id, Nil, Nil))
    requires Defined(m, k, g.kids) == Defined(s, k, f.kids) && Defined(m, k, Cons(f.id, Nil, Nil)) == Defined(s, k, Cons(f.id, Nil, Nil))
    requires SameMeaning(s, m, k, mods, f.kids, g.kids, within, seen) && SameMeaning(s, m, k, mods, f.rest, g.rest, inside, seen + now)
    requires EmittedBy(m, k, f.id) == EmittedBy(s, k, f.id) && (Typed(m, f.id) <==> Typed(s, f.id))
    requires OperandReady(m, k, f.id, seen + Defined(s, k, Cons(f.id, Nil, Nil))) <==>
             OperandReady(s, k, f.id, seen + Defined(s, k, Cons(f.id, Nil, Nil)))
    ensures SameMeaning(s, m, k, mods, f, g, inside, seen)
  {
    hide HasBlock, FunctionLike, Defined, EmittedBy, Typed, OperandReady;
  }

  lemma {:induction false} BelowSame(s: Store, m: Store, ids: set<Id>, k: Emitters, f: Forest, g: Forest, e: Id)
    requires SameBut(s, m, ids) && e < |s| && Rep(s, f) && Rep(m, g) && NoDup(f) && NoDup(g)
    requires Children(s, e) == Roots(f) && Children(m, e) == Roots(g)
    ensures forall x :: x in Roots(f) <==> x in Roots(g)
    ensures !Sorts(s[e]) ==> Roots(f) == Roots(g)
    ensures Defined(m, k, g) == Defined(s, k, f)
  {
    hide Rep, NoDup, SameBut, Defined, Children;
    forall x ensures x in Roots(f) <==> x in Roots(g) { SameChildren(s, m, ids, e, x); }
    SameChildren(s, m, ids, e, e);
    SameIds(s, m, ids, f, g);
    SameDefined(s, m, ids, k, f, g);
  }

  // ---------- renumbering ----------

  function Moved(inv: Renaming, k: Emitters): Emitters {
    Emitters(Sub(inv, k.byteType), Sub(inv, k.bytePointer), Sub(inv, k.emit), Sub(inv, k.emitBytes))
  }

  lemma {:induction false} SubSame(s: Store, t: Store, order: seq<Id>, inv: Renaming, a: Id, b: Id)
    requires Renumbered(s, t, order, inv)
    ensures Sub(inv, a) == Sub(inv, b) <==> a == b
  {
    MovedOutside(s, t, order, inv, a);
    MovedOutside(s, t, order, inv, b);
    SameLengths(s, t, order, inv);
    if a < |s| { MovedEntity(s, t, order, inv, a); }
    if b < |s| { MovedEntity(s, t, order, inv, b); }
  }

  lemma {:induction false} MovedLeaf(s: Store, t: Store, order: seq<Id>, inv: Renaming, k: Emitters, e: Id)
    requires Renumbered(s, t, order, inv)
    ensures HasBlock(t, Sub(inv, e)) <==> HasBlock(s, e)
    ensures ValueOf(t, Moved(inv, k), Sub(inv, e)) == ValueOf(s, k, e) && (Typed(t, Sub(inv, e)) <==> Typed(s, e))
    ensures Emits(t, Moved(inv, k), Sub(inv, e)) <==> Emits(s, k, e)
    ensures Operand(t, Sub(inv, e)) == SubOpt(inv, Operand(s, e))
  {
    MovedOutside(s, t, order, inv, e);
    if e < |s| {
      if s[e].links.typeOf.Some? {
        SubSame(s, t, order, inv, s[e].links.typeOf.value, k.byteType);
        SubSame(s, t, order, inv, s[e].links.typeOf.value, k.bytePointer);
      }
      if s[e].links.call.Some? {
        SubSame(s, t, order, inv, s[e].links.call.value, k.emit);
        SubSame(s, t, order, inv, s[e].links.call.value, k.emitBytes);
      }
    }
    hide Renumbered;
  }

  lemma {:induction false} MovedEmission(s: Store, t: Store, order: seq<Id>, inv: Renaming, k: Emitters, e: Id, seen: set<Id>, seen': set<Id>)
    requires Renumbered(s, t, order, inv) && Matches(inv, seen, seen')
    ensures EmittedBy(t, Moved(inv, k), Sub(inv, e)) == EmittedBy(s, k, e)
    ensures OperandReady(t, Moved(inv, k), Sub(inv, e), seen') <==> OperandReady(s, k, e, seen)
  {
    MovedLeaf(s, t, order, inv, k, e);
    MovedOutside(s, t, order, inv, e);
    if Operand(s, e).Some? { MovedLeaf(s, t, order, inv, k, Operand(s, e).value); }
    if Emits(s, k, e) {
      SubSame(s, t, order, inv, s[e].links.call.value, k.emit);
      assert t[Sub(inv, e)].links.call == SubOpt(inv, s[e].links.call);
    }
    hide Renumbered, ValueOf, Operand, Typed, MapRefs, Sub;
  }

  lemma {:induction false} MatchesUnion(inv: Renaming, a: set<Id>, a': set<Id>, b: set<Id>, b': set<Id>)
    requires Matches(inv, a, a') && Matches(inv, b, b')
    ensures Matches(inv, a + b, a' + b')
  {}

  lemma {:induction false} IdsMatch(s: Store, t: Store, order: seq<Id>, inv: Renaming, f: Forest)
    requires Renumbered(s, t, order, inv)
    ensures Matches(inv, Ids(f), Ids(Rename(inv, f)))
  {
    forall x: Id ensures x in Ids(f) <==> Sub(inv, x) in Ids(Rename(inv, f)) {
      if x in Ids(f) { IdsRenamed(inv, f, x); }
      if Sub(inv, x) in Ids(Rename(inv, f)) {
        var z := RenameIds(inv, f, Sub(inv, x));
        SubSame(s, t, order, inv, x, z);
      }
    }
  }

  lemma {:induction false} MovedDefined(s: Store, t: Store, order: seq<Id>, inv: Renaming, k: Emitters, f: Forest)
    requires Renumbered(s, t, order, inv)
    ensures Matches(inv, Defined(s, k, f), Defined(t, Moved(inv, k), Rename(inv, f)))
  {
    IdsMatch(s, t, order, inv, f);
    hide Renumbered, HasBlock, ValueOf, Ids, Rename, Sub;
    forall x: Id ensures x in Defined(s, k, f) <==> Sub(inv, x) in Defined(t, Moved(inv, k), Rename(inv, f)) {
      MovedLeaf(s, t, order, inv, k, x);
    }
  }

  lemma {:induction false} RenamedMeaning(s: Store, t: Store, order: seq<Id>, inv: Renaming, k: Emitters, mods: set<Id>, mods': set<Id>,
                                          f: Forest, inside: bool, seen: set<Id>, seen': set<Id>)
    requires Renumbered(s, t, order, inv) && Matches(inv, mods, mods') && Matches(inv, seen, seen')
    ensures Emitted(t, Moved(inv, k), mods', Rename(inv, f), inside) == Emitted(s, k, mods, f, inside)
    ensures DefinedBeforeUse(s, k, mods, f, inside, seen) <==>
              DefinedBeforeUse(t, Moved(inv, k), mods', Rename(inv, f), inside, seen')
    decreases f
  {
    if f.Cons? {
      hide Renumbered, Matches, FunctionLike, Typed, OperandReady, EmittedBy, Defined, HasBlock, Moved, Sub;
      var k', e, e', one := Moved(inv, k), f.id, Sub(inv, f.id), Cons(f.id, Nil, Nil);
      var within := inside || FunctionLike(s, mods, e);
      FunctionLikeMoved(s, t, order, inv, mods, mods', e);
      MovedLeaf(s, t, order, inv, k, e);
      assert Rename(inv, one) == Cons(e', Nil, Nil);
      MovedDefined(s, t, order, inv, k, one);
      MovedDefined(s, t, order, inv, k, f.kids);
      MatchesUnion(inv, seen, seen', Defined(s, k, one), Defined(t, k', Cons(e', Nil, Nil)));
      MatchesUnion(inv, seen, seen', Defined(s, k, f.kids), Defined(t, k', Rename(inv, f.kids)));
      MovedEmission(s, t, order, inv, k, e, seen + Defined(s, k, one), seen' + Defined(t, k', Cons(e', Nil, Nil)));
      RenamedMeaning(s, t, order, inv, k, mods, mods', f.kids, within, seen, seen');
      var now := if HasBlock(s, e) then Defined(s, k, f.kids) else Defined(s, k, one);
      var now' := if HasBlock(t, e') then Defined(t, k', Rename(inv, f.kids)) else Defined(t, k', Cons(e', Nil, Nil));
      RenamedMeaning(s, t, order, inv, k, mods, mods', f.rest, inside, seen + now, seen' + now');
    }
  }

  /**
   Sorting preserves the bytes: in a module whose emitted operands are defined before they are used, the
   dumper succeeds before and after, on the renumbered names, and puts out the same bytes.
   */
  lemma {:induction false} SortKeepsBytes(s: Store, root: Id, kids: Forest, t: Store, newRoot: Id, o: Outcome,
                                          k: Emitters, mods: set<Id>, mods': set<Id>)
    requires Canonical(s, root, kids, t, newRoot, o) && Matches(o.inv, mods, mods')
    requires DefinedBeforeUse(s, k, mods, kids, FunctionLike(s, mods, root), {})
    ensures Rep(s, kids) && INVALID !in Ids(kids) && Rep(t, Rename(o.inv, o.kids)) && INVALID !in Ids(Rename(o.inv, o.kids))
    ensures var before := Dumped(s, k, mods, kids, FunctionLike(s, mods, root), []);
            var after := Dumped(t, Moved(o.inv, k), mods', Rename(o.inv, o.kids), FunctionLike(t, mods', newRoot), []);
            before.Ok? && after.Ok? && before.value.1 == after.value.1
  {
    SortIsomorphism(s, root, kids, t, newRoot, o);
    SortParts(s, root, kids, t, newRoot, o);
    SortTrees(s, root, kids, t, newRoot, o);
    var all, kids' := {root} + Ids(kids), Rename(o.inv, o.kids);
    var inside := FunctionLike(s, mods, root);
    hide *;
    SameButIntro(s, o.mid, all);
    SameRoot(s, o.mid, all, mods, root);
    FunctionLikeMoved(o.mid, t, o.order, o.inv, mods, mods', root);
    SubAt(o.inv, root);
    EmptyMatches(o.inv);
    RootsMeaning(s, o.mid, all, k, mods, root, kids, o.kids, inside);
    RenamedMeaning(o.mid, t, o.order, o.inv, k, mods, mods', o.kids, inside, {}, {});
    EmptyHolds(s, k);
    EmptyHolds(t, Moved(o.inv, k));
    DumperEmitsMeaning(s, k, mods, kids, inside, [], {});
    DumperEmitsMeaning(t, Moved(o.inv, k), mods', kids', inside, [], {});
  }

  lemma {:induction false} SortTrees(s: Store, root: Id, kids: Forest, t: Store, newRoot: Id, o: Outcome)
    requires Canonical(s, root, kids, t, newRoot, o) && Tree(t, newRoot, Rename(o.inv, o.kids))
    ensures Rep(s, kids) && NoDup(kids) && INVALID !in Ids(kids) && Children(s, root) == Roots(kids)
    ensures Rep(o.mid, o.kids) && NoDup(o.kids) && Children(o.mid, root) == Roots(o.kids)
    ensures Rep(t, Rename(o.inv, o.kids)) && INVALID !in Ids(Rename(o.inv, o.kids))
  {
    hide Resorted, Renumbered, OrderOf, Rename;
  }

  lemma {:induction false} SameRoot(s: Store, m: Store, ids: set<Id>, mods: set<Id>, root: Id)
    requires SameBut(s, m, ids)
    ensures FunctionLike(m, mods, root) <==> FunctionLike(s, mods, root)
  {
    FunctionLikeSame(s, m, mods, root);
  }

  lemma {:induction false} EmptyMatches(inv: Renaming)
    ensures Matches(inv, {}, {})
  {}

  lemma {:induction false} EmptyHolds(s: Store, k: Emitters)
    ensures Holds([], s, k, {})
  {}

  lemma {:induction false} RootsMeaning(s: Store, m: Store, ids: set<Id>, k: Emitters, mods: set<Id>, root: Id, f: Forest, g: Forest, inside: bool)
    requires SameBut(s, m, ids) && root < |s| && Rep(s, f) && Rep(m, g) && NoDup(f) && NoDup(g)
    requires Children(s, root) == Roots(f) && Children(m, root) == Roots(g) && inside == FunctionLike(s, mods, root)
    ensures Emitted(m, k, mods, g, inside) == Emitted(s, k, mods, f, inside)
    ensures DefinedBeforeUse(s, k, mods, f, inside, {}) ==> DefinedBeforeUse(m, k, mods, g, inside, {})
  {
    hide SameBut, Rep, NoDup, Children, Roots, Emitted, DefinedBeforeUse;
    BelowSame(s, m, ids, k, f, g, root);
    if Sorts(s[root]) {
      assert inside;
      InsideSame(s, m, ids, k, mods, f, g, {});
    } else {
      RearrangedMeaning(s, m, ids, k, mods, f, g, inside, {});
    }
  }

  // ---------- an operand that is used too early ----------

  function Number(ty: Id, n: nat): Entity {
    BLANK.(links := NO_LINKS.(typeOf := Some(ty)), data := NO_DATA.(number := Some(n)))
  }

  function Call(callee: Id, operand: Id): Entity {
    BLANK.(links := NO_LINKS.(call := Some(callee), inputs := Some([operand])))
  }

  // A block 1 listing number 4, the call 3 that emits 2, and number 2; and the same in post-order.
  const EARLY: Store := [BLANK, BLANK.(block := Some([4, 3, 2])), Number(5, 9), Call(6, 2), Number(5, 7), BLANK, BLANK]
  const EARLY_SORTED: Store := [BLANK, Number(5, 7), Call(6, 3), Number(5, 9), BLANK.(block := Some([1, 2, 3])), BLANK, BLANK]

  lemma {:induction false} PlainDump(s: Store, k: Emitters, f: Forest, values: Values)
    requires Rep(s, f) && INVALID !in Ids(f) && f.Cons? && !HasBlock(s, f.id) && !FunctionLike(s, {}, f.id)
    ensures var first := Visited(s, k, f.id, false, values);
            && (first.Err? ==> Dumped(s, k, {}, f, false, values).Err?)
            && (first.Ok? ==>
                  var others := Dumped(s, k, {}, f.rest, false, first.value.0);
                  && (others.Ok? ==> Dumped(s, k, {}, f, false, values) == Ok((others.value.0, first.value.1 + others.value.1))))
  {
    hide FunctionLike, Visited;
  }

  lemma {:induction false} NoFunctions(s: Store, e: Id)
    requires e < |s| && s[e].links.returnType.None?
    requires s[e].links.typeOf == None || (s[e].links.typeOf == Some(5) && |s| == 7 && s[5] == BLANK)
    ensures !FunctionLike(s, {}, e)
  {
    if s[e].links.typeOf.Some? { assert ResolveIn(s, 5, 7) == Some(5); }
  }

  /**
   The condition matters: an operand used before it is defined reads whatever the table happens to have
   there, and how far the table reaches depends on the numbering.  Here nothing is emitted before
   sorting, and after it the same module has no dump at all.
   */
  lemma {:induction false} EarlyUseDependsOnNumbering()
    ensures var k := Emitters(5, 5, 0, 6);
            var kids, sortedKids := Cons(4, Nil, Cons(3, Nil, Cons(2, Nil, Nil))), Cons(1, Nil, Cons(2, Nil, Cons(3, Nil, Nil)));
            && Rep(EARLY, kids) && INVALID !in Ids(kids) && Rep(EARLY_SORTED, sortedKids) && INVALID !in Ids(sortedKids)
            && Renumbered(EARLY, EARLY_SORTED, [0, 4, 3, 2, 1, 5, 6], [0, 4, 3, 2, 1, 5, 6])
            && !DefinedBeforeUse(EARLY, k, {}, kids, false, {})
            && Dumped(EARLY, k, {}, kids, false, []).Ok? && Dumped(EARLY, k, {}, kids, false, []).value.1 == []
            && Dumped(EARLY_SORTED, k, {}, sortedKids, false, []).Err?
  {
    EarlyShapes();
    EarlyBefore();
    EarlyAfter();
    EarlyRenumbered();
    EarlyUndefined();
  }

  lemma {:induction false} EarlyShapes()
    ensures var kids, sortedKids := Cons(4, Nil, Cons(3, Nil, Cons(2, Nil, Nil))), Cons(1, Nil, Cons(2, Nil, Cons(3, Nil, Nil)));
            Rep(EARLY, kids) && INVALID !in Ids(kids) && Rep(EARLY_SORTED, sortedKids) && INVALID !in Ids(sortedKids)
  {
    assert Roots(Nil) == [] && Ids(Nil) == {};
    assert Rep(EARLY, Cons(2, Nil, Nil)) && Rep(EARLY, Cons(3, Nil, Cons(2, Nil, Nil)));
    assert Rep(EARLY_SORTED, Cons(3, Nil, Nil)) && Rep(EARLY_SORTED, Cons(2, Nil, Cons(3, Nil, Nil)));
    assert Ids(Cons(2, Nil, Nil)) == {2} && Ids(Cons(3, Nil, Cons(2, Nil, Nil))) == {3, 2};
    assert Ids(Cons(3, Nil, Nil)) == {3} && Ids(Cons(2, Nil, Cons(3, Nil, Nil))) == {2, 3};
  }

  lemma {:induction false} EarlyBefore()
    requires var kids := Cons(4, Nil, Cons(3, Nil, Cons(2, Nil, Nil))); Rep(EARLY, kids) && INVALID !in Ids(kids)
    ensures var k, kids := Emitters(5, 5, 0, 6), Cons(4, Nil, Cons(3, Nil, Cons(2, Nil, Nil)));
            Dumped(EARLY, k, {}, kids, false, []).Ok? && Dumped(EARLY, k, {}, kids, false, []).value.1 == []
  {
    var k, last := Emitters(5, 5, 0, 6), Cons(2, Nil, Nil);
    NoFunctions(EARLY, 4);
    NoFunctions(EARLY, 3);
    NoFunctions(EARLY, 2);
    hide FunctionLike;
    var v := Put([], 4, [7]);
    assert Visited(EARLY, k, 4, false, []) == Ok((v, []));
    assert Visited(EARLY, k, 3, false, v) == Ok((v, []));
    var w := Put(v, 2, [9]);
    assert Visited(EARLY, k, 2, false, v) == Ok((w, []));
    hide Visited, Put;
    assert Dumped(EARLY, k, {}, Nil, false, w) == Ok((w, []));
    PlainDump(EARLY, k, last, v);
    PlainDump(EARLY, k, Cons(3, Nil, last), v);
    PlainDump(EARLY, k, Cons(4, Nil, Cons(3, Nil, last)), []);
  }

  lemma {:induction false} EarlyAfter()
    requires var kids := Cons(1, Nil, Cons(2, Nil, Cons(3, Nil, Nil))); Rep(EARLY_SORTED, kids) && INVALID !in Ids(kids)
    ensures Dumped(EARLY_SORTED, Emitters(5, 5, 0, 6), {}, Cons(1, Nil, Cons(2, Nil, Cons(3, Nil, Nil))), false, []).Err?
  {
    var k := Emitters(5, 5, 0, 6);
    NoFunctions(EARLY_SORTED, 1);
    NoFunctions(EARLY_SORTED, 2);
    hide FunctionLike;
    var v := Put([], 1, [7]);
    assert |v| == 2;
    assert Visited(EARLY_SORTED, k, 1, false, []) == Ok((v, []));
    assert Visited(EARLY_SORTED, k, 2, false, v).Err?;
    hide Visited, Put;
    PlainDump(EARLY_SORTED, k, Cons(2, Nil, Cons(3, Nil, Nil)), v);
    assert Dumped(EARLY_SORTED, k, {}, Cons(1, Nil, Cons(2, Nil, Cons(3, Nil, Nil))), false, []).Err?;
  }

  lemma {:induction false} EarlyRenumbered()
    ensures Renumbered(EARLY, EARLY_SORTED, [0, 4, 3, 2, 1, 5, 6], [0, 4, 3, 2, 1, 5, 6])
  {
    var inv: Renaming := [0, 4, 3, 2, 1, 5, 6];
    assert SubIds(inv, [4, 3, 2]) == [1, 2, 3] && SubIds(inv, [2]) == [3];
  }

  lemma {:induction false} EarlyUndefined()
    ensures !DefinedBeforeUse(EARLY, Emitters(5, 5, 0, 6), {}, Cons(4, Nil, Cons(3, Nil, Cons(2, Nil, Nil))), false, {})
  {
    var k := Emitters(5, 5, 0, 6);
    NoFunctions(EARLY, 3);
    NoFunctions(EARLY, 4);
    hide FunctionLike;
    var seen := {} + Defined(EARLY, k, Cons(4, Nil, Nil));
    assert Ids(Cons(4, Nil, Nil)) == {4} && Ids(Cons(3, Nil, Nil)) == {3};
    assert 2 !in seen + Defined(EARLY, k, Cons(3, Nil, Nil));
    assert !OperandReady(EARLY, k, 3, seen + Defined(EARLY, k, Cons(3, Nil, Nil)));
    assert !DefinedBeforeUse(EARLY, k, {}, Cons(3, Nil, Cons(2, Nil, Nil)), false, seen);
  }
}
