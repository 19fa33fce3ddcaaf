/**
 Structural edits and the tree below the root: interface.cpp:44-67 and 124-134, interface.copy.cpp:239-285,
 opt/strip_freestanding_blocks.hpp.  Every edit replaces the child list of one block.
 */
module Edits {
  import opened Wrappers
  import opened Store
  import opened Shapes
  import opened Copy
  import opened Builder
  import opened SortWalk
  import opened Renumber
  import opened NameLookup

  // Child lists and cached parents agree, nothing occurs twice, nothing is invalid.
  ghost predicate WellFormed(s: Store, root: Id, kids: Forest) {
    Tree(s, root, kids) && Parents(s, kids, root)
  }

  // ---------- replacing what is below one member ----------

  function Under(f: Forest, b: Id): (r: Forest)
    requires b in Ids(f)
    ensures Ids(r) <= Ids(f) && Size(r) < Size(f)
    decreases f
  {
    if f.id == b then f.kids else if b in Ids(f.kids) then Under(f.kids, b) else Under(f.rest, b)
  }

  function Regrow(f: Forest, b: Id, g: Forest): (r: Forest)
    ensures Roots(r) == Roots(f)
    decreases f
  {
    match f
    case Nil => Nil
    case Cons(id, kids, rest) => Cons(id, if id == b then g else Regrow(kids, b, g), Regrow(rest, b, g))
  }

  lemma {:induction false} RegrowNothing(f: Forest, b: Id, g: Forest)
    requires b !in Ids(f)
    ensures Regrow(f, b, g) == f
  {
    if f.Cons? {
      RegrowNothing(f.kids, b, g);
      RegrowNothing(f.rest, b, g);
    }
  }

  lemma {:induction false} RegrowIds(f: Forest, b: Id, g: Forest)
    requires NoDup(f) && b in Ids(f)
    ensures Ids(Regrow(f, b, g)) == (Ids(f) - Ids(Under(f, b))) + Ids(g)
    decreases f
  {
    hide Under;
    BelowWhere(f, b);
    if f.id == b { RegrowNothing(f.rest, b, g); }
    else if b in Ids(f.kids) {
      RegrowIds(f.kids, b, g);
      RegrowNothing(f.rest, b, g);
    } else {
      RegrowNothing(f.kids, b, g);
      RegrowIds(f.rest, b, g);
    }
  }

  lemma {:induction false} BelowWhere(f: Forest, b: Id)
    requires b in Ids(f)
    ensures f.id == b ==> Under(f, b) == f.kids
    ensures f.id != b && b in Ids(f.kids) ==> Under(f, b) == Under(f.kids, b)
    ensures f.id != b && b !in Ids(f.kids) ==> b in Ids(f.rest) && Under(f, b) == Under(f.rest, b)
  {}

  lemma {:induction false} BelowShape(s: Store, f: Forest, p: Id, b: Id)
    requires Rep(s, f) && NoDup(f) && Parents(s, f, p) && b in Ids(f)
    ensures b < |s| && Children(s, b) == Roots(Under(f, b)) && Rep(s, Under(f, b)) && NoDup(Under(f, b))
    ensures Parents(s, Under(f, b), b) && b !in Ids(Under(f, b))
    decreases f
  {
    if f.id == b {}
    else if b in Ids(f.kids) { BelowShape(s, f.kids, f.id, b); }
    else { BelowShape(s, f.rest, p, b); }
  }

  // Outside of what was below `b` the two stores agree on structure; below `b` there is `g` now.
  ghost predicate Regrown(s: Store, t: Store, ids: set<Id>, b: Id, g: Forest) {
    && |s| <= |t| && b < |t| && Children(t, b) == Roots(g) && Rep(t, g) && NoDup(g) && Parents(t, g, b)
    && forall x {:trigger x in ids} :: x in ids && x < |s| ==> t[x].parent == s[x].parent && (x != b ==> Children(t, x) == Children(s, x))
  }

  /** Replacing the trees below one member by other trees, apart from the rest, keeps the whole a linked tree. */
  lemma {:induction false} RegrowKeeps(s: Store, t: Store, f: Forest, p: Id, b: Id, g: Forest)
    requires Rep(s, f) && NoDup(f) && Parents(s, f, p) && b in Ids(f)
    requires Regrown(s, t, Ids(f) - Ids(Under(f, b)), b, g)
    requires Ids(g) !! (Ids(f) - Ids(Under(f, b)))
    ensures Rep(t, Regrow(f, b, g)) && NoDup(Regrow(f, b, g)) && Parents(t, Regrow(f, b, g), p)
    decreases f
  {
    hide Under;
    var keep := Ids(f) - Ids(Under(f, b));
    BelowWhere(f, b);
    BelowShape(s, f, p, b);
    assert f.id in keep by { RootKept(f, b); }
    if f.id == b {
      RegrowNothing(f.rest, b, g);
      Untouched(s, t, keep, b, g, f.rest, p);
    } else if b in Ids(f.kids) {
      RegrowNothing(f.rest, b, g);
      Untouched(s, t, keep, b, g, f.rest, p);
      Narrow(s, t, keep, Ids(f.kids) - Ids(Under(f.kids, b)), b, g);
      RegrowKeeps(s, t, f.kids, f.id, b, g);
      RegrowIds(f.kids, b, g);
    } else {
      RegrowNothing(f.kids, b, g);
      Untouched(s, t, keep, b, g, f.kids, f.id);
      Narrow(s, t, keep, Ids(f.rest) - Ids(Under(f.rest, b)), b, g);
      RegrowKeeps(s, t, f.rest, p, b, g);
      RegrowIds(f.rest, b, g);
    }
    hide Regrown;
    RegrowOne(s, t, f, p, b, g, keep);
  }

  lemma {:induction false} RootKept(f: Forest, b: Id)
    requires NoDup(f) && b in Ids(f)
    ensures f.id !in Ids(Under(f, b)) && f.id in Ids(f)
  {}

  lemma {:induction false} RegrowOne(s: Store, t: Store, f: Forest, p: Id, b: Id, g: Forest, keep: set<Id>)
    requires f.Cons? && Rep(s, f) && NoDup(f) && Parents(s, f, p) && b in Ids(f) && keep == Ids(f) - Ids(Under(f, b)) && f.id in keep
    requires Regrown(s, t, keep, b, g) && Ids(g) !! keep
    requires var kids, rest := if f.id == b then g else Regrow(f.kids, b, g), Regrow(f.rest, b, g);
             && Rep(t, kids) && NoDup(kids) && Parents(t, kids, f.id) && Rep(t, rest) && NoDup(rest) && Parents(t, rest, p)
    ensures Rep(t, Regrow(f, b, g)) && NoDup(Regrow(f, b, g)) && Parents(t, Regrow(f, b, g), p)
  {
    var kids, rest := if f.id == b then g else Regrow(f.kids, b, g), Regrow(f.rest, b, g);
    BelowWhere(f, b);
    assert f.id !in Ids(kids) && f.id !in Ids(rest) && Ids(kids) !! Ids(rest) by {
      if f.id == b { RegrowNothing(f.rest, b, g); }
      else if b in Ids(f.kids) {
        RegrowNothing(f.rest, b, g);
        RegrowIds(f.kids, b, g);
      } else {
        RegrowNothing(f.kids, b, g);
        RegrowIds(f.rest, b, g);
      }
    }
    assert Children(t, f.id) == Roots(kids);
    hide Under, Regrown, Ids;
  }

  lemma {:induction false} Narrow(s: Store, t: Store, big: set<Id>, small: set<Id>, b: Id, g: Forest)
    requires Regrown(s, t, big, b, g) && small <= big
    ensures Regrown(s, t, small, b, g)
  {}

  lemma {:induction false} Untouched(s: Store, t: Store, keep: set<Id>, b: Id, g: Forest, f: Forest, p: Id)
    requires Regrown(s, t, keep, b, g) && Rep(s, f) && Parents(s, f, p) && Ids(f) <= keep && b !in Ids(f)
    ensures Rep(t, f) && Parents(t, f, p)
  {
    forall x | x in Ids(f) ensures Children(t, x) == Children(s, x) { RepInStore(s, f, x); }
    RepFrame(s, t, f);
    ParentsFrame(s, t, f, p);
  }

  // The same for a whole tree, the block being the root or below it.
  function RegrowTree(root: Id, kids: Forest, b: Id, g: Forest): Forest {
    if b == root then g else Regrow(kids, b, g)
  }

  function BelowTree(root: Id, kids: Forest, b: Id): Forest
    requires b == root || b in Ids(kids)
  {
    if b == root then kids else Under(kids, b)
  }

  // One edit: below `b` there is `g` now, the rest of the tree is as it was.
  ghost predicate Edited(s: Store, t: Store, root: Id, kids: Forest, b: Id, g: Forest) {
    && (b == root || b in Ids(kids))
    && Regrown(s, t, {root} + Ids(kids) - Ids(BelowTree(root, kids, b)), b, g)
    && Ids(g) !! ({root} + Ids(kids) - Ids(BelowTree(root, kids, b))) && INVALID !in Ids(g)
  }

  /** Any edit keeps a well-formed tree well-formed. */
  lemma {:induction false} EditKeeps(s: Store, t: Store, root: Id, kids: Forest, b: Id, g: Forest)
    requires WellFormed(s, root, kids) && Edited(s, t, root, kids, b, g)
    ensures WellFormed(t, root, RegrowTree(root, kids, b, g))
  {
    TreeParts(s, root, kids);
    if b == root {
      hide Regrow, Under;
      TreeIntro(t, root, g);
    } else {
      var keep := {root} + Ids(kids) - Ids(Under(kids, b));
      Narrow(s, t, keep, Ids(kids) - Ids(Under(kids, b)), b, g);
      RegrowKeeps(s, t, kids, root, b, g);
      RegrowIds(kids, b, g);
      assert root in keep;
      hide Regrow, Under, NoDup, Rep, Parents;
      assert Children(t, root) == Roots(Regrow(kids, b, g));
      TreeIntro(t, root, Regrow(kids, b, g));
    }
  }

  // ---------- inserting trees into a child list ----------

  lemma {:induction false} SpliceFirst(xs: seq<Id>, ys: seq<Id>)
    ensures xs[..0] + ys + xs[0..] == ys + xs
  {}

  lemma {:induction false} SpliceLater(x: Id, xs: seq<Id>, n: nat, ys: seq<Id>)
    requires 0 < n <= 1 + |xs|
    ensures ([x] + xs)[..n] + ys + ([x] + xs)[n..] == [x] + (xs[..n - 1] + ys + xs[n - 1..])
  {}

  function Insert(f: Forest, n: nat, g: Forest): (r: Forest)
    requires n <= |Roots(f)|
    ensures Ids(r) == Ids(f) + Ids(g)
    ensures Roots(r) == Roots(f)[..n] + Roots(g) + Roots(f)[n..]
    decreases f
  {
    if n == 0 then
      SpliceFirst(Roots(f), Roots(g));
      Append(g, f)
    else
      SpliceLater(f.id, Roots(f.rest), n, Roots(g));
      Cons(f.id, f.kids, Insert(f.rest, n - 1, g))
  }

  lemma {:induction false} InsertShape(t: Store, f: Forest, n: nat, g: Forest, p: Id)
    requires n <= |Roots(f)| && Rep(t, f) && Rep(t, g) && Parents(t, f, p) && Parents(t, g, p)
    requires NoDup(f) && NoDup(g) && Ids(f) !! Ids(g)
    ensures Rep(t, Insert(f, n, g)) && Parents(t, Insert(f, n, g), p) && NoDup(Insert(f, n, g))
    decreases f
  {
    if n == 0 {
      RepAppend(t, g, f);
      ParentsAppend(t, g, f, p);
      NoDupAppend(g, f);
    } else {
      InsertShape(t, f.rest, n - 1, g, p);
    }
  }

  // `g` hangs below `b` in `t`, from position `n`; the tree is as it was otherwise.
  ghost predicate Inserted(s: Store, t: Store, root: Id, kids: Forest, b: Id, n: nat, g: Forest) {
    && (b == root || b in Ids(kids)) && |s| <= |t| && b < |s| && n <= |Children(s, b)|
    && Children(t, b) == Children(s, b)[..n] + Roots(g) + Children(s, b)[n..]
    && Rep(t, g) && NoDup(g) && Parents(t, g, b) && Ids(g) !! ({root} + Ids(kids)) && INVALID !in Ids(g)
    && forall x {:trigger x in Ids(kids)} :: x == root || x in Ids(kids) ==>
         x < |s| ==> t[x].parent == s[x].parent && (x != b ==> Children(t, x) == Children(s, x))
  }

  lemma {:induction false} TreeBelow(s: Store, root: Id, kids: Forest, b: Id)
    requires WellFormed(s, root, kids) && (b == root || b in Ids(kids))
    ensures var below := BelowTree(root, kids, b);
            && Ids(below) <= Ids(kids) && b < |s| && Children(s, b) == Roots(below) && Rep(s, below) && NoDup(below)
            && Parents(s, below, b) && b !in Ids(below) && INVALID !in Ids(below) && root !in Ids(kids) && root < |s| && b != INVALID
  {
    TreeParts(s, root, kids);
    if b != root { BelowShape(s, kids, root, b); }
    assert INVALID !in Ids(Cons(root, kids, Nil));
  }

  /** Putting trees that are not in the tree anywhere into one of its blocks is an edit. */
  lemma {:induction false} InsertEdits(s: Store, t: Store, root: Id, kids: Forest, b: Id, n: nat, g: Forest)
    requires WellFormed(s, root, kids) && Inserted(s, t, root, kids, b, n, g)
    ensures n <= |Roots(BelowTree(root, kids, b))| && Edited(s, t, root, kids, b, Insert(BelowTree(root, kids, b), n, g))
  {
    var below := BelowTree(root, kids, b);
    TreeBelow(s, root, kids, b);
    hide *;
    InsertedApart(s, t, root, kids, b, n, g, below);
    InsertedBelow(s, t, root, kids, b, n, g, below);
    InsertShape(t, below, n, g, b);
    InsertedOutside(s, t, root, kids, b, n, g, below);
  }

  lemma {:induction false} InsertedApart(s: Store, t: Store, root: Id, kids: Forest, b: Id, n: nat, g: Forest, below: Forest)
    requires Inserted(s, t, root, kids, b, n, g) && Children(s, b) == Roots(below) && Ids(below) <= Ids(kids)
    ensures n <= |Roots(below)| && Rep(t, g) && NoDup(g) && Parents(t, g, b) && Ids(below) !! Ids(g) && |s| <= |t|
    ensures b == root || b in Ids(kids)
  {
    hide Rep, NoDup, Parents;
  }

  lemma {:induction false} InsertedBelow(s: Store, t: Store, root: Id, kids: Forest, b: Id, n: nat, g: Forest, below: Forest)
    requires Inserted(s, t, root, kids, b, n, g) && Rep(s, below) && Parents(s, below, b) && Ids(below) <= Ids(kids) && b !in Ids(below)
    ensures Rep(t, below) && Parents(t, below, b)
  {
    hide Rep, NoDup, Parents;
    forall x | x in Ids(below) ensures x < |s| && Children(t, x) == Children(s, x) && t[x].parent == s[x].parent {
      RepInStore(s, below, x);
      assert x in Ids(kids);
    }
    RepFrame(s, t, below);
    ParentsFrame(s, t, below, b);
  }

  lemma {:induction false} InsertedOutside(s: Store, t: Store, root: Id, kids: Forest, b: Id, n: nat, g: Forest, below: Forest)
    requires Inserted(s, t, root, kids, b, n, g) && Children(s, b) == Roots(below) && n <= |Roots(below)|
    requires (b == root || b in Ids(kids)) && below == BelowTree(root, kids, b) && Ids(below) <= Ids(kids) && INVALID !in Ids(below)
    requires root !in Ids(kids)
    requires var f := Insert(below, n, g); Rep(t, f) && Parents(t, f, b) && NoDup(f)
    ensures Edited(s, t, root, kids, b, Insert(below, n, g))
  {
    hide Rep, NoDup, Parents, BelowTree, Insert, Roots;
    var keep := {root} + Ids(kids) - Ids(below);
    forall x {:trigger x in keep} | x in keep && x < |s|
      ensures t[x].parent == s[x].parent && (x != b ==> Children(t, x) == Children(s, x))
    {
      assert x == root || x in Ids(kids);
    }
  }

  // ---------- removing a tree from a child list ----------

  function Without(f: Forest, e: Id): (r: Forest)
    ensures Ids(r) <= Ids(f)
  {
    match f
    case Nil => Nil
    case Cons(id, kids, rest) => if id == e then Without(rest, e) else Cons(id, kids, Without(rest, e))
  }

  function Filtered(xs: seq<Id>, e: Id): seq<Id> {
    if xs == [] then [] else (if xs[0] == e then [] else [xs[0]]) + Filtered(xs[1..], e)
  }

  lemma {:induction false} WithoutRoots(f: Forest, e: Id)
    ensures Roots(Without(f, e)) == Filtered(Roots(f), e)
  {
    if f.Cons? { WithoutRoots(f.rest, e); }
  }

  lemma {:induction false} WithoutShape(t: Store, f: Forest, e: Id, p: Id)
    requires Rep(t, f) && Parents(t, f, p) && NoDup(f)
    ensures Rep(t, Without(f, e)) && Parents(t, Without(f, e), p) && NoDup(Without(f, e))
  {
    if f.Cons? { WithoutShape(t, f.rest, e, p); }
  }

  // ---------- the operations ----------

  // `Undefined`: the wrapped sum passes the check and the range to insert runs backwards.
  datatype EditFault = NotABlock | OffsetTooLarge | CountTooLarge | Undefined

  // Sizes have 64 bits; the default for a count is the largest of them.
  const SIZES: nat := 0x1_0000_0000_0000_0000
  const DEFAULT_COUNT: nat := SIZES - 1

  // How many children are meant: with the default, all from the offset on, in wrapping arithmetic.
  function CountMeant(count: nat, length: nat, srcOffset: nat): nat
    requires length < SIZES && srcOffset < SIZES
  {
    if count == DEFAULT_COUNT then (length + SIZES - srcOffset) % SIZES else count
  }

  // interface.copy.cpp:239-254.
  function MovedTo(s: Store, dest: Id, source: Id, y: Id): Entity
    requires y < |s|
  {
    var list := Children(s, dest) + Children(s, source);
    Entity(if y == source then Some([]) else if y == dest then Some(list) else s[y].block,
           if y in list then Some(dest) else s[y].parent, s[y].links, s[y].data)
  }

  method MoveExisting(mod: Module, dest: Id, source: Id)
    requires dest < |mod.ents| && source < |mod.ents| && dest != source
    requires mod.ents[dest].block.Some? && mod.ents[source].block.Some?
    requires forall x :: x in Children(mod.ents, dest) + Children(mod.ents, source) ==> x < |mod.ents|
    modifies mod
    ensures |mod.ents| == |old(mod.ents)|
    ensures forall y: Id :: y < |mod.ents| ==> mod.ents[y] == MovedTo(old(mod.ents), dest, source, y)
    // the source's children follow the destination's, and all of them say where they are
    ensures var s, t := old(mod.ents), mod.ents;
            var list := s[dest].block.value + s[source].block.value;
            && t[dest].block == Some(list) && t[source].block == Some([])
            && forall x :: x in list ==> x < |t| && t[x].parent == Some(dest)
  {
    ghost var s := mod.ents;
    var src := mod.ents[source].block.value;
    if mod.ents[dest].block.value == [] {
      mod.ents := mod.ents[dest := mod.ents[dest].(block := Some(src))];
    } else {
      mod.ents := mod.ents[dest := mod.ents[dest].(block := Some(mod.ents[dest].block.value + src))];
    }
    mod.ents := mod.ents[source := mod.ents[source].(block := Some([]))];
    var list := mod.ents[dest].block.value;
    assert list == Children(s, dest) + Children(s, source);
    SetParents(mod, list, dest);
  }

  method SetParents(mod: Module, list: seq<Id>, dest: Id)
    requires forall x :: x in list ==> x < |mod.ents|
    modifies mod
    ensures |mod.ents| == |old(mod.ents)|
    ensures forall y: Id {:trigger mod.ents[y]} :: y < |mod.ents| ==>
              mod.ents[y] == if y in list then old(mod.ents)[y].(parent := Some(dest)) else old(mod.ents)[y]
  {
    ghost var s := mod.ents;
    for i := 0 to |list|
      invariant |mod.ents| == |s|
      invariant forall y: Id {:trigger mod.ents[y]} :: y < |s| ==>
                  mod.ents[y] == if y in list[..i] then s[y].(parent := Some(dest)) else s[y]
    {
      assert list[..i + 1] == list[..i] + [list[i]] && list[i] in list;
      mod.ents := mod.ents[list[i] := mod.ents[list[i]].(parent := Some(dest))];
    }
    assert list[..|list|] == list;
  }

  /**
   interface.cpp:44-57.  Either the slice is spliced in, or nothing is changed: by one of three errors, or because
   what would be done is undefined.  It is undefined exactly when the end of the slice does not fit into a
   size, which for the default count means an offset beyond the list.
   */
  method InlineInto(mod: Module, related: seq<Id>, dest: Id, destOffset: nat, srcOffset: nat, count: nat) returns (fault: Option<EditFault>)
    requires |related| < SIZES && srcOffset < SIZES && count < SIZES
    requires forall x :: x in related ==> x < |mod.ents|
    modifies mod
    ensures fault.Some? ==> mod.ents == old(mod.ents)
    ensures var s, t := old(mod.ents), mod.ents;
            var n := CountMeant(count, |related|, srcOffset);
            var here := dest < |s| && s[dest].block.Some? && destOffset <= |Children(s, dest)|;
            match fault
            case Some(NotABlock) => dest >= |s| || s[dest].block.None?
            case Some(OffsetTooLarge) => dest < |s| && s[dest].block.Some? && destOffset > |Children(s, dest)|
            case Some(CountTooLarge) => here && (srcOffset + n) % SIZES > |related|
            case Some(Undefined) => here && srcOffset + n >= SIZES && (count == DEFAULT_COUNT ==> srcOffset > |related|)
            case None => here && srcOffset + n <= |related| && InlinedInto(s, t, dest, destOffset, related[srcOffset..srcOffset + n])
    ensures count == DEFAULT_COUNT && srcOffset <= |related| ==>
              fault != Some(CountTooLarge) && fault != Some(Undefined) && CountMeant(count, |related|, srcOffset) == |related| - srcOffset
    // the slice is in its place, and its entities say so
    ensures fault == None ==>
              var s, t, n := old(mod.ents), mod.ents, CountMeant(count, |related|, srcOffset);
              && dest < |s| == |t| && s[dest].block.Some? && destOffset <= |s[dest].block.value| && srcOffset + n <= |related|
              && t[dest].block == Some(s[dest].block.value[..destOffset] + related[srcOffset..srcOffset + n] + s[dest].block.value[destOffset..])
              && forall i :: srcOffset <= i < srcOffset + n ==> related[i] < |t| && t[related[i]].parent == Some(dest)
    ensures count != DEFAULT_COUNT ==> CountMeant(count, |related|, srcOffset) == count
  {
    if dest >= |mod.ents| || mod.ents[dest].block.None? { return Some(NotABlock); }
    var list := mod.ents[dest].block.value;
    var n := CountMeant(count, |related|, srcOffset);
    if destOffset > |list| { return Some(OffsetTooLarge); }
    if (srcOffset + n) % SIZES > |related| { return Some(CountTooLarge); }
    if srcOffset + n >= SIZES { return Some(Undefined); }
    var slice := related[srcOffset..srcOffset + n];
    mod.ents := mod.ents[dest := mod.ents[dest].(block := Some(list[..destOffset] + slice + list[destOffset..]))];
    assert forall i :: 0 <= i < |slice| ==> slice[i] in related;
    SetParents(mod, slice, dest);
    fault := None;
  }

  ghost predicate InlinedInto(s: Store, t: Store, dest: Id, n: nat, slice: seq<Id>) {
    && dest < |s| && s[dest].block.Some? && n <= |Children(s, dest)| && |t| == |s|
    && forall y {:trigger t[y]} :: 0 <= y < |s| ==>
         t[y] == Entity(if y == dest then Some(Children(s, dest)[..n] + slice + Children(s, dest)[n..]) else s[y].block,
                        if y in slice then Some(dest) else s[y].parent, s[y].links, s[y].data)
  }

  // A block of code that is nothing else: it says its type is `block`.
  predicate Freestanding(s: Store, e: Id, blockType: Id) {
    e < |s| && s[e].block.Some? && s[e].links.typeOf == Some(blockType)
  }

  // What stripping takes out of its parent: freestanding blocks that are not exported and have a parent.
  predicate Stripped(s: Store, e: Id, blockType: Id) {
    !FlagSet(s, e, Export) && Freestanding(s, e, blockType) && FindParent(s, e) != INVALID
  }

  method StripFreestandingBlocks(mod: Module, e: Id, blockType: Id)
    modifies mod
    ensures !Stripped(old(mod.ents), e, blockType) ==> mod.ents == old(mod.ents)
    ensures Stripped(old(mod.ents), e, blockType) ==>
              var s, p := old(mod.ents), FindParent(old(mod.ents), e);
              p < |s| && mod.ents == s[p := s[p].(block := Some(Filtered(Children(s, p), e)))]
    // an unexported block of code is listed by its parent no more, and nothing else changes
    ensures e < |old(mod.ents)| && old(mod.ents)[e].block.Some? && old(mod.ents)[e].links.typeOf == Some(blockType)
            && Export !in old(mod.ents)[e].data.flags && FindParent(old(mod.ents), e) != INVALID ==>
              var s, p := old(mod.ents), FindParent(old(mod.ents), e);
              && p < |s| && |mod.ents| == |s| && s[p].block.Some? && mod.ents[p].block.Some?
              && (forall x :: x in mod.ents[p].block.value <==> x in s[p].block.value && x != e)
              && forall y: Id {:trigger mod.ents[y]} :: y < |s| && y != p ==> mod.ents[y] == s[y]
    ensures e >= |old(mod.ents)| || old(mod.ents)[e].block.None? || old(mod.ents)[e].links.typeOf != Some(blockType)
            || Export in old(mod.ents)[e].data.flags || FindParent(old(mod.ents), e) == INVALID ==>
              mod.ents == old(mod.ents)
  {
    hide FindBlock;
    if FlagSet(mod.ents, e, Export) { return; }
    if !Freestanding(mod.ents, e, blockType) { return; }
    var parent := FindParent(mod.ents, e);
    if parent == INVALID { return; }
    ParentIsBlock(mod.ents, e);
    FilteredIff(mod.ents[parent].block.value, e);
    var related := Remove(mod.ents[parent].block.value, e);
    mod.ents := mod.ents[parent := mod.ents[parent].(block := Some(related))];
  }

  lemma {:induction false} FilteredIff(xs: seq<Id>, e: Id)
    ensures forall x :: x in Filtered(xs, e) <==> x in xs && x != e
    decreases |xs|
  {
    if xs != [] {
      FilteredIff(xs[1..], e);
      assert xs == [xs[0]] + xs[1..];
    }
  }

  method Remove(xs: seq<Id>, e: Id) returns (ys: seq<Id>)
    ensures ys == Filtered(xs, e)
  {
    ys := [];
    FilterStart(xs, e);
    hide Filtered;
    for i := 0 to |xs|
      invariant ys + Filtered(xs[i..], e) == Filtered(xs, e)
    {
      FilterStep(ys, xs, e, i);
      if xs[i] != e { ys := ys + [xs[i]]; }
    }
    FilterDone(ys, xs, e);
  }

  lemma {:induction false} FilterStart(xs: seq<Id>, e: Id)
    ensures [] + Filtered(xs[0..], e) == Filtered(xs, e)
  {
    assert xs[0..] == xs;
  }

  lemma {:induction false} FilterStep(ys: seq<Id>, xs: seq<Id>, e: Id, i: nat)
    requires i < |xs|
    ensures (if xs[i] != e then ys + [xs[i]] else ys) + Filtered(xs[i + 1..], e) == ys + Filtered(xs[i..], e)
  {
    assert xs[i..][0] == xs[i] && xs[i..][1..] == xs[i + 1..];
  }

  lemma {:induction false} FilterDone(ys: seq<Id>, xs: seq<Id>, e: Id)
    requires ys + Filtered(xs[|xs|..], e) == Filtered(xs, e)
    ensures ys == Filtered(xs, e)
  {
    assert Filtered(xs[|xs|..], e) == [];
  }

  lemma {:induction false} ParentIsBlock(s: Store, e: Id)
    requires FindParent(s, e) != INVALID
    ensures FindParent(s, e) < |s| && s[FindParent(s, e)].block.Some?
  {
    if e < |s| && s[e].parent.Some? { FoundIsBlock(s, s[e].parent.value, INVALID); } else { FoundIsBlock(s, e, e); }
  }
}
