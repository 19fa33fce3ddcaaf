/** Whatever sequence of edits is made, what hangs below the root stays a linked tree. */
module EditRuns {
  import opened Wrappers
  import opened Store
  import opened Shapes
  import opened Copy
  import opened Builder
  import opened SortWalk
  import opened Renumber
  import opened NameLookup
  import opened Edits

  // The forests say what hangs below a source block; they are not part of the operation itself.
  datatype Edit =
    | Create
    | Push(block: Id, entity: Entity, append: bool)
    | PushPair(block: Id, at: nat, first: Entity, second: Entity)
    | Move(dest: Id, source: Id, below: Forest)
    | InlineSlice(dest: Id, destOffset: nat, source: Id, srcOffset: nat, count: nat, below: Forest)
    | CopyInto(dest: Id, source: Id, skipParameters: bool, below: Forest, subs: Renaming)
    | Strip(block: Id, blockType: Id)

  predicate FreshLeaf(b: Id, x: Entity) {
    x.parent == Some(b) && (x.block.None? || x.block.value == [])
  }

  // Two fresh entities listed from position `at` on.
  function PairPushed(s: Store, b: Id, at: nat, x: Entity, y: Entity): Store
    requires HasBlock(s, b) && at <= |Children(s, b)|
  {
    var xs := Children(s, b);
    (s + [x, y])[b := s[b].(block := Some(xs[..at] + [|s|, |s| + 1] + xs[at..]))]
  }

  // A block of its own, apart from the tree below the root.
  ghost predicate Detached(s: Store, root: Id, kids: Forest, source: Id, below: Forest) {
    WellFormed(s, source, below) && HasBlock(s, source) && ({source} + Ids(below)) !! ({root} + Ids(kids))
  }

  // `t` is `s` after the operation, under the conditions its callers meet.
  ghost predicate Applies(s: Store, t: Store, root: Id, kids: Forest, op: Edit) {
    match op
    case Create => t == s + [BLANK.(block := Some([]))]
    case Push(b, x, append) => HasBlock(s, b) && FreshLeaf(b, x) && t == Pushed(s, b, x, append)
    case PushPair(b, at, x, y) =>
      HasBlock(s, b) && at <= |Children(s, b)| && FreshLeaf(b, x) && FreshLeaf(b, y) && t == PairPushed(s, b, at, x, y)
    case Move(dest, source, below) =>
      && Detached(s, root, kids, source, below) && dest in {root} + Ids(kids) && HasBlock(s, dest)
      && |t| == |s| && forall y: Id :: y < |t| ==> t[y] == MovedTo(s, dest, source, y)
    case InlineSlice(dest, at, source, from, count, below) =>
      && Detached(s, root, kids, source, below) && dest in {root} + Ids(kids)
      && from + count <= |Children(s, source)| && InlinedInto(s, t, dest, at, Children(s, source)[from..from + count])
    case CopyInto(dest, source, skip, below, subs) =>
      && Rep(s, Cons(source, below, Nil)) && NoDup(Cons(source, below, Nil)) && Parents(s, below, source)
      && HasBlock(s, dest) && dest !in Ids(Cons(source, below, Nil)) && CopiedInto(s, t, Selected(s, below, skip), subs, source, dest)
    case Strip(e, blockType) =>
      if Stripped(s, e, blockType)
      then FindParent(s, e) < |s| && t == s[FindParent(s, e) := s[FindParent(s, e)].(block := Some(Filtered(Children(s, FindParent(s, e)), e)))]
      else t == s
  }

  // ---------- edits elsewhere ----------

  lemma {:induction false} Elsewhere(s: Store, t: Store, root: Id, kids: Forest)
    requires WellFormed(s, root, kids) && |s| <= |t|
    requires forall x {:trigger x in Ids(kids)} :: x == root || x in Ids(kids) ==>
               x < |s| ==> t[x].parent == s[x].parent && Children(t, x) == Children(s, x)
    ensures WellFormed(t, root, kids)
  {
    TreeParts(s, root, kids);
    forall x | x in Ids(kids) ensures Children(t, x) == Children(s, x) { RepInStore(s, kids, x); }
    RepFrame(s, t, kids);
    ParentsFrame(s, t, kids, root);
    TreeIntro(t, root, kids);
  }

  // Fresh ids are in no tree.
  lemma {:induction false} TreeOld(s: Store, root: Id, kids: Forest, x: Id)
    requires WellFormed(s, root, kids) && (x == root || x in Ids(kids))
    ensures 0 < x < |s|
  {
    TreeParts(s, root, kids);
    if x in Ids(kids) { RepInStore(s, kids, x); }
    assert INVALID !in Ids(Cons(root, kids, Nil));
  }

  // ---------- one lemma for each operation ----------

  lemma {:induction false} LeafShape(t: Store, e: Id, b: Id)
    requires e < |t| && FreshLeaf(b, t[e])
    ensures var g := Cons(e, Nil, Nil); Rep(t, g) && NoDup(g) && Parents(t, g, b) && Ids(g) == {e} && Roots(g) == [e]
  {}

  lemma {:induction false} PushKeeps(s: Store, t: Store, root: Id, kids: Forest, b: Id, x: Entity, append: bool) returns (kids': Forest)
    requires WellFormed(s, root, kids) && HasBlock(s, b) && FreshLeaf(b, x) && t == Pushed(s, b, x, append)
    ensures WellFormed(t, root, kids')
  {
    TreeOld(s, root, kids, root);
    if b == root || b in Ids(kids) {
      var g, n := Cons(|s|, Nil, Nil), if append then |Children(s, b)| else 0;
      LeafShape(t, |s|, b);
      if |s| in Ids(kids) { TreeOld(s, root, kids, |s|); }
      hide WellFormed, Rep, NoDup, Parents, Ids, Insert, BelowTree, RegrowTree, FreshLeaf;
      PushedList(s, t, b, x, append, n);
      hide Pushed, Children, Roots;
      InsertEdits(s, t, root, kids, b, n, g);
      kids' := RegrowTree(root, kids, b, Insert(BelowTree(root, kids, b), n, g));
      EditKeeps(s, t, root, kids, b, Insert(BelowTree(root, kids, b), n, g));
    } else {
      hide WellFormed;
      kids' := kids;
      Elsewhere(s, t, root, kids);
    }
  }

  lemma {:induction false} PushedList(s: Store, t: Store, b: Id, x: Entity, append: bool, n: nat)
    requires HasBlock(s, b) && t == Pushed(s, b, x, append) && n == if append then |Children(s, b)| else 0
    ensures |s| <= |t| && Children(t, b) == Children(s, b)[..n] + [|s|] + Children(s, b)[n..]
    ensures forall y {:trigger t[y]} {:trigger Children(t, y)} :: 0 <= y < |s| ==> t[y].parent == s[y].parent && (y != b ==> Children(t, y) == Children(s, y))
  {}

  lemma {:induction false} PairShape(t: Store, e: Id, b: Id)
    requires e + 1 < |t| && FreshLeaf(b, t[e]) && FreshLeaf(b, t[e + 1])
    ensures var g := Cons(e, Nil, Cons(e + 1, Nil, Nil));
            Rep(t, g) && NoDup(g) && Parents(t, g, b) && Ids(g) == {e, e + 1} && Roots(g) == [e, e + 1]
  {
    LeafShape(t, e + 1, b);
  }

  lemma {:induction false} PairPushedList(s: Store, t: Store, b: Id, at: nat, x: Entity, y: Entity)
    requires HasBlock(s, b) && at <= |Children(s, b)| && t == PairPushed(s, b, at, x, y)
    ensures |s| <= |t| && Children(t, b) == Children(s, b)[..at] + [|s|, |s| + 1] + Children(s, b)[at..]
    ensures forall z {:trigger t[z]} {:trigger Children(t, z)} :: 0 <= z < |s| ==> t[z].parent == s[z].parent && (z != b ==> Children(t, z) == Children(s, z))
  {}

  lemma {:induction false} PushPairKeeps(s: Store, t: Store, root: Id, kids: Forest, b: Id, at: nat, x: Entity, y: Entity) returns (kids': Forest)
    requires WellFormed(s, root, kids) && HasBlock(s, b) && at <= |Children(s, b)| && FreshLeaf(b, x) && FreshLeaf(b, y)
    requires t == PairPushed(s, b, at, x, y)
    ensures WellFormed(t, root, kids')
  {
    TreeOld(s, root, kids, root);
    if b == root || b in Ids(kids) {
      var g := Cons(|s|, Nil, Cons(|s| + 1, Nil, Nil));
      PairShape(t, |s|, b);
      if |s| in Ids(kids) { TreeOld(s, root, kids, |s|); }
      if |s| + 1 in Ids(kids) { TreeOld(s, root, kids, |s| + 1); }
      hide *;
      PairPushedList(s, t, b, at, x, y);
      InsertEdits(s, t, root, kids, b, at, g);
      kids' := RegrowTree(root, kids, b, Insert(BelowTree(root, kids, b), at, g));
      EditKeeps(s, t, root, kids, b, Insert(BelowTree(root, kids, b), at, g));
    } else {
      hide WellFormed;
      kids' := kids;
      Elsewhere(s, t, root, kids);
    }
  }

  // Roots moved from a detached block to `dest`: what is below them is untouched.
  lemma {:induction false} AdoptedShape(s: Store, t: Store, g: Forest, source: Id, dest: Id)
    requires Rep(s, g) && Parents(s, g, source) && |t| == |s|
    requires forall x {:trigger x in Ids(g)} :: x in Ids(g) && x < |s| ==>
               Children(t, x) == Children(s, x) && t[x].parent == if x in Roots(g) then Some(dest) else s[x].parent
    requires NoDup(g)
    ensures Rep(t, g) && Parents(t, g, dest)
  {
    forall x | x in Ids(g) ensures Children(t, x) == Children(s, x) { RepInStore(s, g, x); }
    RepFrame(s, t, g);
    AdoptedParents(s, t, g, source, dest);
  }

  lemma {:induction false} AdoptedParents(s: Store, t: Store, g: Forest, source: Id, dest: Id)
    requires Parents(s, g, source) && |t| == |s| && NoDup(g)
    requires forall x {:trigger x in Ids(g)} :: x in Ids(g) && x < |s| ==>
               t[x].parent == if x in Roots(g) then Some(dest) else s[x].parent
    ensures Parents(t, g, dest)
    decreases g
  {
    if g.Cons? {
      forall x | x in Ids(g.kids) && x < |s| ensures t[x].parent == s[x].parent {
        assert x in Ids(g);
        RootMember(g.rest, x);
      }
      ParentsFrame(s, t, g.kids, g.id);
      forall x {:trigger x in Ids(g.rest)} | x in Ids(g.rest) && x < |s|
        ensures t[x].parent == if x in Roots(g.rest) then Some(dest) else s[x].parent
      {
        assert x in Ids(g);
      }
      AdoptedParents(s, t, g.rest, source, dest);
      assert g.id in Ids(g) && Roots(g)[0] == g.id;
    }
  }

  lemma {:induction false} DetachedParts(s: Store, root: Id, kids: Forest, source: Id, below: Forest)
    requires Detached(s, root, kids, source, below)
    ensures source < |s| && Children(s, source) == Roots(below) && Rep(s, below) && NoDup(below) && Parents(s, below, source)
    ensures source !in Ids(below) && INVALID !in Ids(below) && Ids(below) !! ({root} + Ids(kids)) && source != root && source !in Ids(kids)
  {
    TreeParts(s, source, below);
    assert Ids(Cons(source, below, Nil)) == {source} + Ids(below);
  }

  // Entities of the tree that a block of it lists have that block as their parent already.
  lemma {:induction false} ListedHere(s: Store, root: Id, kids: Forest, b: Id, x: Id)
    requires WellFormed(s, root, kids) && (b == root || b in Ids(kids)) && x in Children(s, b)
    ensures x in Ids(kids) && x < |s| && s[x].parent == Some(b)
  {
    TreeBelow(s, root, kids, b);
    var below := BelowTree(root, kids, b);
    hide WellFormed, BelowTree;
    ListedBelow(below, x);
    RepInStore(s, below, x);
    ParentLists(s, below, b, x);
  }

  // The roots of `g` are listed by `dest` now, and say so; nothing else about the two trees has changed.
  ghost predicate Adopts(s: Store, t: Store, root: Id, kids: Forest, dest: Id, n: nat, g: Forest) {
    && |t| == |s| && dest < |s| && n <= |Children(s, dest)|
    && Children(t, dest) == Children(s, dest)[..n] + Roots(g) + Children(s, dest)[n..]
    && (forall x {:trigger x in Ids(kids)} :: (x == root || x in Ids(kids)) && x < |s| ==>
          t[x].parent == s[x].parent && (x != dest ==> Children(t, x) == Children(s, x)))
    && (forall x {:trigger x in Ids(g)} :: x in Ids(g) && x < |s| ==>
          Children(t, x) == Children(s, x) && t[x].parent == if x in Roots(g) then Some(dest) else s[x].parent)
  }

  lemma {:induction false} AdoptKeeps(s: Store, t: Store, root: Id, kids: Forest, dest: Id, n: nat, g: Forest, source: Id) returns (kids': Forest)
    requires WellFormed(s, root, kids) && (dest == root || dest in Ids(kids))
    requires Rep(s, g) && NoDup(g) && Parents(s, g, source) && Ids(g) !! ({root} + Ids(kids)) && INVALID !in Ids(g)
    requires Adopts(s, t, root, kids, dest, n, g)
    ensures WellFormed(t, root, kids')
  {
    AdoptedShape(s, t, g, source, dest);
    hide WellFormed, Rep, NoDup, Parents, Ids, Roots, Insert;
    InsertEdits(s, t, root, kids, dest, n, g);
    kids' := RegrowTree(root, kids, dest, Insert(BelowTree(root, kids, dest), n, g));
    EditKeeps(s, t, root, kids, dest, Insert(BelowTree(root, kids, dest), n, g));
  }

  lemma {:induction false} MoveKeeps(s: Store, t: Store, root: Id, kids: Forest, dest: Id, source: Id, below: Forest) returns (kids': Forest)
    requires WellFormed(s, root, kids) && Detached(s, root, kids, source, below)
    requires (dest == root || dest in Ids(kids)) && HasBlock(s, dest)
    requires |t| == |s| && forall y: Id :: y < |t| ==> t[y] == MovedTo(s, dest, source, y)
    ensures WellFormed(t, root, kids')
  {
    DetachedParts(s, root, kids, source, below);
    hide WellFormed, Detached, Rep, NoDup, Parents, Ids, Roots;
    MoveAdopts(s, t, root, kids, dest, source, below);
    kids' := AdoptKeeps(s, t, root, kids, dest, |Children(s, dest)|, below, source);
  }

  lemma {:induction false} MoveAdopts(s: Store, t: Store, root: Id, kids: Forest, dest: Id, source: Id, below: Forest)
    requires WellFormed(s, root, kids) && (dest == root || dest in Ids(kids)) && HasBlock(s, dest)
    requires source < |s| && Children(s, source) == Roots(below) && source !in Ids(below) && source != root && source !in Ids(kids)
    requires Ids(below) !! ({root} + Ids(kids))
    requires |t| == |s| && forall y: Id :: y < |t| ==> t[y] == MovedTo(s, dest, source, y)
    ensures Adopts(s, t, root, kids, dest, |Children(s, dest)|, below)
  {
    hide WellFormed, Ids, Roots;
    var xs := Children(s, dest);
    forall x | x in xs ensures x in Ids(kids) && x < |s| && s[x].parent == Some(dest) { ListedHere(s, root, kids, dest, x); }
    forall x ensures x in Roots(below) ==> x in Ids(below) { RootMember(below, x); }
    assert xs[..|xs|] == xs && xs[|xs|..] == [];
    assert Children(t, dest) == xs + Roots(below);
  }

  // ---------- a slice of a shape ----------

  function Drop(f: Forest, n: nat): (r: Forest)
    requires n <= |Roots(f)|
    ensures Roots(r) == Roots(f)[n..] && Ids(r) <= Ids(f)
  {
    if n == 0 then f else Drop(f.rest, n - 1)
  }

  function Take(f: Forest, n: nat): (r: Forest)
    requires n <= |Roots(f)|
    ensures Roots(r) == Roots(f)[..n] && Ids(r) <= Ids(f)
  {
    if n == 0 then Nil else Cons(f.id, f.kids, Take(f.rest, n - 1))
  }

  lemma {:induction false} DropShape(s: Store, f: Forest, n: nat, p: Id)
    requires n <= |Roots(f)| && Rep(s, f) && NoDup(f) && Parents(s, f, p)
    ensures Rep(s, Drop(f, n)) && NoDup(Drop(f, n)) && Parents(s, Drop(f, n), p)
    decreases f
  {
    if n > 0 { DropShape(s, f.rest, n - 1, p); }
  }

  lemma {:induction false} TakeShape(s: Store, f: Forest, n: nat, p: Id)
    requires n <= |Roots(f)| && Rep(s, f) && NoDup(f) && Parents(s, f, p)
    ensures Rep(s, Take(f, n)) && NoDup(Take(f, n)) && Parents(s, Take(f, n), p)
    decreases f
  {
    if n > 0 { TakeShape(s, f.rest, n - 1, p); }
  }

  lemma {:induction false} InlineKeeps(s: Store, t: Store, root: Id, kids: Forest, dest: Id, at: nat, source: Id, from: nat, count: nat, below: Forest)
    returns (kids': Forest)
    requires WellFormed(s, root, kids) && Detached(s, root, kids, source, below) && (dest == root || dest in Ids(kids))
    requires from + count <= |Children(s, source)| && InlinedInto(s, t, dest, at, Children(s, source)[from..from + count])
    ensures WellFormed(t, root, kids')
  {
    DetachedParts(s, root, kids, source, below);
    hide *;
    var g := SliceShape(s, below, from, count, source);
    InlineAdopts(s, t, root, kids, dest, at, g);
    kids' := AdoptKeeps(s, t, root, kids, dest, at, g, source);
  }

  lemma {:induction false} SliceShape(s: Store, f: Forest, from: nat, count: nat, p: Id) returns (g: Forest)
    requires Rep(s, f) && NoDup(f) && Parents(s, f, p) && from + count <= |Roots(f)|
    ensures Rep(s, g) && NoDup(g) && Parents(s, g, p) && Ids(g) <= Ids(f)
    ensures Roots(g) == Roots(f)[from..from + count]
  {
    hide *;
    var rest := Drop(f, from);
    DropShape(s, f, from, p);
    TakeShape(s, rest, count, p);
    g := Take(rest, count);
    Slice(Roots(f), from, count);
  }

  lemma {:induction false} Slice(xs: seq<Id>, from: nat, count: nat)
    requires from + count <= |xs|
    ensures xs[from..][..count] == xs[from..from + count]
  {}

  lemma {:induction false} InlineAdopts(s: Store, t: Store, root: Id, kids: Forest, dest: Id, at: nat, g: Forest)
    requires (dest == root || dest in Ids(kids)) && Ids(g) !! ({root} + Ids(kids)) && InlinedInto(s, t, dest, at, Roots(g))
    ensures Adopts(s, t, root, kids, dest, at, g)
  {
    hide Ids, Roots;
    forall x ensures x in Roots(g) ==> x in Ids(g) { RootMember(g, x); }
  }

  // ---------- copies ----------

  // Outside of one child list nothing there was has changed its place.
  ghost predicate SameElsewhere(s: Store, t: Store, b: Id) {
    |s| <= |t| && b < |s|
    && forall y {:trigger t[y]} {:trigger Children(t, y)} :: 0 <= y < |s| ==> t[y].parent == s[y].parent && (y != b ==> Children(t, y) == Children(s, y))
  }

  // What was copied hangs below the destination as a tree of its own.
  lemma {:induction false} CopiedShape(s: Store, t: Store, f: Forest, subs: Renaming, from: Id, to: Id)
    requires Rep(s, f) && NoDup(f) && Parents(s, f, from) && from !in Ids(f) && CopiedInto(s, t, f, subs, from, to)
    ensures var g := Rename(subs, f);
            && Rep(t, g) && NoDup(g) && Parents(t, g, to) && Roots(g) == SubIds(subs, Roots(f))
            && forall x :: x in Ids(g) ==> |s| <= x
  {
    hide *;
    CopiedFrame(s, t, f, subs, from, to);
    var u, g := t[to := s[to]], Rename(subs, f);
    CopiedElse(s, t, u, f, subs, from, to);
    CopiedTree(s, u, f, subs, from, to);
    RenameRoots(subs, f);
    ElseSame(s, t, u, to);
    RepFrame(u, t, g);
    ParentsFrame(u, t, g, to);
  }

  lemma {:induction false} CopiedTree(s: Store, u: Store, f: Forest, subs: Renaming, from: Id, to: Id)
    requires Rep(s, f) && NoDup(f) && Parents(s, f, from) && from !in Ids(f) && Copied(s, u, f, subs, from, to)
    ensures var g := Rename(subs, f); Rep(u, g) && NoDup(g) && Parents(u, g, to) && forall x :: x in Ids(g) ==> |s| <= x
  {
    hide *;
    CopyIsIsomorphic(s, u, f, subs, from, to);
    forall x | x in Ids(Rename(subs, f)) ensures |s| <= x { var z := RenameIds(subs, f, x); }
  }

  lemma {:induction false} ElseSame(s: Store, t: Store, u: Store, to: Id)
    requires to < |s| <= |t| && u == t[to := s[to]]
    ensures |u| == |t| && forall x: Id {:trigger Children(t, x)} {:trigger t[x]} :: |s| <= x ==> Children(t, x) == Children(u, x) && (x < |t| ==> t[x].parent == u[x].parent)
  {}

  lemma {:induction false} CopiedElse(s: Store, t: Store, u: Store, f: Forest, subs: Renaming, from: Id, to: Id)
    requires CopiedInto(s, t, f, subs, from, to) && u == t[to := s[to]]
    ensures to < |s| <= |t| && Copied(s, u, f, subs, from, to)
  {
    hide CopyOf, NewParent, Numbered, Extends;
  }

  lemma {:induction false} CopyKeeps(s: Store, t: Store, root: Id, kids: Forest, dest: Id, source: Id, skip: bool, below: Forest, subs: Renaming)
    returns (kids': Forest)
    requires WellFormed(s, root, kids) && HasBlock(s, dest)
    requires Rep(s, Cons(source, below, Nil)) && NoDup(Cons(source, below, Nil)) && Parents(s, below, source)
    requires CopiedInto(s, t, Selected(s, below, skip), subs, source, dest)
    ensures WellFormed(t, root, kids')
  {
    var f := Selected(s, below, skip);
    var g := Rename(subs, f);
    SourceParts(s, source, below, skip);
    hide *;
    CopiedShape(s, t, f, subs, source, dest);
    CopiedFrame(s, t, f, subs, source, dest);
    CopyInserted(s, t, root, kids, dest, g);
    if dest == root || dest in Ids(kids) {
      InsertEdits(s, t, root, kids, dest, |Children(s, dest)|, g);
      kids' := RegrowTree(root, kids, dest, Insert(BelowTree(root, kids, dest), |Children(s, dest)|, g));
      EditKeeps(s, t, root, kids, dest, Insert(BelowTree(root, kids, dest), |Children(s, dest)|, g));
    } else {
      kids' := kids;
      Elsewhere(s, t, root, kids);
    }
  }

  lemma {:induction false} SourceParts(s: Store, source: Id, below: Forest, skip: bool)
    requires Rep(s, Cons(source, below, Nil)) && NoDup(Cons(source, below, Nil)) && Parents(s, below, source)
    ensures var f := Selected(s, below, skip); Rep(s, f) && NoDup(f) && Parents(s, f, source) && source !in Ids(f)
  {
    TreeParts(s, source, below);
    hide Rep, NoDup, Parents, Ids, Selected;
    SelectedShape(s, below, skip, source);
  }

  lemma {:induction false} CopyInserted(s: Store, t: Store, root: Id, kids: Forest, dest: Id, g: Forest)
    requires WellFormed(s, root, kids) && SameElsewhere(s, t, dest)
    requires Rep(t, g) && NoDup(g) && Parents(t, g, dest) && forall x :: x in Ids(g) ==> |s| <= x
    requires Children(t, dest) == Children(s, dest) + Roots(g)
    ensures dest == root || dest in Ids(kids) ==> Inserted(s, t, root, kids, dest, |Children(s, dest)|, g)
    ensures dest != root && dest !in Ids(kids) ==>
              forall x {:trigger x in Ids(kids)} :: x == root || x in Ids(kids) ==>
                x < |s| ==> t[x].parent == s[x].parent && Children(t, x) == Children(s, x)
  {
    hide WellFormed, Rep, NoDup, Parents, Ids, Roots;
    var xs := Children(s, dest);
    TreeOld(s, root, kids, root);
    forall x | x in Ids(kids) ensures 0 < x < |s| { TreeOld(s, root, kids, x); }
    assert xs[..|xs|] == xs && xs[|xs|..] == [] && xs + Roots(g) + [] == xs + Roots(g);
    if dest == root || dest in Ids(kids) {
      forall x | x in Ids(g) ensures x != root && x !in Ids(kids) && x != INVALID { assert |s| <= x; }
      assert Inserted(s, t, root, kids, dest, |xs|, g);
    } else {
      forall x {:trigger x in Ids(kids)} | (x == root || x in Ids(kids)) && x < |s|
        ensures t[x].parent == s[x].parent && Children(t, x) == Children(s, x)
      {
        assert x != dest && t[x].parent == s[x].parent;
      }
    }
  }

  lemma {:induction false} CopiedFrame(s: Store, t: Store, f: Forest, subs: Renaming, from: Id, to: Id)
    requires CopiedInto(s, t, f, subs, from, to)
    ensures to < |s| <= |t| && Children(t, to) == Children(s, to) + SubIds(subs, Roots(f)) && SameElsewhere(s, t, to)
  {
    hide Copies, Numbered, Extends;
    forall y {:trigger t[y]} {:trigger Children(t, y)} | 0 <= y < |s|
      ensures t[y].parent == s[y].parent && (y != to ==> Children(t, y) == Children(s, y))
    {
      if y == to { assert t[to].parent == s[to].parent; } else { assert t[y] == s[y]; }
    }
  }

  // ---------- stripping ----------

  lemma {:induction false} StripKeeps(s: Store, t: Store, root: Id, kids: Forest, e: Id, blockType: Id) returns (kids': Forest)
    requires WellFormed(s, root, kids) && Stripped(s, e, blockType) && FindParent(s, e) < |s|
    requires var p := FindParent(s, e); t == s[p := s[p].(block := Some(Filtered(Children(s, p), e)))]
    ensures WellFormed(t, root, kids')
  {
    var p := FindParent(s, e);
    if p == root || p in Ids(kids) {
      var below := BelowTree(root, kids, p);
      TreeBelow(s, root, kids, p);
      hide WellFormed, Rep, NoDup, Parents, Stripped, FindParent, Ids, BelowTree, Roots;
      WithoutRoots(below, e);
      StripEdited(s, t, root, kids, p, e, below);
      kids' := RegrowTree(root, kids, p, Without(below, e));
      EditKeeps(s, t, root, kids, p, Without(below, e));
    } else {
      hide WellFormed, Stripped, FindParent;
      kids' := kids;
      forall x {:trigger x in Ids(kids)} | (x == root || x in Ids(kids)) && x < |s|
        ensures t[x].parent == s[x].parent && Children(t, x) == Children(s, x)
      {
        assert t[x] == s[x];
      }
      Elsewhere(s, t, root, kids);
    }
  }

  lemma {:induction false} StripEdited(s: Store, t: Store, root: Id, kids: Forest, p: Id, e: Id, below: Forest)
    requires (p == root || p in Ids(kids)) && p < |s| && below == BelowTree(root, kids, p) && root !in Ids(kids)
    requires Rep(s, below) && NoDup(below) && Parents(s, below, p) && p !in Ids(below) && Ids(below) <= Ids(kids) && INVALID !in Ids(below)
    requires t == s[p := s[p].(block := Some(Roots(Without(below, e))))]
    ensures Edited(s, t, root, kids, p, Without(below, e))
  {
    hide BelowTree, Without, Rep, NoDup, Parents, Ids, Roots;
    forall x | x in Ids(below) ensures Children(t, x) == Children(s, x) { RepInStore(s, below, x); }
    RepFrame(s, t, below);
    ParentsFrame(s, t, below, p);
    WithoutShape(t, below, e, p);
  }

  // ---------- every operation, every sequence ----------

  lemma {:induction false} CreateElsewhere(s: Store, t: Store, root: Id, kids: Forest)
    requires WellFormed(s, root, kids) && t == s + [BLANK.(block := Some([]))]
    ensures WellFormed(t, root, kids)
  {
    hide WellFormed;
    assert |t| == |s| + 1;
    forall x: Id ensures x < |s| ==> t[x].parent == s[x].parent && Children(t, x) == Children(s, x) {
      if x < |s| { assert t[x] == s[x]; }
    }
    Elsewhere(s, t, root, kids);
  }

  /** One operation, whichever it is, keeps the tree below the root well-formed. */
  lemma {:induction false} EditKeepsTree(s: Store, t: Store, root: Id, kids: Forest, op: Edit) returns (kids': Forest)
    requires WellFormed(s, root, kids) && Applies(s, t, root, kids, op)
    ensures WellFormed(t, root, kids')
  {
    hide WellFormed, Detached, Rep, NoDup, Parents, FreshLeaf, CopiedInto, InlinedInto, Stripped, FindParent;
    match op
    case Create =>
      kids' := kids;
      CreateElsewhere(s, t, root, kids);
    case Push(b, x, append) => kids' := PushKeeps(s, t, root, kids, b, x, append);
    case PushPair(b, at, x, y) => kids' := PushPairKeeps(s, t, root, kids, b, at, x, y);
    case Move(dest, source, below) => kids' := MoveKeeps(s, t, root, kids, dest, source, below);
    case InlineSlice(dest, at, source, from, count, below) => kids' := InlineKeeps(s, t, root, kids, dest, at, source, from, count, below);
    case CopyInto(dest, source, skip, below, subs) => kids' := CopyKeeps(s, t, root, kids, dest, source, skip, below, subs);
    case Strip(e, blockType) =>
      if Stripped(s, e, blockType) { kids' := StripKeeps(s, t, root, kids, e, blockType); } else { kids' := kids; }
  }

  ghost predicate IsTree(s: Store, root: Id) {
    exists kids :: WellFormed(s, root, kids)
  }

  // Each state comes from the one before by one operation on the tree it has.
  ghost predicate Run(states: seq<Store>, ops: seq<Edit>, root: Id) {
    && |states| == |ops| + 1
    && forall i {:trigger ops[i]} :: 0 <= i < |ops| ==>
         forall kids {:trigger WellFormed(states[i], root, kids)} :: WellFormed(states[i], root, kids) ==>
           Applies(states[i], states[i + 1], root, kids, ops[i])
  }

  /** Every sequence of operations keeps what is reachable from the root a linked tree. */
  lemma {:induction false} RunsKeepTree(states: seq<Store>, ops: seq<Edit>, root: Id, i: nat)
    requires Run(states, ops, root) && IsTree(states[0], root) && i < |states|
    ensures IsTree(states[i], root)
    decreases i
  {
    if i > 0 {
      RunsKeepTree(states, ops, root, i - 1);
      hide WellFormed, Applies;
      var kids :| WellFormed(states[i - 1], root, kids);
      var op := ops[i - 1];
      var kids' := EditKeepsTree(states[i - 1], states[i], root, kids, op);
    }
  }
}
