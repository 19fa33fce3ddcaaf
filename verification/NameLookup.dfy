/** Climbing the block structure: interface.resolve.cpp. */
module NameLookup {
  import opened Wrappers
  import opened Store
  import opened Shapes
  import opened SortWalk
  import opened Renumber
  import opened CanonicalForm
  import opened Idempotence

  // ---------- the forward scan for a block ----------

  predicate IsBlock(s: Store, e: Id, mustContain: Id) {
    e < |s| && s[e].block.Some? && (mustContain == INVALID || mustContain in s[e].block.value)
  }

  function FindBlock(s: Store, e: Id, mustContain: Id): Id
    decreases |s| + 2 - e
  {
    if IsBlock(s, e, mustContain) then e
    else if e > |s| then INVALID
    else FindBlock(s, e + 1, mustContain)
  }

  function FindParent(s: Store, e: Id): Id {
    if e < |s| && s[e].parent.Some? then FindBlock(s, s[e].parent.value, INVALID) else FindBlock(s, e, e)
  }

  /** The scan stops at the least block from `e` on that has what it must contain, or finds none. */
  lemma {:induction false} FindBlockIsLeast(s: Store, e: Id, mustContain: Id)
    ensures var b := FindBlock(s, e, mustContain);
            if exists k :: k >= e && IsBlock(s, k, mustContain)
            then b >= e && IsBlock(s, b, mustContain) && forall k :: e <= k < b ==> !IsBlock(s, k, mustContain)
            else b == INVALID
    decreases |s| + 2 - e
  {
    if !IsBlock(s, e, mustContain) && e <= |s| {
      FindBlockIsLeast(s, e + 1, mustContain);
      if k :| k >= e && IsBlock(s, k, mustContain) { assert k >= e + 1; }
    }
  }

  // Where the least block is, when it is known.
  lemma {:induction false} FindBlockAt(s: Store, e: Id, mustContain: Id, b: Id)
    requires b >= e && IsBlock(s, b, mustContain) && forall k :: e <= k < b ==> !IsBlock(s, k, mustContain)
    ensures FindBlock(s, e, mustContain) == b
  {
    FindBlockIsLeast(s, e, mustContain);
    var f := FindBlock(s, e, mustContain);
    assert f >= b;
  }

  // ---------- the cached parent against the scan ----------

  // In a tree an entity is listed by one member only.
  lemma {:induction false} ListedOnce(s: Store, f: Forest, p: Id, q: Id, e: Id)
    requires Rep(s, f) && NoDup(f) && p in Ids(f) && q in Ids(f) && e in Children(s, p) && e in Children(s, q)
    ensures p == q && e !in Roots(f)
  {
    hide *;
    Listed(s, f, p, e);
    Listed(s, f, q, e);
    ListedTwice(s, f, p, q, e);
    ListedNotRoot(s, f, p, e);
  }

  lemma {:induction false} Listed(s: Store, f: Forest, p: Id, e: Id)
    requires Rep(s, f) && p in Ids(f) && e in Children(s, p)
    ensures e in Ids(f)
  {
    ChildrenInIds(s, f, p, e);
  }

  lemma {:induction false} ListedNotRoot(s: Store, f: Forest, p: Id, e: Id)
    requires Rep(s, f) && NoDup(f) && p in Ids(f) && e in Children(s, p)
    ensures e !in Roots(f)
  {
    if p == f.id {
      ListedBelow(f.kids, e);
      RootMember(f.rest, e);
    } else if p in Ids(f.kids) {
      Listed(s, f.kids, p, e);
      RootMember(f.rest, e);
    } else {
      Listed(s, f.rest, p, e);
      ListedNotRoot(s, f.rest, p, e);
    }
  }

  lemma {:induction false} ListedBelow(f: Forest, e: Id)
    requires e in Roots(f)
    ensures e in Ids(f)
  {
    var i :| 0 <= i < |Roots(f)| && Roots(f)[i] == e;
    RootsInIds(f, i);
  }

  lemma {:induction false} RootMember(f: Forest, e: Id)
    ensures e in Roots(f) ==> e in Ids(f)
  {
    if e in Roots(f) { ListedBelow(f, e); }
  }

  lemma {:induction false} ListedTwice(s: Store, f: Forest, p: Id, q: Id, e: Id)
    requires Rep(s, f) && NoDup(f) && p in Ids(f) && q in Ids(f) && e in Children(s, p) && e in Children(s, q)
    ensures p == q
  {
    if p == f.id || q == f.id {
      var other := if p == f.id then q else p;
      ListedBelow(f.kids, e);
      if other in Ids(f.kids) { ListedNotRoot(s, f.kids, other, e); }
      else if other in Ids(f.rest) { Listed(s, f.rest, other, e); }
    } else if p in Ids(f.kids) && q in Ids(f.kids) {
      ListedTwice(s, f.kids, p, q, e);
    } else if p in Ids(f.rest) && q in Ids(f.rest) {
      ListedTwice(s, f.rest, p, q, e);
    } else if p in Ids(f.kids) {
      Listed(s, f.kids, p, e);
      Listed(s, f.rest, q, e);
    } else {
      Listed(s, f.kids, q, e);
      Listed(s, f.rest, p, e);
    }
  }

  // The member that lists `e`.
  lemma {:induction false} ParentLists(s: Store, f: Forest, p: Id, e: Id)
    requires Rep(s, f) && NoDup(f) && Parents(s, f, p) && e in Ids(f)
    ensures e < |s| && s[e].parent.Some?
    ensures e in Roots(f) ==> s[e].parent == Some(p)
    ensures e !in Roots(f) ==> s[e].parent.value in Ids(f) && e in Children(s, s[e].parent.value)
  {
    if e == f.id {
      assert Roots(f)[0] == e;
    } else if e in Ids(f.kids) {
      ParentLists(s, f.kids, f.id, e);
      if e in Roots(f.rest) { ListedBelow(f.rest, e); }
    } else {
      ParentLists(s, f.rest, p, e);
    }
  }

  lemma {:induction false} ParentInTree(s: Store, root: Id, kids: Forest, e: Id)
    requires Tree(s, root, kids) && Parents(s, kids, root) && e in Ids(kids)
    ensures e < |s| && s[e].parent.Some?
    ensures var p := s[e].parent.value; p in Ids(Cons(root, kids, Nil)) && p < |s| && e in Children(s, p) && p != INVALID
  {
    TreeOf(s, root, kids);
    TreeParts(s, root, kids);
    ParentLists(s, kids, root, e);
    hide Parents, NoDup, Rep;
    RepInStore(s, Cons(root, kids, Nil), s[e].parent.value);
    assert INVALID !in Ids(Cons(root, kids, Nil));
  }

  // The cache names a block, so climbing through it needs no scan.
  lemma {:induction false} CachedParent(s: Store, root: Id, kids: Forest, e: Id)
    requires Tree(s, root, kids) && Parents(s, kids, root) && e in Ids(kids)
    ensures e < |s| && s[e].parent.Some? && FindParent(s, e) == s[e].parent.value
    ensures FindParent(s, e) in Ids(Cons(root, kids, Nil)) && e in Children(s, FindParent(s, e)) && FindParent(s, e) != INVALID
  {
    ParentInTree(s, root, kids, e);
    hide Tree, Parents, Ids;
    FindBlockAt(s, s[e].parent.value, INVALID, s[e].parent.value);
  }

  /**
   On a canonical tree the cache and the scan agree: climbing through the parent component and scanning
   forward for the first block that lists the entity find the same block.
   */
  lemma {:induction false} CacheAgreesWithScan(s: Store, root: Id, kids: Forest, e: Id)
    requires Tree(s, root, kids) && Parents(s, kids, root) && Consecutive(Cons(root, kids, Nil), 1) && e in Ids(kids)
    ensures FindParent(s, e) == FindBlock(s, e, e) != INVALID
  {
    var tree := Cons(root, kids, Nil);
    CachedParent(s, root, kids, e);
    TreeOf(s, root, kids);
    var p := FindParent(s, e);
    hide Tree, Parents, FindParent, FindBlock, Ids, Rep, NoDup, Consecutive;
    AboveChildren(s, tree, 1, p, e);
    Interval(tree, 1, p);
    Interval(tree, 1, e);
    MemberOfTree(root, kids, e);
    forall k: Id | e <= k < p ensures !IsBlock(s, k, e) {
      Interval(tree, 1, k);
      if IsBlock(s, k, e) { ListedOnce(s, tree, k, p, e); }
    }
    FindBlockAt(s, e, e, p);
  }

  lemma {:induction false} MemberOfTree(root: Id, kids: Forest, e: Id)
    requires e in Ids(kids)
    ensures e in Ids(Cons(root, kids, Nil))
  {}

  lemma {:induction false} AboveChildren(s: Store, f: Forest, lo: nat, p: Id, e: Id)
    requires Rep(s, f) && Consecutive(f, lo) && p in Ids(f) && e in Children(s, p)
    ensures lo <= e < p
  {
    var kids, from := BelowMember(s, f, lo, p);
    hide Consecutive, Rep;
    ListedBelow(kids, e);
    Interval(kids, from, e);
  }

  // ---------- looking names up ----------

  predicate Named(s: Store, e: Id, name: string) {
    e < |s| && s[e].data.name == Some(name)
  }

  predicate NamedNamespace(s: Store, e: Id, name: string) {
    Named(s, e, name) && FlagSet(s, e, Namespace)
  }

  function FindNameInBlock(s: Store, related: seq<Id>, name: string): (r: Id)
    ensures r != INVALID ==> r in related && Named(s, r, name)
    ensures r == INVALID ==> forall e :: e in related && Named(s, e, name) ==> INVALID in related
  {
    if related == [] then INVALID
    else if Named(s, related[0], name) then related[0]
    else FindNameInBlock(s, related[1..], name)
  }

  function FindNamespace(s: Store, related: seq<Id>, name: string): (r: Id)
    ensures r != INVALID ==> r in related && NamedNamespace(s, r, name)
    ensures r == INVALID ==> forall e :: e in related && NamedNamespace(s, e, name) ==> INVALID in related
  {
    if related == [] then INVALID
    else if NamedNamespace(s, related[0], name) then related[0]
    else FindNamespace(s, related[1..], name)
  }

  // The block around a block.
  function Around(s: Store, block: Id): Id {
    if block < |s| && s[block].parent.Some? then FindBlock(s, s[block].parent.value, INVALID)
    else FindBlock(s, block + 1, INVALID)
  }

  // Every block's parent has a larger id: what sorting establishes.
  ghost predicate ParentsAbove(s: Store) {
    forall e {:trigger s[e]} :: 0 <= e < |s| && s[e].block.Some? && s[e].parent.Some? ==> s[e].parent.value > e
  }

  lemma {:induction false} AroundAbove(s: Store, block: Id)
    requires ParentsAbove(s) && block < |s| && s[block].block.Some?
    ensures Around(s, block) == INVALID || (block < Around(s, block) < |s| && s[Around(s, block)].block.Some?)
  {
    FindBlockIsLeast(s, block + 1, INVALID);
    if s[block].parent.Some? { FindBlockIsLeast(s, s[block].parent.value, INVALID); }
  }

  // The blocks around a place, innermost first.
  ghost function Enclosing(s: Store, block: Id): (r: seq<Id>)
    requires ParentsAbove(s)
    ensures forall i :: 0 <= i < |r| ==> r[i] < |s| && s[r[i]].block.Some?
    decreases if block == INVALID || block >= |s| then 0 else |s| - block
  {
    if block == INVALID || block >= |s| || s[block].block.None? then []
    else
      AroundAbove(s, block);
      [block] + Enclosing(s, Around(s, block))
  }

  // Following namespaces down to the name at the end of a path.
  function Descend(s: Store, from: Id, path: seq<string>): Id
    requires path != []
    decreases |path|
  {
    if |path| == 1 then FindNameInBlock(s, Children(s, from), path[0])
    else
      var next := FindNamespace(s, Children(s, from), path[0]);
      if next == INVALID then INVALID else Descend(s, next, path[1..])
  }

  // `k` is the innermost of the blocks for which `hit` finds something.
  ghost predicate Innermost(blocks: seq<Id>, hit: Id -> Id, k: nat) {
    k < |blocks| && hit(blocks[k]) != INVALID && forall j :: 0 <= j < k ==> hit(blocks[j]) == INVALID
  }

  ghost function NameIn(s: Store, name: string): Id -> Id {
    block => FindNameInBlock(s, Children(s, block), name)
  }

  ghost function NamespaceIn(s: Store, name: string): Id -> Id {
    block => FindNamespace(s, Children(s, block), name)
  }

  // What is looked for in each block on the way: the name itself, or the first namespace of a path.
  ghost function Hit(s: Store, path: seq<string>): Id -> Id
    requires path != []
  {
    if |path| == 1 then NameIn(s, path[0]) else NamespaceIn(s, path[0])
  }

  // ---------- the climb, and when it ends ----------

  // The block the climb has come to after `n` steps; from the top it goes nowhere.
  function Climbed(s: Store, start: Id, n: nat): Id {
    if n == 0 then start
    else
      var block := Climbed(s, start, n - 1);
      if block == INVALID then INVALID else Around(s, block)
  }

  // The climb stops here: it has come to the top, or to a block that has what is looked for.
  ghost predicate Rests(s: Store, hit: Id -> Id, start: Id, n: nat) {
    Climbed(s, start, n) == INVALID || hit(Climbed(s, start, n)) != INVALID
  }

  ghost predicate RestsFirst(s: Store, hit: Id -> Id, start: Id, n: nat) {
    Rests(s, hit, start, n) && forall j: nat {:trigger Rests(s, hit, start, j)} :: j < n ==> !Rests(s, hit, start, j)
  }

  // The loop of a lookup comes to an end.
  ghost predicate Ends(s: Store, hit: Id -> Id, start: Id) {
    exists n: nat {:trigger Rests(s, hit, start, n)} :: Rests(s, hit, start, n)
  }

  lemma {:induction false} FirstRest(s: Store, hit: Id -> Id, start: Id, n: nat) returns (first: nat)
    requires Rests(s, hit, start, n)
    ensures first <= n && RestsFirst(s, hit, start, first)
    decreases n
  {
    hide Rests;
    if j: nat :| j < n && Rests(s, hit, start, j) { first := FirstRest(s, hit, start, j); } else { first := n; }
  }

  lemma {:induction false} ClimbedIsBlock(s: Store, start: Id, n: nat)
    requires HasBlock(s, start)
    ensures Climbed(s, start, n) == INVALID || HasBlock(s, Climbed(s, start, n))
  {
    if n > 0 {
      ClimbedIsBlock(s, start, n - 1);
      var block := Climbed(s, start, n - 1);
      FoundIsBlock(s, block + 1, INVALID);
      if block < |s| && s[block].parent.Some? { FoundIsBlock(s, s[block].parent.value, INVALID); }
      hide FindBlock;
    }
  }

  // The way on from a block does not depend on how it was reached.
  lemma {:induction false} ClimbOn(s: Store, start: Id, i: nat, j: nat, n: nat)
    requires Climbed(s, start, i) == Climbed(s, start, j)
    ensures Climbed(s, start, i + n) == Climbed(s, start, j + n)
  {
    hide Around;
    if n > 0 { ClimbOn(s, start, i, j, n - 1); }
  }

  // The blocks passed on the way to the first rest.
  ghost function Passed(s: Store, start: Id, n: nat): set<Id> {
    if n == 0 then {} else Passed(s, start, n - 1) + {Climbed(s, start, n - 1)}
  }

  lemma {:induction false} PassedMember(s: Store, start: Id, n: nat, x: Id) returns (i: nat)
    requires x in Passed(s, start, n)
    ensures i < n && Climbed(s, start, i) == x
  {
    hide Climbed;
    if x == Climbed(s, start, n - 1) { i := n - 1; } else { i := PassedMember(s, start, n - 1, x); }
  }

  lemma {:induction false} RestAgain(s: Store, hit: Id -> Id, start: Id, i: nat, j: nat, n: nat)
    requires Climbed(s, start, i) == Climbed(s, start, j) && Rests(s, hit, start, j + n)
    ensures Rests(s, hit, start, i + n)
  {
    ClimbOn(s, start, i, j, n);
    hide Climbed;
  }

  // The climb does not come back to a block before it rests.
  lemma {:induction false} NoReturn(s: Store, hit: Id -> Id, start: Id, first: nat, i: nat, j: nat)
    requires RestsFirst(s, hit, start, first) && i < j <= first
    ensures Climbed(s, start, i) != Climbed(s, start, j)
  {
    hide Climbed, Rests;
    if Climbed(s, start, i) == Climbed(s, start, j) { RestAgain(s, hit, start, i, j, first - j); }
  }

  lemma {:induction false} NotAtRest(s: Store, hit: Id -> Id, start: Id, first: nat, n: nat)
    requires HasBlock(s, start) && RestsFirst(s, hit, start, first) && n < first
    ensures Climbed(s, start, n) < |s|
  {
    ClimbedIsBlock(s, start, n);
    hide Climbed;
    assert !Rests(s, hit, start, n);
  }

  lemma {:induction false} PassedDistinct(s: Store, hit: Id -> Id, start: Id, first: nat, n: nat)
    requires HasBlock(s, start) && RestsFirst(s, hit, start, first) && n <= first
    ensures |Passed(s, start, n)| == n && forall x :: x in Passed(s, start, n) ==> x < |s|
  {
    hide Climbed, RestsFirst;
    if n > 0 {
      PassedDistinct(s, hit, start, first, n - 1);
      var x := Climbed(s, start, n - 1);
      NotAtRest(s, hit, start, first, n - 1);
      if x in Passed(s, start, n - 1) {
        var i := PassedMember(s, start, n - 1, x);
        NoReturn(s, hit, start, first, i, n - 1);
      }
    }
  }

  /**
   A lookup ends if and only if its climb comes to the top, or to a block with what is looked for, within as
   many steps as there are entities.
   */
  lemma {:induction false} EndsIff(s: Store, hit: Id -> Id, start: Id)
    requires HasBlock(s, start)
    ensures Ends(s, hit, start) <==> exists n: nat {:trigger Rests(s, hit, start, n)} :: n <= |s| && Rests(s, hit, start, n)
  {
    hide Rests, RestsFirst;
    if n: nat :| Rests(s, hit, start, n) {
      var first := FirstRest(s, hit, start, n);
      PassedDistinct(s, hit, start, first, first);
      CardinalityMonotone(Passed(s, start, first), Below(|s|));
      assert Rests(s, hit, start, first) by { RestsElim(s, hit, start, first); }
    }
  }

  lemma {:induction false} RestsElim(s: Store, hit: Id -> Id, start: Id, first: nat)
    requires RestsFirst(s, hit, start, first)
    ensures Rests(s, hit, start, first)
  {}

  // ---------- what a lookup finds ----------

  // What is found from the block where the climb rests.
  function FoundFrom(s: Store, path: seq<string>, block: Id): Id
    requires path != []
  {
    if block == INVALID then INVALID
    else if |path| == 1 then FindNameInBlock(s, Children(s, block), path[0])
    else
      var ns := FindNamespace(s, Children(s, block), path[0]);
      if ns == INVALID then INVALID else Descend(s, ns, path[1..])
  }

  ghost predicate Finds(s: Store, path: seq<string>, start: Id, r: Id)
    requires path != []
  {
    exists n: nat {:trigger RestsFirst(s, Hit(s, path), start, n)} ::
      RestsFirst(s, Hit(s, path), start, n) && r == FoundFrom(s, path, Climbed(s, start, n))
  }

  /**
   Looks up a dotted path, wherever the climb ends.  A plain name is the first match of the first block on the
   way that has one; a dotted name commits to the first block that holds its first namespace, and descends.
   */
  method LookupResolve(s: Store, path: seq<string>, searchStart: Id, strict: bool) returns (r: Id)
    requires path != []
    requires var start := FindBlock(s, searchStart, if strict then searchStart else INVALID);
             start != INVALID ==> Ends(s, Hit(s, path), start)
    ensures Finds(s, path, FindBlock(s, searchStart, if strict then searchStart else INVALID), r)
  {
    var block := FindBlock(s, searchStart, if strict then searchStart else INVALID);
    FoundIsBlock(s, searchStart, if strict then searchStart else INVALID);
    hide FindBlock, Around, FindNameInBlock, FindNamespace;
    if block == INVALID {
      assert RestsFirst(s, Hit(s, path), block, 0);
      return INVALID;
    }
    if |path| > 1 {
      r := LookupDotted(s, path, block);
    } else {
      r := LookupPlain(s, path, block);
    }
  }

  lemma {:induction false} HitIs(s: Store, path: seq<string>, block: Id)
    requires path != []
    ensures Hit(s, path)(block) ==
            if |path| == 1 then FindNameInBlock(s, Children(s, block), path[0]) else FindNamespace(s, Children(s, block), path[0])
  {}

  // One more step of a climb that has not come to rest.
  lemma {:induction false} ClimbStep(s: Store, hit: Id -> Id, start: Id, i: nat, first: nat)
    requires RestsFirst(s, hit, start, first) && i <= first && HasBlock(s, start)
    requires Climbed(s, start, i) != INVALID
    ensures HasBlock(s, Climbed(s, start, i))
    ensures hit(Climbed(s, start, i)) == INVALID ==> i < first && Climbed(s, start, i + 1) == Around(s, Climbed(s, start, i))
    ensures hit(Climbed(s, start, i)) != INVALID ==> i == first
  {
    ClimbedIsBlock(s, start, i);
    hide Around;
    assert Rests(s, hit, start, first);
    if i < first { assert !Rests(s, hit, start, i); }
  }

  lemma {:induction false} RestsAtTop(s: Store, hit: Id -> Id, start: Id, i: nat, first: nat)
    requires RestsFirst(s, hit, start, first) && i <= first && Climbed(s, start, i) == INVALID
    ensures i == first
  {
    hide Climbed;
    assert Rests(s, hit, start, i);
  }

  lemma {:induction false} FindsIntro(s: Store, path: seq<string>, start: Id, n: nat, r: Id)
    requires path != [] && RestsFirst(s, Hit(s, path), start, n) && r == FoundFrom(s, path, Climbed(s, start, n))
    ensures Finds(s, path, start, r)
  {
    hide RestsFirst, Hit, FoundFrom, Climbed;
  }

  method LookupDotted(s: Store, path: seq<string>, start: Id) returns (r: Id)
    requires |path| > 1 && start != INVALID && HasBlock(s, start) && Ends(s, Hit(s, path), start)
    ensures Finds(s, path, start, r)
  {
    hide Hit, FindBlock, Around, FindNameInBlock, FindNamespace, Descend, Finds, Children, RestsFirst, Rests, Climbed;
    ghost var hit := Hit(s, path);
    ghost var n: nat :| Rests(s, hit, start, n);
    ghost var first := FirstRest(s, hit, start, n);
    var block := start;
    ghost var i: nat := 0;
    ClimbedZero(s, start);
    HitIs(s, path, block);
    var ns := FindNamespace(s, Children(s, block), path[0]);
    while ns == INVALID
      invariant block != INVALID && i <= first && block == Climbed(s, start, i) && ns == hit(block)
      invariant ns == FindNamespace(s, Children(s, block), path[0])
      decreases first - i
    {
      ClimbStep(s, hit, start, i, first);
      block := Around(s, block);
      i := i + 1;
      if block == INVALID {
        RestsAtTop(s, hit, start, i, first);
        FindsIntro(s, path, start, i, INVALID);
        return INVALID;
      }
      HitIs(s, path, block);
      ns := FindNamespace(s, Children(s, block), path[0]);
    }
    ClimbStep(s, hit, start, i, first);
    r := DescendPath(s, ns, path[1..]);
    FindsIntro(s, path, start, i, r);
  }

  method LookupPlain(s: Store, path: seq<string>, start: Id) returns (r: Id)
    requires |path| == 1 && start != INVALID && HasBlock(s, start) && Ends(s, Hit(s, path), start)
    ensures Finds(s, path, start, r)
  {
    hide Hit, FindBlock, Around, FindNameInBlock, FindNamespace, Descend, Finds, Children, RestsFirst, Rests, Climbed;
    ghost var hit := Hit(s, path);
    ghost var n: nat :| Rests(s, hit, start, n);
    ghost var first := FirstRest(s, hit, start, n);
    var block := start;
    ghost var i: nat := 0;
    ClimbedZero(s, start);
    while block < |s| && block != INVALID
      invariant i <= first && block == Climbed(s, start, i)
      decreases first - i, if block == INVALID then 0 else 1
    {
      ClimbStep(s, hit, start, i, first);
      HitIs(s, path, block);
      r := FindNameInBlock(s, Children(s, block), path[0]);
      if r != INVALID {
        FindsIntro(s, path, start, i, r);
        return;
      }
      block := Around(s, block);
      i := i + 1;
    }
    if block != INVALID { ClimbStep(s, hit, start, i, first); }
    RestsAtTop(s, hit, start, i, first);
    r := INVALID;
    FindsIntro(s, path, start, i, r);
  }

  lemma {:induction false} ClimbedZero(s: Store, start: Id)
    ensures Climbed(s, start, 0) == start
  {}

  // ---------- sorted modules ----------

  /** What a lookup finds in a sorted module, said without the climb. */
  ghost predicate FindsInnermost(s: Store, path: seq<string>, blocks: seq<Id>, r: Id)
    requires path != []
  {
    var hit := Hit(s, path);
    || (r == INVALID && forall k :: 0 <= k < |blocks| ==> hit(blocks[k]) == INVALID)
    || exists k: nat {:trigger Innermost(blocks, hit, k)} :: Innermost(blocks, hit, k) && r == FoundFrom(s, path, blocks[k])
  }

  // Where parents come after their blocks the climb passes the enclosing blocks, in order, and ends.
  lemma {:induction false} ClimbsEnclosing(s: Store, start: Id, n: nat)
    requires ParentsAbove(s) && HasBlock(s, start) && start != INVALID && n <= |Enclosing(s, start)|
    ensures if n < |Enclosing(s, start)| then Climbed(s, start, n) == Enclosing(s, start)[n] != INVALID else Climbed(s, start, n) == INVALID
  {
    if n > 0 {
      ClimbsEnclosing(s, start, n - 1);
      EnclosingNext(s, start, n - 1);
      hide ParentsAbove, Around, Enclosing;
    }
  }

  lemma {:induction false} EnclosingNext(s: Store, block: Id, i: nat)
    requires ParentsAbove(s) && HasBlock(s, block) && block != INVALID && i < |Enclosing(s, block)|
    ensures var r := Enclosing(s, block);
            Around(s, r[i]) == if i + 1 < |r| then r[i + 1] else INVALID
    ensures forall j :: 0 <= j < |Enclosing(s, block)| ==> Enclosing(s, block)[j] != INVALID
    decreases i, |s| - block
  {
    AroundAbove(s, block);
    var next := Around(s, block);
    hide ParentsAbove, Around;
    if next == INVALID {
      assert Enclosing(s, next) == [];
    } else {
      assert Enclosing(s, next)[0] == next;
      if i > 0 { EnclosingNext(s, next, i - 1); } else { EnclosingThere(s, next); }
    }
  }

  lemma {:induction false} EnclosingThere(s: Store, block: Id)
    requires ParentsAbove(s) && HasBlock(s, block) && block != INVALID
    ensures forall j :: 0 <= j < |Enclosing(s, block)| ==> Enclosing(s, block)[j] != INVALID
    decreases |s| - block
  {
    AroundAbove(s, block);
    var next := Around(s, block);
    hide ParentsAbove, Around;
    if next != INVALID { EnclosingThere(s, next); } else { assert Enclosing(s, next) == []; }
  }

  /** On sorted modules every lookup ends, at the innermost enclosing block that has what it looks for. */
  lemma {:induction false} SortedLookup(s: Store, path: seq<string>, start: Id, r: Id)
    requires ParentsAbove(s) && path != [] && HasBlock(s, start) && start != INVALID
    ensures Ends(s, Hit(s, path), start)
    ensures Finds(s, path, start, r) ==> FindsInnermost(s, path, Enclosing(s, start), r)
  {
    hide ParentsAbove, Enclosing, Hit, FoundFrom, Climbed;
    var blocks, hit := Enclosing(s, start), Hit(s, path);
    ClimbsEnclosing(s, start, |blocks|);
    assert Rests(s, hit, start, |blocks|);
    if Finds(s, path, start, r) {
      var n: nat :| RestsFirst(s, hit, start, n) && r == FoundFrom(s, path, Climbed(s, start, n));
      assert n <= |blocks|;
      ClimbsEnclosing(s, start, n);
      forall j | 0 <= j < n ensures hit(blocks[j]) == INVALID {
        ClimbsEnclosing(s, start, j);
        assert !Rests(s, hit, start, j);
      }
      if n == |blocks| {
        assert r == INVALID by { FoundNothing(s, path); }
      } else {
        assert Innermost(blocks, hit, n);
      }
    }
  }

  lemma {:induction false} FoundNothing(s: Store, path: seq<string>)
    requires path != []
    ensures FoundFrom(s, path, INVALID) == INVALID
  {}

  method DescendPath(s: Store, from: Id, path: seq<string>) returns (r: Id)
    requires path != []
    ensures r == Descend(s, from, path)
  {
    var ns := from;
    var i := 0;
    while i < |path| - 1
      invariant 0 <= i < |path| && Descend(s, from, path) == Descend(s, ns, path[i..])
    {
      ns := FindNamespace(s, Children(s, ns), path[i]);
      assert path[i..][1..] == path[i + 1..];
      if ns == INVALID { return INVALID; }
      i := i + 1;
    }
    r := FindNameInBlock(s, Children(s, ns), path[|path| - 1]);
  }

  lemma {:induction false} FoundIsBlock(s: Store, e: Id, mustContain: Id)
    ensures var b := FindBlock(s, e, mustContain); b == INVALID || (b < |s| && s[b].block.Some?)
  {
    FindBlockIsLeast(s, e, mustContain);
  }

  /** Canonical numbering gives the order that lookups need. */
  lemma {:induction false} CanonicalParentsAbove(s: Store, root: Id, kids: Forest)
    requires Tree(s, root, kids) && Parents(s, kids, root) && Consecutive(Cons(root, kids, Nil), 1)
    requires forall e {:trigger s[e]} :: 0 <= e < |s| && s[e].block.Some? && s[e].parent.Some? ==> e in Ids(kids)
    ensures ParentsAbove(s)
  {
    hide Tree, Parents, Consecutive, Ids;
    forall e {:trigger s[e]} | 0 <= e < |s| && s[e].block.Some? && s[e].parent.Some? ensures s[e].parent.value > e {
      ParentInTree(s, root, kids, e);
      TreeOf(s, root, kids);
      AboveChildren(s, Cons(root, kids, Nil), 1, s[e].parent.value, e);
    }
  }
}
