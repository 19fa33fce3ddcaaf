/** The walk of sema/canonicalize/sort.cpp: post-order, with the children of functions sorted on the way. */
module SortWalk {
  import opened Wrappers
  import opened Store
  import opened Shapes

  // The order of a function's children: parameters first by index, the rest by id.
  predicate Less(s: Store, a: Id, b: Id) {
    var pa := if a < |s| then s[a].data.param else None;
    var pb := if b < |s| then s[b].data.param else None;
    if pa.Some? && pb.Some? then pa.value < pb.value
    else if pa.Some? then true
    else if pb.Some? then false
    else a < b
  }

  ghost predicate Ordered(s: Store, xs: seq<Id>) {
    forall i, j :: 0 <= i < j < |xs| ==> !Less(s, xs[j], xs[i])
  }

  ghost predicate Distinct(xs: seq<Id>) {
    forall i, j :: 0 <= i < j < |xs| ==> xs[i] != xs[j]
  }

  /** Sorted children: the parameters come first, by index; the others follow, by id. */
  lemma {:induction false} ParametersFirst(s: Store, xs: seq<Id>, i: nat, j: nat)
    requires Ordered(s, xs) && i < j < |xs| && xs[i] < |s| && xs[j] < |s|
    ensures s[xs[j]].data.param.Some? ==>
              s[xs[i]].data.param.Some? && s[xs[i]].data.param.value <= s[xs[j]].data.param.value
    ensures s[xs[i]].data.param.None? ==> s[xs[j]].data.param.None? && xs[i] <= xs[j]
  {
    assert !Less(s, xs[j], xs[i]);
  }

  // ---------- the library sort, up to the order of equals ----------

  method StdSort(s: Store, xs: seq<Id>) returns (ys: seq<Id>)
    ensures multiset(ys) == multiset(xs) && Ordered(s, ys)
  {
    ys := [];
    for i := 0 to |xs|
      invariant multiset(ys) == multiset(xs[..i]) && Ordered(s, ys)
    {
      ys := InsertSorted(s, ys, xs[i]);
      assert xs[..i + 1] == xs[..i] + [xs[i]];
    }
    assert xs[..|xs|] == xs;
  }

  method InsertSorted(s: Store, xs: seq<Id>, x: Id) returns (ys: seq<Id>)
    requires Ordered(s, xs)
    ensures multiset(ys) == multiset(xs) + multiset{x} && Ordered(s, ys)
  {
    var k: nat := |xs|;
    while k > 0 && Less(s, x, xs[k - 1])
      invariant k <= |xs| && forall j :: k <= j < |xs| ==> Less(s, x, xs[j])
    {
      k := k - 1;
    }
    ys := xs[..k] + [x] + xs[k..];
    InsertOrdered(s, xs, k, x);
    InsertCount(xs, k, x);
  }

  lemma {:induction false} InsertCount(xs: seq<Id>, k: nat, x: Id)
    requires k <= |xs|
    ensures multiset(xs[..k] + [x] + xs[k..]) == multiset(xs) + multiset{x}
  {
    assert xs == xs[..k] + xs[k..];
  }

  lemma {:induction false} InsertOrdered(s: Store, xs: seq<Id>, k: nat, x: Id)
    requires Ordered(s, xs) && k <= |xs|
    requires forall j :: k <= j < |xs| ==> Less(s, x, xs[j])
    requires k > 0 ==> !Less(s, x, xs[k - 1])
    ensures Ordered(s, xs[..k] + [x] + xs[k..])
  {
    var ys := xs[..k] + [x] + xs[k..];
    forall i, j | 0 <= i < j < |ys| ensures !Less(s, ys[j], ys[i]) {
      InsertPair(s, xs, k, x, i, j);
    }
  }

  lemma {:induction false} InsertPair(s: Store, xs: seq<Id>, k: nat, x: Id, i: nat, j: nat)
    requires Ordered(s, xs) && k <= |xs| && i < j <= |xs|
    requires forall j :: k <= j < |xs| ==> Less(s, x, xs[j])
    requires k > 0 ==> !Less(s, x, xs[k - 1])
    ensures var ys := xs[..k] + [x] + xs[k..]; !Less(s, ys[j], ys[i])
  {
    if j == k {
      if i < k - 1 { assert !Less(s, xs[k - 1], xs[i]); }
    }
  }

  // ---------- lists without repetitions ----------

  lemma {:induction false} DistinctCount(xs: seq<Id>, v: Id)
    requires Distinct(xs)
    ensures multiset(xs)[v] <= 1
    decreases |xs|
  {
    if xs != [] {
      assert xs == [xs[0]] + xs[1..];
      DistinctCount(xs[1..], v);
      if xs[0] == v { assert v !in xs[1..]; }
    }
  }

  lemma {:induction false} RepeatCount(xs: seq<Id>, i: nat, j: nat)
    requires i < j < |xs| && xs[i] == xs[j]
    ensures multiset(xs)[xs[i]] >= 2
  {
    assert xs == xs[..j] + xs[j..];
    assert xs[..j][i] == xs[i] && xs[j..][0] == xs[j];
    assert xs[i] in multiset(xs[..j]) && xs[i] in multiset(xs[j..]);
  }

  lemma {:induction false} PermutedDistinct(xs: seq<Id>, ys: seq<Id>)
    requires Distinct(xs) && multiset(xs) == multiset(ys)
    ensures Distinct(ys)
  {
    forall i, j | 0 <= i < j < |ys| ensures ys[i] != ys[j] {
      if ys[i] == ys[j] {
        RepeatCount(ys, i, j);
        DistinctCount(xs, ys[i]);
      }
    }
  }

  lemma {:induction false} PermutedMember(xs: seq<Id>, ys: seq<Id>, x: Id)
    requires multiset(xs) == multiset(ys)
    ensures x in xs <==> x in ys
  {
    assert x in multiset(xs) <==> x in multiset(ys);
  }

  // ---------- rearranging siblings ----------

  // What hangs below the root `x`.
  function Pick(f: Forest, x: Id): (r: Forest)
    requires x in Roots(f)
    ensures Size(r) < Size(f)
  {
    if f.id == x then f.kids else Pick(f.rest, x)
  }

  // The trees of `f` in the order `xs` names their roots.
  function Arrange(f: Forest, xs: seq<Id>): (r: Forest)
    requires forall i :: 0 <= i < |xs| ==> xs[i] in Roots(f)
    ensures Roots(r) == xs
    decreases |xs|
  {
    if xs == [] then Nil else Cons(xs[0], Pick(f, xs[0]), Arrange(f, xs[1..]))
  }

  lemma {:induction false} PickRep(s: Store, f: Forest, x: Id)
    requires Rep(s, f) && x in Roots(f)
    ensures x < |s| && Children(s, x) == Roots(Pick(f, x)) && Rep(s, Pick(f, x))
    decreases f
  {
    if f.id != x { PickRep(s, f.rest, x); }
  }

  lemma {:induction false} ArrangeRep(s: Store, f: Forest, xs: seq<Id>)
    requires Rep(s, f) && forall i :: 0 <= i < |xs| ==> xs[i] in Roots(f)
    ensures Rep(s, Arrange(f, xs))
    decreases |xs|
  {
    if xs != [] {
      PickRep(s, f, xs[0]);
      ArrangeRep(s, f, xs[1..]);
    }
  }

  lemma {:induction false} PickIds(f: Forest, x: Id)
    requires x in Roots(f)
    ensures x in Ids(f) && Ids(Pick(f, x)) <= Ids(f)
    decreases f
  {
    if f.id != x { PickIds(f.rest, x); }
  }

  lemma {:induction false} PickNoDup(f: Forest, x: Id)
    requires NoDup(f) && x in Roots(f)
    ensures NoDup(Pick(f, x)) && x !in Ids(Pick(f, x))
    decreases f
  {
    if f.id != x { PickNoDup(f.rest, x); }
  }

  lemma {:induction false} PicksApart(f: Forest, x: Id, y: Id)
    requires NoDup(f) && x in Roots(f) && y in Roots(f) && x != y
    ensures ({x} + Ids(Pick(f, x))) !! ({y} + Ids(Pick(f, y)))
    decreases f
  {
    if f.id == x { PickIds(f.rest, y); }
    else if f.id == y { PickIds(f.rest, x); }
    else { PicksApart(f.rest, x, y); }
  }

  lemma {:induction false} ArrangeMember(f: Forest, xs: seq<Id>, z: Id)
    requires forall i :: 0 <= i < |xs| ==> xs[i] in Roots(f)
    ensures z in Ids(Arrange(f, xs)) <==> exists i :: 0 <= i < |xs| && z in {xs[i]} + Ids(Pick(f, xs[i]))
    decreases |xs|
  {
    if xs != [] {
      ArrangeMember(f, xs[1..], z);
      if i :| 0 <= i < |xs[1..]| && z in {xs[1..][i]} + Ids(Pick(f, xs[1..][i])) {
        assert z in {xs[i + 1]} + Ids(Pick(f, xs[i + 1]));
      }
      if i :| 0 <= i < |xs| && z in {xs[i]} + Ids(Pick(f, xs[i])) {
        if i > 0 { assert z in {xs[1..][i - 1]} + Ids(Pick(f, xs[1..][i - 1])); }
      }
    }
  }

  lemma {:induction false} RootOf(f: Forest, z: Id) returns (i: nat)
    requires z in Ids(f)
    ensures i < |Roots(f)| && Roots(f)[i] in Roots(f)
    ensures NoDup(f) ==> z in {Roots(f)[i]} + Ids(Pick(f, Roots(f)[i]))
    decreases f
  {
    if z == f.id || z in Ids(f.kids) {
      i := 0;
    } else {
      var k := RootOf(f.rest, z);
      i := k + 1;
      RootsInIds(f.rest, k);
    }
  }

  lemma {:induction false} ArrangeNoDup(f: Forest, xs: seq<Id>)
    requires NoDup(f) && Distinct(xs) && forall i :: 0 <= i < |xs| ==> xs[i] in Roots(f)
    ensures NoDup(Arrange(f, xs))
    decreases |xs|
  {
    if xs != [] {
      var g := Arrange(f, xs[1..]);
      ArrangeNoDup(f, xs[1..]);
      PickNoDup(f, xs[0]);
      forall z | z in {xs[0]} + Ids(Pick(f, xs[0])) ensures z !in Ids(g) {
        ArrangeMember(f, xs[1..], z);
        forall i | 0 <= i < |xs[1..]| ensures z !in {xs[1..][i]} + Ids(Pick(f, xs[1..][i])) {
          PicksApart(f, xs[0], xs[i + 1]);
        }
      }
    }
  }

  /** Rearranging the siblings of a tree keeps its members, and it stays a tree. */
  lemma {:induction false} Arranged(s: Store, f: Forest, xs: seq<Id>)
    requires Rep(s, f) && NoDup(f) && multiset(xs) == multiset(Roots(f))
    ensures forall i :: 0 <= i < |xs| ==> xs[i] in Roots(f)
    ensures var g := Arrange(f, xs); Roots(g) == xs && Rep(s, g) && NoDup(g) && Ids(g) == Ids(f)
  {
    hide NoDup, Rep, Pick, Ids;
    forall i | 0 <= i < |xs| ensures xs[i] in Roots(f) { PermutedMember(xs, Roots(f), xs[i]); }
    forall i, j | 0 <= i < j < |Roots(f)| ensures Roots(f)[i] != Roots(f)[j] { RootsDistinct(f, i, j); }
    PermutedDistinct(Roots(f), xs);
    hide Roots, Arrange;
    ArrangeRep(s, f, xs);
    ArrangeNoDup(f, xs);
    forall z ensures z in Ids(Arrange(f, xs)) <==> z in Ids(f) { ArrangedMember(f, xs, z); }
  }

  lemma {:induction false} ArrangedMember(f: Forest, xs: seq<Id>, z: Id)
    requires NoDup(f) && multiset(xs) == multiset(Roots(f))
    requires forall i :: 0 <= i < |xs| ==> xs[i] in Roots(f)
    ensures z in Ids(Arrange(f, xs)) <==> z in Ids(f)
  {
    hide Arrange, Ids, NoDup, Pick, Roots;
    ArrangeMember(f, xs, z);
    if z in Ids(f) {
      var i := RootOf(f, z);
      PermutedMember(Roots(f), xs, Roots(f)[i]);
      var k :| 0 <= k < |xs| && xs[k] == Roots(f)[i];
    } else if i :| 0 <= i < |xs| && z in {xs[i]} + Ids(Pick(f, xs[i])) {
      PickIds(f, xs[i]);
    }
  }

  // ---------- what the walk does to child lists ----------

  predicate Sorts(x: Entity) {
    x.block.Some? && x.links.returnType.Some?
  }

  // A function's children come in order; nothing else about the entity changes.
  ghost predicate Resort(s: Store, x: Entity, y: Entity) {
    if Sorts(x) then
      y.block.Some? && y == x.(block := y.block)
      && multiset(y.block.value) == multiset(x.block.value) && Ordered(s, y.block.value)
    else y == x
  }

  ghost predicate Resorted(s: Store, t: Store, ids: set<Id>) {
    && |t| == |s|
    && forall y {:trigger t[y]} :: 0 <= y < |s| ==> if y in ids then Resort(s, s[y], t[y]) else t[y] == s[y]
  }

  lemma {:induction false} ResortedData(s: Store, t: Store, ids: set<Id>)
    requires Resorted(s, t, ids)
    ensures forall y {:trigger t[y]} :: 0 <= y < |s| ==> t[y].data == s[y].data && t[y].links == s[y].links && t[y].parent == s[y].parent
  {}

  lemma {:induction false} ResortedAt(s: Store, t: Store, ids: set<Id>, e: Id)
    requires Resorted(s, t, ids) && e < |s|
    ensures |t| == |s| && (e !in ids ==> t[e] == s[e]) && (e in ids ==> Resort(s, s[e], t[e]))
  {}

  /** Said of the child lists alone: those of functions have the parameters first, by index, then the others by id. */
  lemma {:induction false} ResortedMeans(s: Store, t: Store, ids: set<Id>)
    requires Resorted(s, t, ids)
    ensures |t| == |s|
    ensures forall e: Id {:trigger t[e]} :: e < |s| ==>
              t[e].(block := s[e].block) == s[e]
              && if e in ids && s[e].block.Some? && s[e].links.returnType.Some? then
                   && t[e].block.Some?
                   && var xs := t[e].block.value;
                      (multiset(xs) == multiset(s[e].block.value)
                   && forall i, j :: 0 <= i < j < |xs| && xs[i] < |s| && xs[j] < |s| ==>
                        && (s[xs[j]].data.param.Some? ==> s[xs[i]].data.param.Some? && s[xs[i]].data.param.value <= s[xs[j]].data.param.value)
                        && (s[xs[i]].data.param.None? ==> xs[i] <= xs[j]))
                 else t[e].block == s[e].block
  {
    hide Ordered, Less;
    forall e: Id {:trigger t[e]} | e < |s|
      ensures t[e].(block := s[e].block) == s[e]
      ensures if e in ids && Sorts(s[e]) then
                t[e].block.Some? && multiset(t[e].block.value) == multiset(s[e].block.value) && Ordered(s, t[e].block.value)
              else t[e].block == s[e].block
    {
      assert if e in ids then Resort(s, s[e], t[e]) else t[e] == s[e];
    }
    forall xs, i, j {:trigger Ordered(s, xs), xs[i], xs[j]} | Ordered(s, xs) && 0 <= i < j < |xs| && xs[i] < |s| && xs[j] < |s|
      ensures s[xs[j]].data.param.Some? ==> s[xs[i]].data.param.Some? && s[xs[i]].data.param.value <= s[xs[j]].data.param.value
      ensures s[xs[i]].data.param.None? ==> xs[i] <= xs[j]
    {
      ParametersFirst(s, xs, i, j);
    }
  }

  lemma {:induction false} OrderedKept(s: Store, t: Store, xs: seq<Id>)
    requires |t| == |s| && forall y {:trigger t[y]} :: 0 <= y < |s| ==> t[y].data == s[y].data
    ensures Ordered(s, xs) <==> Ordered(t, xs)
  {
    assert forall a: Id, b: Id :: Less(s, a, b) == Less(t, a, b);
  }

  lemma {:induction false} ResortKept(s: Store, t: Store, x: Entity, y: Entity)
    requires |t| == |s| && forall y {:trigger t[y]} :: 0 <= y < |s| ==> t[y].data == s[y].data
    ensures Resort(s, x, y) <==> Resort(t, x, y)
  {
    if y.block.Some? { OrderedKept(s, t, y.block.value); }
  }

  lemma {:induction false} ResortedThen(s: Store, t: Store, u: Store, a: set<Id>, b: set<Id>)
    requires Resorted(s, t, a) && Resorted(t, u, b) && a !! b
    ensures Resorted(s, u, a + b)
  {
    ResortedData(s, t, a);
    forall y {:trigger u[y]} | 0 <= y < |s| ensures if y in a + b then Resort(s, s[y], u[y]) else u[y] == s[y] {
      ResortKept(s, t, s[y], u[y]);
      assert t[y] == s[y] || y in a;
    }
  }

  // Sorting one list.
  lemma {:induction false} ResortedOne(s: Store, e: Id, xs: seq<Id>)
    requires e < |s| && s[e].block.Some?
    requires if Sorts(s[e]) then multiset(xs) == multiset(s[e].block.value) && Ordered(s, xs) else xs == s[e].block.value
    ensures Resorted(s, s[e := s[e].(block := Some(xs))], {e})
  {
    assert !Sorts(s[e]) ==> s[e].(block := Some(xs)) == s[e];
  }

  // The part of the store below `f` is untouched by sorting elsewhere.
  lemma {:induction false} ResortedFrame(s: Store, t: Store, a: set<Id>, f: Forest)
    requires Resorted(s, t, a) && Rep(s, f) && a !! Ids(f)
    ensures Rep(t, f)
  {
    forall x | x in Ids(f) ensures Children(t, x) == Children(s, x) {
      RepInStore(s, f, x);
      assert t[x] == s[x];
    }
    RepFrame(s, t, f);
  }

  // ---------- the walk ----------

  // The finished part of a walk: new shape, new order, what was found.
  ghost predicate Walked(s: Store, t: Store, e: Id, xs: seq<Id>, all: set<Id>, done: Forest, todo: Forest) {
    && Rep(t, done) && Rep(t, todo) && NoDup(done) && NoDup(todo)
    && Ids(done) !! Ids(todo) && Ids(done) + Ids(todo) == all && e !in all
    && Roots(done) + Roots(todo) == xs
    && Resorted(s, t, {e} + Ids(done))
    && e < |t| && t[e].block == Some(xs)
  }

  /**
   Walks a tree in post-order, sorting the children of functions first.  The order gained is the
   post-order of the tree as it stands afterwards; only child lists of functions are rearranged.
   */
  method SortTreeWalk(mod: Module, subtree: Id, order: seq<Id>, found: set<Id>, ghost kids: Forest)
    returns (order': seq<Id>, found': set<Id>, ghost kids': Forest)
    requires Rep(mod.ents, Cons(subtree, kids, Nil)) && NoDup(Cons(subtree, kids, Nil))
    requires found !! Ids(Cons(subtree, kids, Nil))
    modifies mod
    ensures Rep(mod.ents, Cons(subtree, kids', Nil)) && NoDup(Cons(subtree, kids', Nil)) && Ids(kids') == Ids(kids)
    ensures order' == order + Post(Cons(subtree, kids', Nil))
    ensures found' == found + {subtree} + Ids(kids)
    ensures Resorted(old(mod.ents), mod.ents, {subtree} + Ids(kids))
    ensures |mod.ents| == |old(mod.ents)|
    ensures forall e: Id {:trigger mod.ents[e]} :: e < |mod.ents| ==>
              var s, t := old(mod.ents), mod.ents;
              t[e].(block := s[e].block) == s[e]
              && if e in {subtree} + Ids(kids) && s[e].block.Some? && s[e].links.returnType.Some? then
                   && t[e].block.Some?
                   && var xs := t[e].block.value;
                      (multiset(xs) == multiset(s[e].block.value)
                   && forall i, j :: 0 <= i < j < |xs| && xs[i] < |s| && xs[j] < |s| ==>
                        && (s[xs[j]].data.param.Some? ==> s[xs[i]].data.param.Some? && s[xs[i]].data.param.value <= s[xs[j]].data.param.value)
                        && (s[xs[i]].data.param.None? ==> xs[i] <= xs[j]))
                 else t[e].block == s[e].block
    decreases Size(kids)
  {
    hide Walked, Resorted, Rep, NoDup, Ids, Post, Roots, Append, Size, Ordered, Children;
    ghost var start := mod.ents;
    TreeParts(mod.ents, subtree, kids);
    order', found', kids' := order, found, Nil;
    if subtree in found { return; }
    found' := found + {subtree};
    if mod.ents[subtree].block.Some? {
      ghost var s := mod.ents;
      var related := mod.ents[subtree].block.value;
      if mod.ents[subtree].links.returnType.Some? {
        related := StdSort(mod.ents, related);
        mod.ents := mod.ents[subtree := mod.ents[subtree].(block := Some(related))];
      }
      ghost var todo := WalkStart(s, mod.ents, subtree, kids, related);
      for i := 0 to |related|
        invariant Walked(s, mod.ents, subtree, related, Ids(kids), kids', todo)
        invariant |Roots(kids')| == i && Size(todo) <= Size(kids)
        invariant order' == order + Post(kids') && found' == found + {subtree} + Ids(kids')
      {
        WalkNext(s, mod.ents, subtree, related, Ids(kids), kids', todo, found, i);
        ghost var t := mod.ents;
        ghost var below: Forest;
        order', found', below := SortTreeWalk(mod, related[i], order', found', todo.kids);
        WalkStep(s, t, mod.ents, subtree, related, Ids(kids), kids', todo, below);
        PostGrows(order, kids', related[i], below);
        FoundGrows(found, subtree, kids', related[i], todo.kids, below);
        kids' := Append(kids', Cons(related[i], below, Nil));
        todo := todo.rest;
      }
      WalkEnd(s, mod.ents, subtree, related, Ids(kids), kids', todo);
    } else {
      LeafWalk(mod.ents, subtree, kids);
    }
    order' := order' + [subtree];
    PostEnd(order, kids', subtree);
    ResortedMeans(start, mod.ents, {subtree} + Ids(kids));
  }

  lemma {:induction false} TreeParts(s: Store, e: Id, kids: Forest)
    requires Rep(s, Cons(e, kids, Nil)) && NoDup(Cons(e, kids, Nil))
    ensures e < |s| && Children(s, e) == Roots(kids) && Rep(s, kids) && NoDup(kids) && e !in Ids(kids)
    ensures Ids(Cons(e, kids, Nil)) == {e} + Ids(kids)
    ensures Roots(Nil) == [] && Post(Nil) == [] && Ids(Nil) == {}
  {}

  lemma {:induction false} TreeIntro(s: Store, e: Id, kids: Forest)
    requires e < |s| && Children(s, e) == Roots(kids) && Rep(s, kids) && NoDup(kids) && e !in Ids(kids)
    ensures Rep(s, Cons(e, kids, Nil)) && NoDup(Cons(e, kids, Nil)) && Ids(Cons(e, kids, Nil)) == {e} + Ids(kids)
  {}

  lemma {:induction false} LeafWalk(s: Store, e: Id, kids: Forest)
    requires e < |s| && s[e].block.None? && Children(s, e) == Roots(kids)
    ensures kids == Nil && Ids(kids) == {} && Resorted(s, s, {e} + Ids(kids))
  {
    RootsNonEmpty(kids);
  }

  lemma {:induction false} WalkStart(s: Store, t: Store, e: Id, kids: Forest, xs: seq<Id>) returns (todo: Forest)
    requires e < |s| && s[e].block.Some? && Children(s, e) == Roots(kids) && Rep(s, kids) && NoDup(kids) && e !in Ids(kids)
    requires if Sorts(s[e]) then multiset(xs) == multiset(s[e].block.value) && Ordered(s, xs) else xs == s[e].block.value
    requires t == if s[e].links.returnType.Some? then s[e := s[e].(block := Some(xs))] else s
    ensures Walked(s, t, e, xs, Ids(kids), Nil, todo) && Size(todo) <= Size(kids)
  {
    hide *;
    StartResorted(s, t, e, xs);
    StartPermuted(s, e, kids, xs);
    todo := StartShape(s, t, e, kids, xs);
    WalkedStart(s, t, e, xs, Ids(kids), todo);
  }

  lemma {:induction false} StartResorted(s: Store, t: Store, e: Id, xs: seq<Id>)
    requires e < |s| && s[e].block.Some?
    requires if Sorts(s[e]) then multiset(xs) == multiset(s[e].block.value) && Ordered(s, xs) else xs == s[e].block.value
    requires t == if s[e].links.returnType.Some? then s[e := s[e].(block := Some(xs))] else s
    ensures Resorted(s, t, {e}) && e < |t| && t[e].block == Some(xs)
  {
    assert t == s[e := s[e].(block := Some(xs))] by { assert !Sorts(s[e]) ==> s[e := s[e]] == s; }
    ResortedOne(s, e, xs);
    hide Resorted, Ordered;
  }

  lemma {:induction false} StartPermuted(s: Store, e: Id, kids: Forest, xs: seq<Id>)
    requires e < |s| && s[e].block.Some? && Children(s, e) == Roots(kids)
    requires if Sorts(s[e]) then multiset(xs) == multiset(s[e].block.value) && Ordered(s, xs) else xs == s[e].block.value
    ensures multiset(xs) == multiset(Roots(kids))
  {
    hide Ordered, Roots;
  }

  lemma {:induction false} WalkedStart(s: Store, t: Store, e: Id, xs: seq<Id>, all: set<Id>, todo: Forest)
    requires Rep(t, todo) && NoDup(todo) && Ids(todo) == all && e !in all && Roots(todo) == xs && Resorted(s, t, {e})
    requires e < |t| && t[e].block == Some(xs)
    ensures Walked(s, t, e, xs, all, Nil, todo)
  {
    hide Resorted;
    assert {e} + Ids(Nil) == {e} && [] + Roots(todo) == xs;
    assert Rep(t, Nil) && NoDup(Nil) && Roots(Nil) == [];
    hide Rep, NoDup, Roots, Ids;
  }

  lemma {:induction false} StartShape(s: Store, t: Store, e: Id, kids: Forest, xs: seq<Id>) returns (todo: Forest)
    requires Rep(s, kids) && NoDup(kids) && e !in Ids(kids) && multiset(xs) == multiset(Roots(kids)) && Resorted(s, t, {e})
    ensures Roots(todo) == xs && Rep(t, todo) && NoDup(todo) && Ids(todo) == Ids(kids) && Size(todo) <= Size(kids)
    ensures Rep(t, Nil) && NoDup(Nil) && Ids(Nil) == {} && Roots(Nil) == []
  {
    Arranged(s, kids, xs);
    todo := Arrange(kids, xs);
    hide Arrange, Resorted;
    SizeIsCount(kids);
    SizeIsCount(todo);
    ResortedFrame(s, t, {e}, todo);
  }

  lemma {:induction false} WalkNext(s: Store, t: Store, e: Id, xs: seq<Id>, all: set<Id>, done: Forest, todo: Forest, found: set<Id>, i: nat)
    requires Walked(s, t, e, xs, all, done, todo) && i == |Roots(done)| < |xs| && found !! ({e} + all)
    ensures todo.Cons? && xs[i] == todo.id && Size(todo.kids) < Size(todo) && Size(todo.rest) <= Size(todo)
    ensures Rep(t, Cons(todo.id, todo.kids, Nil)) && NoDup(Cons(todo.id, todo.kids, Nil))
    ensures (found + {e} + Ids(done)) !! Ids(Cons(todo.id, todo.kids, Nil))
  {
    hide Resorted;
    RootsNonEmpty(todo);
    assert Roots(todo)[0] == todo.id;
    assert Ids(Cons(todo.id, todo.kids, Nil)) <= Ids(todo);
  }

  lemma {:induction false} WalkStep(s: Store, t: Store, u: Store, e: Id, xs: seq<Id>, all: set<Id>, done: Forest, todo: Forest, below: Forest)
    requires Walked(s, t, e, xs, all, done, todo) && todo.Cons?
    requires Rep(u, Cons(todo.id, below, Nil)) && NoDup(Cons(todo.id, below, Nil)) && Ids(below) == Ids(todo.kids)
    requires Resorted(t, u, {todo.id} + Ids(todo.kids))
    ensures Walked(s, u, e, xs, all, Append(done, Cons(todo.id, below, Nil)), todo.rest)
    ensures |Roots(Append(done, Cons(todo.id, below, Nil)))| == |Roots(done)| + 1
  {
    var one := Cons(todo.id, below, Nil);
    var here := {todo.id} + Ids(todo.kids);
    TodoParts(t, todo, below);
    hide Rep, NoDup, Resorted, Ids, Roots, Append;
    StepKept(s, t, u, e, all, done, todo, here, one);
    StepSets(u, all, done, todo, here, one);
    ConcatAssoc(Roots(done), Roots(one), Roots(todo.rest));
    ResortedAt(t, u, here, e);
    WalkedIntro(s, u, e, xs, all, Append(done, one), todo.rest);
  }

  lemma {:induction false} WalkedIntro(s: Store, t: Store, e: Id, xs: seq<Id>, all: set<Id>, done: Forest, todo: Forest)
    requires Rep(t, done) && Rep(t, todo) && NoDup(done) && NoDup(todo)
    requires Ids(done) !! Ids(todo) && Ids(done) + Ids(todo) == all && e !in all
    requires Roots(done) + Roots(todo) == xs && Resorted(s, t, {e} + Ids(done)) && e < |t| && t[e].block == Some(xs)
    ensures Walked(s, t, e, xs, all, done, todo)
  {}

  lemma {:induction false} StepSets(u: Store, all: set<Id>, done: Forest, todo: Forest, here: set<Id>, one: Forest)
    requires todo.Cons? && Rep(u, done) && Rep(u, one) && NoDup(done) && NoDup(one)
    requires Ids(done) !! Ids(todo) && Ids(todo) == here + Ids(todo.rest) && here !! Ids(todo.rest) && Ids(one) == here
    requires Ids(done) + Ids(todo) == all
    ensures Rep(u, Append(done, one)) && NoDup(Append(done, one))
    ensures Ids(Append(done, one)) !! Ids(todo.rest) && Ids(Append(done, one)) + Ids(todo.rest) == all
  {
    hide *;
    RepAppend(u, done, one);
    NoDupAppend(done, one);
  }

  lemma {:induction false} TodoParts(t: Store, todo: Forest, below: Forest)
    requires todo.Cons? && Rep(t, todo) && NoDup(todo) && Ids(below) == Ids(todo.kids)
    ensures var one, here := Cons(todo.id, below, Nil), {todo.id} + Ids(todo.kids);
            && Ids(one) == here && Ids(todo) == here + Ids(todo.rest) && here !! Ids(todo.rest)
            && Rep(t, todo.rest) && NoDup(todo.rest)
            && Roots(one) == [todo.id] && Roots(todo) == Roots(one) + Roots(todo.rest)
  {
    assert Roots(Cons(todo.id, below, Nil)) == [todo.id];
  }

  lemma {:induction false} StepKept(s: Store, t: Store, u: Store, e: Id, all: set<Id>, done: Forest, todo: Forest, here: set<Id>, one: Forest)
    requires todo.Cons? && Rep(t, done) && Rep(t, todo.rest) && Resorted(s, t, {e} + Ids(done)) && Resorted(t, u, here)
    requires Ids(done) !! Ids(todo) && Ids(todo) == here + Ids(todo.rest) && here !! Ids(todo.rest) && Ids(one) == here
    requires Ids(done) + Ids(todo) == all && e !in all
    ensures Rep(u, done) && Rep(u, todo.rest) && Resorted(s, u, {e} + Ids(Append(done, one)))
  {
    hide *;
    ResortedThen(s, t, u, {e} + Ids(done), here);
    assert {e} + Ids(done) + here == {e} + Ids(Append(done, one));
    ResortedFrame(t, u, here, done);
    ResortedFrame(t, u, here, todo.rest);
  }

  lemma {:induction false} RootsOne(e: Id, kids: Forest)
    ensures Roots(Cons(e, kids, Nil)) == [e]
  {}

  lemma {:induction false} PostGrows(order: seq<Id>, done: Forest, e: Id, below: Forest)
    ensures (order + Post(done)) + Post(Cons(e, below, Nil)) == order + Post(Append(done, Cons(e, below, Nil)))
  {
    PostAppend(done, Cons(e, below, Nil));
    hide *;
    ConcatAssoc(order, Post(done), Post(Cons(e, below, Nil)));
  }

  lemma {:induction false} PostAppend(f: Forest, g: Forest)
    ensures Post(Append(f, g)) == Post(f) + Post(g)
  {
    if f.Cons? {
      PostAppend(f.rest, g);
      ConcatAssoc(Post(f.kids) + [f.id], Post(f.rest), Post(g));
    }
  }

  lemma {:induction false} PostEnd(order: seq<Id>, kids: Forest, e: Id)
    ensures (order + Post(kids)) + [e] == order + Post(Cons(e, kids, Nil))
  {
    assert Post(Cons(e, kids, Nil)) == Post(kids) + [e] + [];
  }

  lemma {:induction false} FoundGrows(found: set<Id>, e: Id, done: Forest, x: Id, kids: Forest, below: Forest)
    requires Ids(below) == Ids(kids)
    ensures found + {e} + Ids(done) + {x} + Ids(kids) == found + {e} + Ids(Append(done, Cons(x, below, Nil)))
  {
    assert Ids(Cons(x, below, Nil)) == {x} + Ids(below);
  }

  lemma {:induction false} WalkEnd(s: Store, t: Store, e: Id, xs: seq<Id>, all: set<Id>, done: Forest, todo: Forest)
    requires Walked(s, t, e, xs, all, done, todo) && |Roots(done)| == |xs|
    ensures Rep(t, Cons(e, done, Nil)) && NoDup(Cons(e, done, Nil)) && Ids(done) == all
    ensures Resorted(s, t, {e} + all)
  {
    RootsNonEmpty(todo);
    assert Roots(done) == xs;
    TreeIntro(t, e, done);
    hide Resorted;
    assert Ids(todo) == {};
  }
}
