/** Renumbering every entity in post-order: `sort` of sema/canonicalize/sort.cpp. */
module Renumber {
  import opened Wrappers
  import opened Store
  import opened Shapes
  import opened SortWalk

  // `order` lists every number below its length once, and `inv` says where.
  ghost predicate Inverse(order: seq<Id>, inv: Renaming) {
    && |inv| == |order|
    && (forall i {:trigger order[i]} :: 0 <= i < |order| ==> order[i] < |inv| && inv[order[i]] == i)
    && (forall e {:trigger inv[e]} :: 0 <= e < |inv| ==> inv[e] < |order| && order[inv[e]] == e)
  }

  // `t` is `s` with entity `order[i]` moved to `i` and every reference following it.
  ghost predicate Renumbered(s: Store, t: Store, order: seq<Id>, inv: Renaming) {
    && |t| == |s| == |order| && Inverse(order, inv)
    && forall i {:trigger t[i]} :: 0 <= i < |t| ==> t[i] == MapRefs(inv, s[order[i]])
  }

  method ReorderEntities(mod: Module, order: seq<Id>) returns (ghost inv: Renaming)
    requires |order| == |mod.ents| && Distinct(order)
    requires forall i :: 0 <= i < |order| ==> order[i] < |order|
    requires forall e: Id :: e < |order| ==> e in order
    modifies mod
    ensures Renumbered(old(mod.ents), mod.ents, order, inv)
    // every reference component of every entity follows, and nothing else changes
    ensures |mod.ents| == |order| && forall i {:trigger mod.ents[i]} :: 0 <= i < |order| ==>
              var x, y := old(mod.ents)[order[i]], mod.ents[i];
              && y.data == x.data && y.block == SubOptIds(inv, x.block) && y.parent == SubOpt(inv, x.parent)
              && y.links.returnType == SubOpt(inv, x.links.returnType) && y.links.inputs == SubOptIds(inv, x.links.inputs)
              && y.links.pointer == (if x.links.pointer.Some? then Some(Pointer(Sub(inv, x.links.pointer.value.base), x.links.pointer.value.size)) else None)
              && y.links.alias == SubOpt(inv, x.links.alias) && y.links.typeOf == SubOpt(inv, x.links.typeOf)
              && y.links.call == SubOpt(inv, x.links.call) && y.links.printAs == SubOpt(inv, x.links.printAs)
  {
    var place := InvertOrder(order);
    inv := place;
    hide Inverse, MapRefs, Distinct, Renumbered, SubOpt, SubOptIds, Sub;
    var out: Store := [];
    for i := 0 to |order|
      invariant |out| == i && forall j :: 0 <= j < i ==> out[j] == MapRefs(place, mod.ents[order[j]])
    {
      out := out + [MapRefs(place, mod.ents[order[i]])];
    }
    ghost var s := mod.ents;
    mod.ents := out;
    RenumberedIntro(s, out, order, inv);
    RenumberedMeans(s, out, order, inv);
  }

  lemma {:induction false} RenumberedIntro(s: Store, t: Store, order: seq<Id>, inv: Renaming)
    requires |t| == |s| == |order| && Inverse(order, inv) && (forall i :: 0 <= i < |order| ==> order[i] < |s|)
    requires forall i :: 0 <= i < |t| ==> t[i] == MapRefs(inv, s[order[i]])
    ensures Renumbered(s, t, order, inv)
  {
    hide MapRefs;
  }

  lemma {:induction false} RenumberedMeans(s: Store, t: Store, order: seq<Id>, inv: Renaming)
    requires Renumbered(s, t, order, inv)
    ensures |t| == |order| && forall i {:trigger t[i]} :: 0 <= i < |order| ==>
              order[i] < |s| &&
              var x, y := s[order[i]], t[i];
              && y.data == x.data && y.block == SubOptIds(inv, x.block) && y.parent == SubOpt(inv, x.parent)
              && y.links.returnType == SubOpt(inv, x.links.returnType) && y.links.inputs == SubOptIds(inv, x.links.inputs)
              && y.links.pointer == (if x.links.pointer.Some? then Some(Pointer(Sub(inv, x.links.pointer.value.base), x.links.pointer.value.size)) else None)
              && y.links.alias == SubOpt(inv, x.links.alias) && y.links.typeOf == SubOpt(inv, x.links.typeOf)
              && y.links.call == SubOpt(inv, x.links.call) && y.links.printAs == SubOpt(inv, x.links.printAs)
  {
    hide MapRefs, SubOpt, SubOptIds, Sub;
    forall i {:trigger t[i]} | 0 <= i < |order| ensures order[i] < |s| && t[i] == MapRefs(inv, s[order[i]]) {}
    forall x { MapRefsMeans(inv, x); }
  }

  lemma {:induction false} MapRefsMeans(m: Renaming, x: Entity)
    ensures var y := MapRefs(m, x);
            && y.data == x.data && y.block == SubOptIds(m, x.block) && y.parent == SubOpt(m, x.parent)
            && y.links.returnType == SubOpt(m, x.links.returnType) && y.links.inputs == SubOptIds(m, x.links.inputs)
            && y.links.pointer == (if x.links.pointer.Some? then Some(Pointer(Sub(m, x.links.pointer.value.base), x.links.pointer.value.size)) else None)
            && y.links.alias == SubOpt(m, x.links.alias) && y.links.typeOf == SubOpt(m, x.links.typeOf)
            && y.links.call == SubOpt(m, x.links.call) && y.links.printAs == SubOpt(m, x.links.printAs)
  {
    hide SubOpt, SubOptIds, Sub;
  }

  method InvertOrder(order: seq<Id>) returns (inv: Renaming)
    requires Distinct(order)
    requires forall i :: 0 <= i < |order| ==> order[i] < |order|
    requires forall e: Id :: e < |order| ==> e in order
    ensures Inverse(order, inv)
  {
    inv := Identity(|order|);
    for i := 0 to |order|
      invariant |inv| == |order| && forall j :: 0 <= j < i ==> inv[order[j]] == j
    {
      inv := inv[order[i] := i];
    }
    forall e: Id | e < |inv| ensures inv[e] < |order| && order[inv[e]] == e {
      assert e in order;
      var i :| 0 <= i < |order| && order[i] == e;
    }
  }

  // The numbers from `lo` up to `n` that were not found, ascending.
  function Missing(found: set<Id>, lo: nat, n: nat): seq<Id>
    decreases n - lo
  {
    if lo >= n then [] else (if lo in found then [] else [lo]) + Missing(found, lo + 1, n)
  }

  lemma {:induction false} MissingMember(found: set<Id>, lo: nat, n: nat, x: Id)
    ensures x in Missing(found, lo, n) <==> lo <= x < n && x !in found
    decreases n - lo
  {
    if lo < n { MissingMember(found, lo + 1, n, x); }
  }

  lemma {:induction false} MissingDistinct(found: set<Id>, lo: nat, n: nat)
    ensures Distinct(Missing(found, lo, n))
    decreases n - lo
  {
    if lo < n {
      MissingDistinct(found, lo + 1, n);
      MissingMember(found, lo + 1, n, lo);
    }
  }

  // Once everything below `m` is found and nothing above, what is missing is the rest.
  lemma {:induction false} MissingTail(found: set<Id>, lo: nat, m: nat, n: nat)
    requires forall x: Id :: x in found <==> x < m
    requires lo <= m <= n
    ensures Missing(found, lo, n) == Range(m, n - m)
    decreases n - lo
  {
    if lo < m {
      MissingTail(found, lo + 1, m, n);
    } else if lo < n {
      MissingAbove(found, lo, m, n);
    }
  }

  lemma {:induction false} MissingAbove(found: set<Id>, lo: nat, m: nat, n: nat)
    requires forall x: Id :: x in found <==> x < m
    requires m <= lo <= n
    ensures Missing(found, lo, n) == Range(lo, n - lo)
    decreases n - lo
  {
    if lo < n { MissingAbove(found, lo + 1, m, n); }
  }

  // ---------- the order lists every entity once ----------

  ghost predicate Tree(s: Store, root: Id, kids: Forest) {
    Rep(s, Cons(root, kids, Nil)) && NoDup(Cons(root, kids, Nil)) && INVALID !in Ids(Cons(root, kids, Nil))
  }

  function OrderOf(root: Id, kids: Forest, n: nat): seq<Id> {
    [INVALID] + Post(Cons(root, kids, Nil)) + Missing({INVALID, root} + Ids(kids), 0, n)
  }

  lemma {:induction false} OrderIs(root: Id, kids: Forest, n: nat)
    ensures OrderOf(root, kids, n) == [INVALID] + Post(Cons(root, kids, Nil)) + Missing({INVALID, root} + Ids(kids), 0, n)
  {}

  lemma {:induction false} DistinctAppend(xs: seq<Id>, ys: seq<Id>)
    requires Distinct(xs) && Distinct(ys) && forall i, j :: 0 <= i < |xs| && 0 <= j < |ys| ==> xs[i] != ys[j]
    ensures Distinct(xs + ys)
  {}

  lemma {:induction false} PostDistinct(f: Forest)
    requires NoDup(f)
    ensures Distinct(Post(f))
  {
    if f.Cons? {
      PostDistinct(f.kids);
      PostDistinct(f.rest);
      PostApart(f.kids, Cons(f.id, Nil, Nil));
      PostApart(Append(f.kids, Cons(f.id, Nil, Nil)), f.rest);
      PostAppend(f.kids, Cons(f.id, Nil, Nil));
      PostLeaf(f.id);
      DistinctAppend(Post(f.kids), [f.id]);
      DistinctAppend(Post(f.kids) + [f.id], Post(f.rest));
    }
  }

  lemma {:induction false} PostLeaf(e: Id)
    ensures Post(Cons(e, Nil, Nil)) == [e] && Ids(Cons(e, Nil, Nil)) == {e}
  {}

  lemma {:induction false} PostApart(f: Forest, g: Forest)
    requires Ids(f) !! Ids(g)
    ensures forall i, j :: 0 <= i < |Post(f)| && 0 <= j < |Post(g)| ==> Post(f)[i] != Post(g)[j]
  {
    forall i, j | 0 <= i < |Post(f)| && 0 <= j < |Post(g)| ensures Post(f)[i] != Post(g)[j] {
      PostIds(f, Post(f)[i]);
      PostIds(g, Post(g)[j]);
    }
  }

  lemma {:induction false} OrderMember(root: Id, kids: Forest, n: nat, x: Id)
    requires n > 0 && forall e :: e in {root} + Ids(kids) ==> e < n
    ensures x in OrderOf(root, kids, n) <==> x < n
  {
    PostIds(Cons(root, kids, Nil), x);
    MissingMember({INVALID, root} + Ids(kids), 0, n, x);
    assert Ids(Cons(root, kids, Nil)) == {root} + Ids(kids);
    hide Missing, Post, Ids;
    assert x in OrderOf(root, kids, n) <==>
      x == INVALID || x in Post(Cons(root, kids, Nil)) || x in Missing({INVALID, root} + Ids(kids), 0, n);
  }

  lemma {:induction false} OrderDistinct(root: Id, kids: Forest, n: nat)
    requires NoDup(Cons(root, kids, Nil)) && INVALID !in Ids(Cons(root, kids, Nil))
    ensures Distinct(OrderOf(root, kids, n))
  {
    var tree, found := Cons(root, kids, Nil), {INVALID, root} + Ids(kids);
    assert found == Ids(tree) + {INVALID};
    PostDistinct(tree);
    MissingDistinct(found, 0, n);
    hide Missing, Post, Ids, NoDup;
    forall i | 0 <= i < |Post(tree)| ensures Post(tree)[i] != INVALID { PostIds(tree, Post(tree)[i]); }
    DistinctAppend([INVALID], Post(tree));
    forall i, j | 0 <= i < |[INVALID] + Post(tree)| && 0 <= j < |Missing(found, 0, n)|
      ensures ([INVALID] + Post(tree))[i] != Missing(found, 0, n)[j]
    {
      MissingMember(found, 0, n, Missing(found, 0, n)[j]);
      if i > 0 { PostIds(tree, Post(tree)[i - 1]); }
    }
    DistinctAppend([INVALID] + Post(tree), Missing(found, 0, n));
  }

  lemma {:induction false} DistinctSize(xs: seq<Id>, a: set<Id>)
    requires Distinct(xs) && forall x :: x in a <==> x in xs
    ensures |xs| == |a|
    decreases |xs|
  {
    if xs == [] { assert a == {}; }
    else {
      var b := a - {xs[0]};
      forall x ensures x in b <==> x in xs[1..] {
        if x in xs && x != xs[0] { var i :| 0 <= i < |xs| && xs[i] == x; assert xs[1..][i - 1] == x; }
      }
      DistinctSize(xs[1..], b);
    }
  }

  /** The order is a permutation: all the ids there are, each once. */
  lemma {:induction false} OrderPermutes(s: Store, root: Id, kids: Forest)
    requires Tree(s, root, kids) && |s| > 0
    ensures var order := OrderOf(root, kids, |s|);
            && |order| == |s| && Distinct(order)
            && (forall i :: 0 <= i < |order| ==> order[i] < |s|)
            && (forall e: Id :: e < |s| ==> e in order)
  {
    var n, order := |s|, OrderOf(root, kids, |s|);
    TreeParts(s, root, kids);
    OrderDistinct(root, kids, n);
    forall e | e in {root} + Ids(kids) ensures e < n { if e != root { RepInStore(s, kids, e); } }
    hide *;
    forall x: Id ensures x in order <==> x < n { OrderMember(root, kids, n, x); }
    forall i | 0 <= i < |order| ensures order[i] < n { assert order[i] in order; }
    DistinctSize(order, Below(n));
  }

  // ---------- sort ----------

  datatype Outcome = Outcome(mid: Store, kids: Forest, order: seq<Id>, inv: Renaming)

  // `t` is `s` after sorting: child lists of functions in order (`mid`), then everything renumbered.
  ghost predicate Canonical(s: Store, root: Id, kids: Forest, t: Store, newRoot: Id, o: Outcome) {
    && Tree(s, root, kids) && Tree(o.mid, root, o.kids) && Ids(o.kids) == Ids(kids)
    && |s| > 0 && Resorted(s, o.mid, {root} + Ids(kids))
    && o.order == OrderOf(root, o.kids, |s|) && newRoot == 1 + Size(kids)
    && Renumbered(o.mid, t, o.order, o.inv)
  }

  /**
   The canonical form: `o.inv` gives every entity its new id and `o.order` takes it back.  In the tree every child
   list of a function has, by the old ids, the parameters first, by index, and then the others, ascending; all other
   lists are the renumbered old ones.
   */
  method Sort(mod: Module, root: Id, ghost kids: Forest) returns (newRoot: Id, ghost o: Outcome)
    requires Tree(mod.ents, root, kids) && |mod.ents| > 0
    modifies mod
    ensures Canonical(old(mod.ents), root, kids, mod.ents, newRoot, o)
    ensures |o.order| == |o.inv| == |mod.ents| == |old(mod.ents)|
    ensures forall e: Id {:trigger o.inv[e]} :: e < |old(mod.ents)| ==> o.inv[e] < |mod.ents| && o.order[o.inv[e]] == e
    ensures forall e: Id {:trigger o.inv[e]} :: e < |old(mod.ents)| ==>
              var s, block := old(mod.ents), mod.ents[o.inv[e]].block;
              if e in {root} + Ids(kids) && s[e].block.Some? && s[e].links.returnType.Some? then
                && block.Some?
                && var xs := SubIds(o.order, block.value);
                   (multiset(xs) == multiset(s[e].block.value)
                && forall i, j :: 0 <= i < j < |xs| && xs[i] < |s| && xs[j] < |s| ==>
                     && (s[xs[j]].data.param.Some? ==> s[xs[i]].data.param.Some? && s[xs[i]].data.param.value <= s[xs[j]].data.param.value)
                     && (s[xs[i]].data.param.None? ==> xs[i] <= xs[j]))
              else block == SubOptIds(o.inv, s[e].block)
    // what it is and what it refers to stays, by the new ids
    ensures forall e: Id {:trigger o.inv[e]} :: e < |old(mod.ents)| ==>
              var x, y := old(mod.ents)[e], mod.ents[o.inv[e]];
              && y.data == x.data && y.parent == SubOpt(o.inv, x.parent)
              && y.links.returnType == SubOpt(o.inv, x.links.returnType) && y.links.inputs == SubOptIds(o.inv, x.links.inputs)
              && y.links.pointer == (if x.links.pointer.Some? then Some(Pointer(Sub(o.inv, x.links.pointer.value.base), x.links.pointer.value.size)) else None)
              && y.links.alias == SubOpt(o.inv, x.links.alias) && y.links.typeOf == SubOpt(o.inv, x.links.typeOf)
              && y.links.call == SubOpt(o.inv, x.links.call) && y.links.printAs == SubOpt(o.inv, x.links.printAs)
  {
    hide *;
    ghost var s := mod.ents;
    SortStart(s, root, kids);
    var order, found: set<Id>;
    ghost var after: Forest;
    order, found, after := SortTreeWalk(mod, root, [INVALID], {INVALID}, kids);
    ghost var mid := mod.ents;
    SortWalked(s, mid, root, kids, after, order, found);
    assert |order| > 0 && order[|order| - 1] == root;
    newRoot := |order| - 1;
    var missing: seq<Id> := [];
    var n := |mod.ents|;
    for e := 0 to n
      invariant mod.ents == mid && missing + Missing(found, e, n) == Missing(found, 0, n)
    {
      MissingStep(found, e, n);
      ConcatAssoc(missing, if e in found then [] else [e], Missing(found, e + 1, n));
      if e !in found { missing := missing + [e]; }
    }
    MissingEnd(found, n, missing);
    order := order + missing;
    SortOrder(s, mid, root, kids, after, found, order);
    ghost var inv := ReorderEntities(mod, order);
    o := Outcome(mid, after, order, inv);
    CanonicalIntro(s, root, kids, mod.ents, newRoot, o);
    CanonicalLists(s, root, kids, mod.ents, newRoot, o);
  }

  lemma {:induction false} CanonicalLists(s: Store, root: Id, kids: Forest, t: Store, newRoot: Id, o: Outcome)
    requires Canonical(s, root, kids, t, newRoot, o)
    ensures |o.order| == |o.inv| == |t| == |s|
    ensures forall e: Id {:trigger o.inv[e]} :: e < |s| ==> o.inv[e] < |t| && o.order[o.inv[e]] == e
    ensures forall e: Id {:trigger o.inv[e]} :: e < |s| ==>
              var block := t[o.inv[e]].block;
              if e in {root} + Ids(kids) && s[e].block.Some? && s[e].links.returnType.Some? then
                && block.Some?
                && var xs := SubIds(o.order, block.value);
                   (multiset(xs) == multiset(s[e].block.value)
                && forall i, j :: 0 <= i < j < |xs| && xs[i] < |s| && xs[j] < |s| ==>
                     && (s[xs[j]].data.param.Some? ==> s[xs[i]].data.param.Some? && s[xs[i]].data.param.value <= s[xs[j]].data.param.value)
                     && (s[xs[i]].data.param.None? ==> xs[i] <= xs[j]))
              else block == SubOptIds(o.inv, s[e].block)
    // what it is and what it refers to stays, by the new ids
    ensures forall e: Id {:trigger o.inv[e]} :: e < |s| ==>
              var x, y := s[e], t[o.inv[e]];
              && y.data == x.data && y.parent == SubOpt(o.inv, x.parent)
              && y.links.returnType == SubOpt(o.inv, x.links.returnType) && y.links.inputs == SubOptIds(o.inv, x.links.inputs)
              && y.links.pointer == (if x.links.pointer.Some? then Some(Pointer(Sub(o.inv, x.links.pointer.value.base), x.links.pointer.value.size)) else None)
              && y.links.alias == SubOpt(o.inv, x.links.alias) && y.links.typeOf == SubOpt(o.inv, x.links.typeOf)
              && y.links.call == SubOpt(o.inv, x.links.call) && y.links.printAs == SubOpt(o.inv, x.links.printAs)
  {
    hide Tree, OrderOf, MapRefs, SubIds, SubOptIds, SubOpt, Sub, Ids, Size;
    ResortedMeans(s, o.mid, {root} + Ids(kids));
    hide Resorted;
    forall e: Id {:trigger o.inv[e]} | e < |s|
      ensures o.inv[e] < |t| && o.order[o.inv[e]] == e && t[o.inv[e]] == MapRefs(o.inv, o.mid[e])
    {
      assert o.order[o.inv[e]] == e;
    }
    forall e: Id {:trigger o.inv[e]} | e < |s| { MapRefsMeans(o.inv, o.mid[e]); }
    forall xs ensures SubIds(o.order, SubIds(o.inv, xs)) == xs { BackAgain(o.order, o.inv, xs); }
    OptIds(o.inv);
  }

  lemma {:induction false} OptIds(m: Renaming)
    ensures SubOptIds(m, None) == None && forall xs :: SubOptIds(m, Some(xs)) == Some(SubIds(m, xs))
  {}

  lemma {:induction false} BackAgain(order: seq<Id>, inv: Renaming, xs: seq<Id>)
    requires Inverse(order, inv)
    ensures SubIds(order, SubIds(inv, xs)) == xs
  {
    forall i | 0 <= i < |xs| ensures SubIds(order, SubIds(inv, xs))[i] == xs[i] {
      assert xs[i] < |inv| ==> order[inv[xs[i]]] == xs[i];
    }
  }

  lemma {:induction false} SortStart(s: Store, root: Id, kids: Forest)
    requires Tree(s, root, kids)
    ensures Rep(s, Cons(root, kids, Nil)) && NoDup(Cons(root, kids, Nil)) && {INVALID} !! Ids(Cons(root, kids, Nil))
  {}

  lemma {:induction false} SortWalked(s: Store, mid: Store, root: Id, kids: Forest, after: Forest, order: seq<Id>, found: set<Id>)
    requires Tree(s, root, kids) && Rep(mid, Cons(root, after, Nil)) && NoDup(Cons(root, after, Nil)) && Ids(after) == Ids(kids)
    requires order == [INVALID] + Post(Cons(root, after, Nil)) && found == {INVALID} + {root} + Ids(kids)
    requires Resorted(s, mid, {root} + Ids(kids))
    ensures Tree(mid, root, after) && found == {INVALID, root} + Ids(after) && |s| == |mid|
    ensures |order| == 2 + Size(kids) && order[|order| - 1] == root
  {
    hide Rep, NoDup, Resorted, Ids, Size, Post;
    TreeParts(s, root, kids);
    TreeParts(mid, root, after);
    SizeIsCount(kids);
    SizeIsCount(after);
    PostIds(after, root);
    assert order == [INVALID] + (Post(after) + [root]) by { PostEnd([], after, root); assert [] + Post(after) == Post(after); assert [] + Post(Cons(root, after, Nil)) == Post(Cons(root, after, Nil)); }
    ResortedAt(s, mid, {root} + Ids(kids), root);
  }

  lemma {:induction false} MissingStep(found: set<Id>, e: nat, n: nat)
    requires e < n
    ensures Missing(found, e, n) == (if e in found then [] else [e]) + Missing(found, e + 1, n)
  {}

  lemma {:induction false} MissingEnd(found: set<Id>, n: nat, missing: seq<Id>)
    requires missing + Missing(found, n, n) == Missing(found, 0, n)
    ensures missing == Missing(found, 0, n)
  {}

  lemma {:induction false} SortOrder(s: Store, mid: Store, root: Id, kids: Forest, after: Forest, found: set<Id>, order: seq<Id>)
    requires Tree(mid, root, after) && |mid| == |s| > 0 && found == {INVALID, root} + Ids(after)
    requires order == [INVALID] + Post(Cons(root, after, Nil)) + Missing(found, 0, |mid|)
    ensures order == OrderOf(root, after, |s|)
    ensures |order| == |s| && Distinct(order)
    ensures forall i :: 0 <= i < |order| ==> order[i] < |order|
    ensures forall e: Id :: e < |order| ==> e in order
  {
    hide Tree, Missing, Post, Ids, Distinct;
    OrderPermutes(mid, root, after);
  }

  lemma {:induction false} CanonicalIntro(s: Store, root: Id, kids: Forest, t: Store, newRoot: Id, o: Outcome)
    requires Tree(s, root, kids) && Tree(o.mid, root, o.kids) && Ids(o.kids) == Ids(kids)
    requires |s| > 0 && Resorted(s, o.mid, {root} + Ids(kids))
    requires o.order == OrderOf(root, o.kids, |s|) && newRoot == 1 + Size(kids)
    requires Renumbered(o.mid, t, o.order, o.inv)
    ensures Canonical(s, root, kids, t, newRoot, o)
  {}
}
