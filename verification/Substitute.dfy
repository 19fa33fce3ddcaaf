/** Rewriting references in place: `substitute_entities` of module.cpp. */
module Substitute {
  import opened Wrappers
  import opened Store
  import opened Shapes

  // A substitution map in the order its entries are visited; the order is unspecified.
  type Pairs = seq<(Id, Id)>

  function Single(find: Id, replace: Id): Renaming {
    Identity(find) + [replace]
  }

  // One entity after the entries have been applied one after the other.
  function Sequential(pairs: Pairs, x: Entity): Entity
    decreases |pairs|
  {
    if pairs == [] then x
    else Sequential(pairs[1..], SubstRefs(Single(pairs[0].0, pairs[0].1), x))
  }

  function Lookup(pairs: Pairs, r: Id): Id
    decreases |pairs|
  {
    if pairs == [] then r else if pairs[0].0 == r then pairs[0].1 else Lookup(pairs[1..], r)
  }

  // The simultaneous substitution the map denotes, as a table over the first `n` ids.
  function Table(pairs: Pairs, n: nat): (m: Renaming)
    ensures |m| == n && forall r :: 0 <= r < n ==> m[r] == Lookup(pairs, r)
  {
    seq(n, r requires 0 <= r < n => Lookup(pairs, r))
  }

  ghost predicate Keyed(pairs: Pairs, n: nat) {
    && (forall i :: 0 <= i < |pairs| ==> pairs[i].0 < n)
    && (forall i, j :: 0 <= i < j < |pairs| ==> pairs[i].0 != pairs[j].0)
    && (forall i, j :: 0 <= i < |pairs| && 0 <= j < |pairs| ==> pairs[i].1 != pairs[j].0)
  }

  lemma {:induction false} LookupOther(pairs: Pairs, r: Id)
    requires forall i :: 0 <= i < |pairs| ==> pairs[i].0 != r
    ensures Lookup(pairs, r) == r
    decreases |pairs|
  {
    if pairs != [] {
      assert pairs[0].0 != r;
      LookupOther(pairs[1..], r);
    }
  }

  lemma {:induction false} LookupKey(pairs: Pairs, i: nat)
    requires i < |pairs| && forall i, j :: 0 <= i < j < |pairs| ==> pairs[i].0 != pairs[j].0
    ensures Lookup(pairs, pairs[i].0) == pairs[i].1
    decreases |pairs|
  {
    if i > 0 { LookupKey(pairs[1..], i - 1); }
  }

  lemma {:induction false} SingleSub(a: Id, b: Id, r: Id)
    ensures Sub(Single(a, b), r) == if r == a then b else r
  {}

  // Substituting twice is substituting once with the composition.
  lemma {:induction false} SubstCompose(m1: Renaming, m2: Renaming, m: Renaming, x: Entity)
    requires forall r :: Sub(m, r) == Sub(m2, Sub(m1, r))
    ensures SubstRefs(m2, SubstRefs(m1, x)) == SubstRefs(m, x)
  {
    forall xs: seq<Id> ensures SubIds(m2, SubIds(m1, xs)) == SubIds(m, xs) {}
  }

  lemma {:induction false} SubstIdentity(m: Renaming, x: Entity)
    requires forall r :: Sub(m, r) == r
    ensures SubstRefs(m, x) == x
  {
    forall xs: seq<Id> ensures SubIds(m, xs) == xs {}
  }

  /** When no value is itself a key, the order of the entries does not matter. */
  lemma {:induction false} SequentialIsSimultaneous(pairs: Pairs, x: Entity, n: nat)
    requires Keyed(pairs, n)
    ensures Sequential(pairs, x) == SubstRefs(Table(pairs, n), x)
    decreases |pairs|
  {
    var m := Table(pairs, n);
    if pairs == [] {
      forall r ensures Sub(m, r) == r {}
      SubstIdentity(m, x);
    } else {
      var a, b, rest := pairs[0].0, pairs[0].1, pairs[1..];
      var m1 := Single(a, b);
      SequentialIsSimultaneous(rest, SubstRefs(m1, x), n);
      var m2 := Table(rest, n);
      forall r ensures Sub(m, r) == Sub(m2, Sub(m1, r)) {
        SingleSub(a, b, r);
        forall i | 0 <= i < |rest| ensures rest[i].0 != b {
          assert rest[i] == pairs[i + 1] && pairs[0].1 != pairs[i + 1].0;
        }
        LookupOther(rest, b);
      }
      SubstCompose(m1, m2, m, x);
    }
  }

  /** Two orders of the same entries rewrite every entity alike. */
  lemma {:induction false} OrderIrrelevant(p: Pairs, q: Pairs, x: Entity, n: nat)
    requires Keyed(p, n) && Keyed(q, n) && multiset(p) == multiset(q)
    ensures Sequential(p, x) == Sequential(q, x)
  {
    SequentialIsSimultaneous(p, x, n);
    SequentialIsSimultaneous(q, x, n);
    forall r | 0 <= r < n ensures Table(p, n)[r] == Table(q, n)[r] {
      if i :| 0 <= i < |p| && p[i].0 == r {
        assert p[i] in multiset(q);
        var j :| 0 <= j < |q| && q[j] == p[i];
        LookupKey(p, i);
        LookupKey(q, j);
      } else {
        forall j | 0 <= j < |q| ensures q[j].0 != r {
          assert q[j] in multiset(p);
        }
        LookupOther(p, r);
        LookupOther(q, r);
      }
    }
    assert Table(p, n) == Table(q, n);
  }

  /** Without that condition it does matter: a swap sent through in sequence collapses. */
  lemma {:induction false} OrderMatters()
    ensures exists p: Pairs, q: Pairs, x: Entity :: multiset(p) == multiset(q) && Sequential(p, x) != Sequential(q, x)
  {
    var p: Pairs := [(1, 2), (2, 1)];
    var q: Pairs := [(2, 1), (1, 2)];
    var x := BLANK.(parent := Some(1));
    SingleSub(1, 2, 1);
    SingleSub(2, 1, 2);
    SingleSub(2, 1, 1);
    assert p[1..] == [(2, 1)] && q[1..] == [(1, 2)] && |p[1..][1..]| == 0 && |q[1..][1..]| == 0;
    assert Sequential(p, x).parent == Some(1);
    assert Sequential(q, x).parent == Some(2);
    assert multiset(p) == multiset(q);
  }

  // ---------- the walk ----------

  function Down(left: Option<nat>): Option<nat> {
    if left.Some? && left.value > 0 then Some(left.value - 1) else left
  }

  // The members at most `left` levels below the roots; no bound means all of them.
  function Reached(f: Forest, left: Option<nat>): set<Id> {
    match f
    case Nil => {}
    case Cons(id, kids, rest) =>
      {id} + (if left == Some(0) then {} else Reached(kids, Down(left))) + Reached(rest, left)
  }

  lemma {:induction false} ReachedAll(f: Forest)
    ensures Reached(f, None) == Ids(f)
  {
    if f.Cons? {
      ReachedAll(f.kids);
      ReachedAll(f.rest);
    }
  }

  lemma {:induction false} ReachedSubset(f: Forest, left: Option<nat>)
    ensures Reached(f, left) <= Ids(f)
  {
    if f.Cons? {
      ReachedSubset(f.kids, Down(left));
      ReachedSubset(f.rest, left);
    }
  }

  lemma {:induction false} ReachedRoots(f: Forest, x: Id)
    ensures x in Reached(f, Some(0)) <==> x in Roots(f)
  {
    if f.Cons? { ReachedRoots(f.rest, x); }
  }

  // Exactly the given entities have been rewritten.
  ghost predicate Rewritten(s: Store, t: Store, ids: set<Id>, pairs: Pairs) {
    |t| == |s| && forall y {:trigger t[y]} :: 0 <= y < |s| ==> t[y] == if y in ids then Sequential(pairs, s[y]) else s[y]
  }

  lemma {:induction false} SequentialBlock(pairs: Pairs, x: Entity)
    requires x.block.Some? ==> forall c :: c in x.block.value ==> forall i :: 0 <= i < |pairs| ==> pairs[i].0 != c
    ensures Sequential(pairs, x).block == x.block
    decreases |pairs|
  {
    if pairs != [] {
      var m := Single(pairs[0].0, pairs[0].1);
      if x.block.Some? {
        var xs := x.block.value;
        forall i | 0 <= i < |xs| ensures Sub(m, xs[i]) == xs[i] {
          assert xs[i] in xs && pairs[0].0 != xs[i];
          SingleSub(pairs[0].0, pairs[0].1, xs[i]);
        }
        assert SubIds(m, xs) == xs;
      }
      SequentialBlock(pairs[1..], SubstRefs(m, x));
    }
  }

  method SubstituteOne(mod: Module, e: Id, pairs: Pairs)
    requires e < |mod.ents|
    modifies mod
    ensures mod.ents == old(mod.ents)[e := Sequential(pairs, old(mod.ents)[e])]
  {
    ghost var s := mod.ents;
    var j := 0;
    while j < |pairs|
      invariant j <= |pairs| && |mod.ents| == |s|
      invariant forall y {:trigger mod.ents[y]} :: 0 <= y < |s| && y != e ==> mod.ents[y] == s[y]
      invariant Sequential(pairs[j..], mod.ents[e]) == Sequential(pairs, s[e])
    {
      mod.ents := mod.ents[e := SubstRefs(Single(pairs[j].0, pairs[j].1), mod.ents[e])];
      assert pairs[j..][1..] == pairs[j + 1..];
      j := j + 1;
    }
    assert pairs[j..] == [];
  }

  lemma {:induction false} TreeRoot(s: Store, e: Id, kids: Forest)
    requires Rep(s, Cons(e, kids, Nil))
    ensures e < |s|
  {}

  /**
   Rewrites `subtree` and, while the depth allows, what hangs below it.
   `left` is the depth still allowed: the difference of the two depths of the original.
   */
  method SubstituteEntities(mod: Module, subtree: Id, pairs: Pairs, left: Option<nat>, ghost kids: Forest)
    requires Rep(mod.ents, Cons(subtree, kids, Nil)) && NoDup(Cons(subtree, kids, Nil))
    requires forall i :: 0 <= i < |pairs| ==> pairs[i].0 !in Ids(kids)
    modifies mod
    ensures Rewritten(old(mod.ents), mod.ents, Reached(Cons(subtree, kids, Nil), left), pairs)
    decreases Size(kids)
  {
    hide *;
    ghost var s := mod.ents;
    TreeRoot(s, subtree, kids);
    SubstituteOne(mod, subtree, pairs);
    FirstRewritten(s, mod.ents, subtree, kids, pairs);
    ghost var done, todo := Nil, kids;
    if left != Some(0) && mod.ents[subtree].block.Some? {
      var i := 0;
      while i < |mod.ents[subtree].block.value|
        invariant subtree < |mod.ents| && mod.ents[subtree].block == Some(Roots(kids))
        invariant i <= |Roots(kids)| && kids == Append(done, todo) && Roots(todo) == Roots(kids)[i..]
        invariant Rewritten(s, mod.ents, {subtree} + Reached(done, Down(left)), pairs)
        decreases |Roots(kids)| - i
      {
        ghost var t := mod.ents;
        NextRewritten(s, t, subtree, done, todo, i, left, pairs);
        SubstituteEntities(mod, mod.ents[subtree].block.value[i], pairs, Down(left), todo.kids);
        RewrittenStep(s, t, mod.ents, subtree, done, todo, left, pairs);
        done, todo := Append(done, Cons(todo.id, todo.kids, Nil)), todo.rest;
        i := i + 1;
      }
    }
    LastRewritten(s, mod.ents, subtree, kids, done, todo, left, pairs);
  }

  lemma {:induction false} FirstRewritten(s: Store, t: Store, e: Id, kids: Forest, pairs: Pairs)
    requires Rep(s, Cons(e, kids, Nil)) && NoDup(Cons(e, kids, Nil)) && e < |s|
    requires t == s[e := Sequential(pairs, s[e])]
    requires forall i :: 0 <= i < |pairs| ==> pairs[i].0 !in Ids(kids)
    ensures Rewritten(s, t, {e} + Reached(Nil, None), pairs) && t[e].block == s[e].block && Append(Nil, kids) == kids
    ensures forall left :: Reached(Nil, left) == {}
    ensures t[e].block == Some(Roots(kids)) || (t[e].block.None? && kids.Nil?)
    ensures Rep(s, kids) && NoDup(kids) && e !in Ids(kids) && (kids.Nil? ==> Roots(kids) == [])
  {
    forall c | c in Roots(kids) ensures c in Ids(kids) {
      var i :| 0 <= i < |Roots(kids)| && Roots(kids)[i] == c;
      RootsInIds(kids, i);
    }
    RootsNonEmpty(kids);
    SequentialBlock(pairs, s[e]);
  }

  lemma {:induction false} NextRewritten(s: Store, t: Store, e: Id, done: Forest, todo: Forest, i: nat, left: Option<nat>, pairs: Pairs)
    requires Rewritten(s, t, {e} + Reached(done, Down(left)), pairs)
    requires var kids := Append(done, todo);
             && Rep(s, kids) && NoDup(kids) && e !in Ids(kids) && i < |Roots(kids)| && Roots(todo) == Roots(kids)[i..]
             && forall i :: 0 <= i < |pairs| ==> pairs[i].0 !in Ids(kids)
    ensures todo.Cons? && todo.id == Roots(Append(done, todo))[i] && Roots(todo.rest) == Roots(Append(done, todo))[i + 1..]
    ensures var child := Cons(todo.id, todo.kids, Nil);
            && Append(Append(done, child), todo.rest) == Append(done, todo)
            && Rep(t, child) && NoDup(child) && Ids(child) !! Ids(done) && e !in Ids(child)
            && (forall i :: 0 <= i < |pairs| ==> pairs[i].0 !in Ids(todo.kids))
            && Size(todo.kids) < Size(Append(done, todo))
  {
    hide Rewritten, Rep, NoDup, Sequential;
    RootsNonEmpty(todo);
    assert Roots(todo)[0] == todo.id && Roots(todo)[1..] == Roots(todo.rest);
    StepShape(s, done, todo, e);
    var child := Cons(todo.id, todo.kids, Nil);
    ReachedSubset(done, Down(left));
    assert Rep(t, child) by { RewrittenRep(s, t, {e} + Reached(done, Down(left)), pairs, child); }
    assert forall x :: x in Ids(todo.kids) ==> x in Ids(child);
    assert forall x :: x in Ids(child) ==> x in Ids(Append(done, todo));
  }

  lemma {:induction false} RewrittenRep(s: Store, t: Store, ids: set<Id>, pairs: Pairs, f: Forest)
    requires Rewritten(s, t, ids, pairs) && Rep(s, f) && Ids(f) !! ids
    ensures Rep(t, f)
  {
    forall x | x in Ids(f) ensures Children(t, x) == Children(s, x) { RepInStore(s, f, x); }
    RepFrame(s, t, f);
  }

  lemma {:induction false} RewrittenStep(s: Store, t: Store, t': Store, e: Id, done: Forest, todo: Forest, left: Option<nat>, pairs: Pairs)
    requires todo.Cons? && Rewritten(s, t, {e} + Reached(done, Down(left)), pairs)
    requires var child := Cons(todo.id, todo.kids, Nil);
             Rewritten(t, t', Reached(child, Down(left)), pairs) && e !in Ids(child) && Ids(child) !! Ids(done)
    ensures Rewritten(s, t', {e} + Reached(Append(done, Cons(todo.id, todo.kids, Nil)), Down(left)), pairs)
    ensures |t'| == |t| && (e < |t| ==> t'[e] == t[e])
  {
    var child := Cons(todo.id, todo.kids, Nil);
    ReachedSubset(done, Down(left));
    ReachedSubset(child, Down(left));
    ReachedAppend(done, child, Down(left));
    hide Reached, Ids, Append, Sequential;
  }

  lemma {:induction false} LastRewritten(s: Store, t: Store, e: Id, kids: Forest, done: Forest, todo: Forest, left: Option<nat>, pairs: Pairs)
    requires kids == Append(done, todo) && Rewritten(s, t, {e} + Reached(done, Down(left)), pairs)
    requires if left == Some(0) then done == Nil else Roots(todo) == []
    ensures Rewritten(s, t, Reached(Cons(e, kids, Nil), left), pairs)
  {
    assert Reached(Cons(e, kids, Nil), left) == {e} + Reached(done, Down(left)) by {
      hide *;
      RootsNonEmpty(todo);
      AppendNil(done);
      ReachedTree(e, kids, left);
    }
    hide *;
  }

  lemma {:induction false} ReachedTree(e: Id, kids: Forest, left: Option<nat>)
    ensures Reached(Cons(e, kids, Nil), left) == {e} + if left == Some(0) then {} else Reached(kids, Down(left))
    ensures Reached(Nil, Down(left)) == {}
  {}

  lemma {:induction false} ReachedAppend(f: Forest, g: Forest, left: Option<nat>)
    ensures Reached(Append(f, g), left) == Reached(f, left) + Reached(g, left)
  {
    if f.Cons? { ReachedAppend(f.rest, g, left); }
  }
}
