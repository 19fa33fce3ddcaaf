/**
 The shape hanging below a list of entities, as a first-child/next-sibling forest.
 `Rep` ties a shape to the store; every structural fact is stated on the shape.
 */
module Shapes {
  import opened Wrappers
  import opened Store

  datatype Forest = Nil | Cons(id: Id, kids: Forest, rest: Forest)

  function Roots(f: Forest): seq<Id> {
    match f
    case Nil => []
    case Cons(id, _, rest) => [id] + Roots(rest)
  }

  function Size(f: Forest): nat {
    match f
    case Nil => 0
    case Cons(_, kids, rest) => 1 + Size(kids) + Size(rest)
  }

  function Ids(f: Forest): set<Id> {
    match f
    case Nil => {}
    case Cons(id, kids, rest) => {id} + Ids(kids) + Ids(rest)
  }

  function Pre(f: Forest): (r: seq<Id>)
    ensures |r| == Size(f)
  {
    match f
    case Nil => []
    case Cons(id, kids, rest) => [id] + Pre(kids) + Pre(rest)
  }

  function Post(f: Forest): seq<Id> {
    match f
    case Nil => []
    case Cons(id, kids, rest) => Post(kids) + [id] + Post(rest)
  }

  // Every entity of the shape is in the store and lists exactly the roots of its part.
  ghost predicate Rep(s: Store, f: Forest) {
    match f
    case Nil => true
    case Cons(id, kids, rest) => id < |s| && Children(s, id) == Roots(kids) && Rep(s, kids) && Rep(s, rest)
  }

  // No entity occurs twice: a tree, not a graph with sharing.
  ghost predicate NoDup(f: Forest) {
    match f
    case Nil => true
    case Cons(id, kids, rest) =>
      id !in Ids(kids) && id !in Ids(rest) && Ids(kids) !! Ids(rest) && NoDup(kids) && NoDup(rest)
  }

  // Every entity caches the entity that lists it; the roots cache `p`.
  ghost predicate Parents(s: Store, f: Forest, p: Id) {
    match f
    case Nil => true
    case Cons(id, kids, rest) =>
      id < |s| && s[id].parent == Some(p) && Parents(s, kids, id) && Parents(s, rest, p)
  }

  function Append(f: Forest, g: Forest): (r: Forest)
    ensures Roots(r) == Roots(f) + Roots(g)
    ensures Ids(r) == Ids(f) + Ids(g)
    ensures Size(r) == Size(f) + Size(g)
  {
    match f
    case Nil => g
    case Cons(id, kids, rest) => Cons(id, kids, Append(rest, g))
  }

  // The same shape with every id renamed.
  function Rename(m: Renaming, f: Forest): Forest {
    match f
    case Nil => Nil
    case Cons(id, kids, rest) => Cons(Sub(m, id), Rename(m, kids), Rename(m, rest))
  }

  // Every entity of `s` is in `t`, unchanged.
  ghost predicate Keeps(s: Store, t: Store) {
    |s| <= |t| && forall y {:trigger t[y]} :: 0 <= y < |s| ==> t[y] == s[y]
  }

  // ---------- basic facts ----------

  lemma {:induction false} RootsInIds(f: Forest, i: nat)
    requires i < |Roots(f)|
    ensures Roots(f)[i] in Ids(f)
  {
    if i > 0 { RootsInIds(f.rest, i - 1); }
  }

  lemma {:induction false} RepInStore(s: Store, f: Forest, x: Id)
    requires Rep(s, f) && x in Ids(f)
    ensures x < |s|
  {
    if x == f.id {}
    else if x in Ids(f.kids) { RepInStore(s, f.kids, x); }
    else { RepInStore(s, f.rest, x); }
  }

  // The children of a member are members, and below it no member lists an outsider.
  lemma {:induction false} ChildrenInIds(s: Store, f: Forest, x: Id, c: Id)
    requires Rep(s, f) && x in Ids(f) && c in Children(s, x)
    ensures c in Ids(f)
  {
    if x == f.id {
      var i :| 0 <= i < |Roots(f.kids)| && Roots(f.kids)[i] == c;
      RootsInIds(f.kids, i);
    } else if x in Ids(f.kids) { ChildrenInIds(s, f.kids, x, c); }
    else { ChildrenInIds(s, f.rest, x, c); }
  }

  lemma {:induction false} RepFrame(s: Store, t: Store, f: Forest)
    requires Rep(s, f) && |s| <= |t|
    requires forall x :: x in Ids(f) ==> Children(t, x) == Children(s, x)
    ensures Rep(t, f)
  {
    if f.Cons? {
      RepFrame(s, t, f.kids);
      RepFrame(s, t, f.rest);
    }
  }

  lemma {:induction false} RepKept(s: Store, t: Store, f: Forest)
    requires Rep(s, f) && Keeps(s, t)
    ensures Rep(t, f)
  {
    if f.Cons? {
      assert t[f.id] == s[f.id];
      RepKept(s, t, f.kids);
      RepKept(s, t, f.rest);
    }
  }

  lemma {:induction false} PreTree(id: Id, kids: Forest)
    ensures Pre(Cons(id, kids, Nil)) == [id] + Pre(kids)
  {}

  lemma {:induction false} ParentsFrame(s: Store, t: Store, f: Forest, p: Id)
    requires Parents(s, f, p) && |s| <= |t|
    requires forall x :: x in Ids(f) && x < |s| ==> t[x].parent == s[x].parent
    ensures Parents(t, f, p)
  {
    if f.Cons? {
      ParentsFrame(s, t, f.kids, f.id);
      ParentsFrame(s, t, f.rest, p);
    }
  }

  lemma {:induction false} RepAppend(s: Store, f: Forest, g: Forest)
    ensures Rep(s, Append(f, g)) <==> Rep(s, f) && Rep(s, g)
  {
    if f.Cons? { RepAppend(s, f.rest, g); }
  }

  lemma {:induction false} NoDupAppend(f: Forest, g: Forest)
    ensures NoDup(Append(f, g)) <==> NoDup(f) && NoDup(g) && Ids(f) !! Ids(g)
  {
    if f.Cons? { NoDupAppend(f.rest, g); }
  }

  lemma {:induction false} ParentsAppend(s: Store, f: Forest, g: Forest, p: Id)
    ensures Parents(s, Append(f, g), p) <==> Parents(s, f, p) && Parents(s, g, p)
  {
    if f.Cons? { ParentsAppend(s, f.rest, g, p); }
  }

  lemma {:induction false} RootsNonEmpty(f: Forest)
    ensures |Roots(f)| == 0 <==> f.Nil?
  {}

  // The ids of a store form a shape at most once: two shapes with equal roots are equal.
  lemma {:induction false} RepUnique(s: Store, f: Forest, g: Forest)
    requires Rep(s, f) && Rep(s, g) && Roots(f) == Roots(g)
    ensures f == g
  {
    if f.Cons? && g.Cons? {
      assert Roots(f)[0] == f.id && Roots(g)[0] == g.id;
      assert Roots(f)[1..] == Roots(f.rest) && Roots(g)[1..] == Roots(g.rest);
      RepUnique(s, f.kids, g.kids);
      RepUnique(s, f.rest, g.rest);
    }
  }

  lemma {:induction false} SizeIsCount(f: Forest)
    requires NoDup(f)
    ensures |Ids(f)| == Size(f)
  {
    if f.Cons? {
      SizeIsCount(f.kids);
      SizeIsCount(f.rest);
      assert |{f.id} + Ids(f.kids)| == 1 + Size(f.kids);
    }
  }

  lemma {:induction false} PostIds(f: Forest, x: Id)
    ensures |Post(f)| == Size(f)
    ensures x in Post(f) <==> x in Ids(f)
  {
    if f.Cons? {
      PostIds(f.kids, x);
      PostIds(f.rest, x);
    }
  }

  lemma {:induction false} PreIds(f: Forest, x: Id)
    ensures x in Pre(f) <==> x in Ids(f)
  {
    if f.Cons? {
      PreIds(f.kids, x);
      PreIds(f.rest, x);
    }
  }

  lemma {:induction false} PreAppend(f: Forest, g: Forest)
    ensures Pre(Append(f, g)) == Pre(f) + Pre(g)
  {
    if f.Cons? { PreAppend(f.rest, g); }
  }

  lemma {:induction false} AppendNil(f: Forest)
    ensures Append(f, Nil) == f
  {
    if f.Cons? { AppendNil(f.rest); }
  }

  // Moving one tree from the rest to the finished part.
  lemma {:induction false} StepShape(s: Store, done: Forest, todo: Forest, e: Id)
    requires todo.Cons? && Rep(s, Append(done, todo)) && NoDup(Append(done, todo)) && e !in Ids(Append(done, todo))
    ensures var child := Cons(todo.id, todo.kids, Nil);
            && Append(Append(done, child), todo.rest) == Append(done, todo)
            && Rep(s, done) && Rep(s, child) && NoDup(child) && Ids(done) !! Ids(child) && e !in Ids(child)
  {
    RepAppend(s, done, todo);
    NoDupAppend(done, todo);
    AppendAssoc(done, Cons(todo.id, todo.kids, Nil), todo.rest);
  }

  lemma {:induction false} AppendAssoc(f: Forest, g: Forest, h: Forest)
    ensures Append(Append(f, g), h) == Append(f, Append(g, h))
  {
    if f.Cons? { AppendAssoc(f.rest, g, h); }
  }

  lemma {:induction false} RootsDistinct(f: Forest, i: nat, j: nat)
    requires NoDup(f) && i < j < |Roots(f)|
    ensures Roots(f)[i] != Roots(f)[j]
    decreases f
  {
    RootsInIds(f.rest, j - 1);
    if i > 0 { RootsDistinct(f.rest, i - 1, j - 1); }
  }

  // ---------- renamed shapes ----------

  ghost predicate Injective(m: Renaming, a: set<Id>) {
    forall x, y {:trigger Sub(m, x), Sub(m, y)} :: x in a && y in a && Sub(m, x) == Sub(m, y) ==> x == y
  }

  lemma {:induction false} RenameRoots(m: Renaming, f: Forest)
    ensures Roots(Rename(m, f)) == SubIds(m, Roots(f))
  {
    if f.Cons? {
      RenameRoots(m, f.rest);
      assert SubIds(m, Roots(f)) == [Sub(m, f.id)] + SubIds(m, Roots(f.rest));
    } else {
      assert SubIds(m, []) == [];
    }
  }

  lemma {:induction false} RenameIds(m: Renaming, f: Forest, y: Id) returns (x: Id)
    requires y in Ids(Rename(m, f))
    ensures x in Ids(f) && y == Sub(m, x)
  {
    if y == Sub(m, f.id) { x := f.id; }
    else if y in Ids(Rename(m, f.kids)) { x := RenameIds(m, f.kids, y); }
    else { x := RenameIds(m, f.rest, y); }
  }

  lemma {:induction false} IdsRenamed(m: Renaming, f: Forest, x: Id)
    requires x in Ids(f)
    ensures Sub(m, x) in Ids(Rename(m, f))
  {
    if x == f.id {}
    else if x in Ids(f.kids) { IdsRenamed(m, f.kids, x); }
    else { IdsRenamed(m, f.rest, x); }
  }

  lemma {:induction false} RenameNoDup(m: Renaming, f: Forest)
    requires NoDup(f) && Injective(m, Ids(f))
    ensures NoDup(Rename(m, f))
  {
    if f.Cons? {
      RenameNoDup(m, f.kids);
      RenameNoDup(m, f.rest);
      forall y | y in Ids(Rename(m, f.kids)) ensures y != Sub(m, f.id) && y !in Ids(Rename(m, f.rest)) {
        var x := RenameIds(m, f.kids, y);
        if y in Ids(Rename(m, f.rest)) { var z := RenameIds(m, f.rest, y); }
      }
      if Sub(m, f.id) in Ids(Rename(m, f.rest)) { var z := RenameIds(m, f.rest, Sub(m, f.id)); }
    }
  }

  lemma {:induction false} RenameRep(m: Renaming, s: Store, t: Store, f: Forest)
    requires Rep(s, f)
    requires forall x {:trigger x in Ids(f)} :: x in Ids(f) ==>
               Sub(m, x) < |t| && Children(t, Sub(m, x)) == SubIds(m, Children(s, x))
    ensures Rep(t, Rename(m, f))
  {
    if f.Cons? {
      assert forall x :: x in Ids(f.kids) || x in Ids(f.rest) || x == f.id ==> x in Ids(f);
      RenameRep(m, s, t, f.kids);
      RenameRep(m, s, t, f.rest);
      RenameRoots(m, f.kids);
      assert f.id in Ids(f);
    }
  }

  lemma {:induction false} RootParent(s: Store, f: Forest, p: Id, i: nat)
    requires Parents(s, f, p) && i < |Roots(f)|
    ensures Roots(f)[i] < |s| && s[Roots(f)[i]].parent == Some(p)
    decreases f
  {
    if i > 0 { RootParent(s, f.rest, p, i - 1); }
  }

  lemma {:induction false} ConcatAssoc(a: seq<Id>, b: seq<Id>, c: seq<Id>)
    ensures (a + b) + c == a + (b + c)
  {}
}
