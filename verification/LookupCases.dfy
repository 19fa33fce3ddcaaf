/** A lookup that never ends: interface.resolve.cpp:131-138 on a module that is not sorted. */
module LookupCases {
  import opened Wrappers
  import opened Store
  import opened Shapes
  import opened SortWalk
  import opened Renumber
  import opened NameLookup
  import opened Verify

  // A block 1 that lists a namespace 2 with nothing in it.
  const UNSORTED: Store := [
    BLANK, BLANK.(block := Some([2])),
    BLANK.(block := Some([]), parent := Some(1), data := NO_DATA.(flags := {Namespace}))]

  lemma {:induction false} UnsortedIsSound(c: Context)
    ensures Sound(UNSORTED, c, 1, Cons(2, Nil, Nil), true)
  {
    var s, kids := UNSORTED, Cons(2, Nil, Nil);
    assert Children(s, 1) == [2] && Children(s, 2) == [];
    assert Rep(s, Nil) && Rep(s, kids) && Rep(s, Cons(1, kids, Nil));
    assert Ids(Nil) == {} && Ids(kids) == {2};
    assert NoDup(Nil) && NoDup(kids) && NoDup(Cons(1, kids, Nil)) && Parents(s, Nil, 2) && Parents(s, kids, 1);
    assert Local(s, c, 1, true);
    assert Local(s, c, 2, false);
    assert AllLocal(s, c, Nil);
  }

  lemma {:induction false} UpAndDown(n: nat)
    ensures Climbed(UNSORTED, 1, n) == if n % 2 == 0 then 1 else 2
  {
    var s := UNSORTED;
    if n > 0 {
      UpAndDown(n - 1);
      assert IsBlock(s, 1, INVALID) && IsBlock(s, 2, INVALID);
      FindBlockAt(s, 2, INVALID, 2);
      FindBlockAt(s, 1, INVALID, 1);
      assert Around(s, 1) == 2 && Around(s, 2) == 1;
    }
  }

  /**
   The structure check accepts this module, and yet no lookup in it ever ends: the root has no parent, so the
   climb goes on to the next block by id, which leads back to the root.
   */
  lemma {:induction false} UnsortedLookupNeverEnds(c: Context, path: seq<string>)
    requires path != []
    ensures Sound(UNSORTED, c, 1, Cons(2, Nil, Nil), true)
    ensures HasBlock(UNSORTED, 1) && !ParentsAbove(UNSORTED) && !Ends(UNSORTED, Hit(UNSORTED, path), 1)
  {
    UnsortedIsSound(c);
    var s, hit := UNSORTED, Hit(UNSORTED, path);
    assert s[2].block.Some? && s[2].parent == Some(1);
    forall n: nat ensures !Rests(s, hit, 1, n) {
      UpAndDown(n);
      NothingNamed(path, Climbed(s, 1, n));
    }
  }

  lemma {:induction false} NothingNamed(path: seq<string>, block: Id)
    requires path != [] && (block == 1 || block == 2)
    ensures Hit(UNSORTED, path)(block) == INVALID
  {
    HitIs(UNSORTED, path, block);
    assert Children(UNSORTED, 1) == [2] && Children(UNSORTED, 2) == [];
  }

  // ---------- a sorted module ----------

  function NamedIn(p: Id, name: string): Entity {
    BLANK.(parent := Some(p), data := NO_DATA.(name := Some(name)))
  }

  // The block 6 lists the block 2, the namespace 4, which has an x of its own, and another x.
  const NESTED: Store := [
    BLANK, NamedIn(2, "y"), BLANK.(block := Some([1]), parent := Some(6)),
    NamedIn(4, "x"), BLANK.(block := Some([3]), parent := Some(6), data := NO_DATA.(name := Some("inner"), flags := {Namespace})),
    NamedIn(6, "x"), BLANK.(block := Some([2, 4, 5]))]

  lemma {:induction false} NestedClimb()
    ensures HasBlock(NESTED, 2) && FindBlock(NESTED, 2, INVALID) == 2 && Climbed(NESTED, 2, 0) == 2 && Climbed(NESTED, 2, 1) == 6
  {
    assert IsBlock(NESTED, 2, INVALID) && IsBlock(NESTED, 6, INVALID);
    FindBlockAt(NESTED, 2, INVALID, 2);
    FindBlockAt(NESTED, 6, INVALID, 6);
    assert Around(NESTED, 2) == 6;
    assert Climbed(NESTED, 2, 0) == 2;
    hide FindBlock, Around, NESTED;
    assert Climbed(NESTED, 2, 1) == Around(NESTED, 2);
  }

  lemma {:induction false} NestedLists()
    ensures Children(NESTED, 2) == [1] && Children(NESTED, 4) == [3] && Children(NESTED, 6) == [2, 4, 5]
    ensures forall name :: FindNameInBlock(NESTED, [1], name) == if name == "y" then 1 else INVALID
    ensures FindNameInBlock(NESTED, [2, 4, 5], "x") == 5 && FindNameInBlock(NESTED, [3], "x") == 3
    ensures FindNamespace(NESTED, [1], "inner") == INVALID && FindNamespace(NESTED, [2, 4, 5], "inner") == 4
  {
    assert [2, 4, 5][1..] == [4, 5] && [4, 5][1..] == [5] && [1][1..] == [] && [3][1..] == [];
    assert "inner"[0] == 'i' && "x"[0] == 'x' && "y"[0] == 'y';
    assert FindNameInBlock(NESTED, [5], "x") == 5;
    assert FindNameInBlock(NESTED, [4, 5], "x") == 5;
    assert FindNamespace(NESTED, [4, 5], "inner") == 4;
  }

  lemma {:induction false} NestedRests(path: seq<string>)
    requires path == ["x"] || path == ["inner", "x"]
    ensures !Rests(NESTED, Hit(NESTED, path), 2, 0) && Rests(NESTED, Hit(NESTED, path), 2, 1)
    ensures FoundFrom(NESTED, path, 6) == if path == ["x"] then 5 else 3
  {
    NestedClimb();
    NestedLists();
    HitIs(NESTED, path, 2);
    HitIs(NESTED, path, 6);
    assert "x" != "y" by { assert "x"[0] != "y"[0]; }
    if path == ["inner", "x"] { assert path[1..] == ["x"]; }
    hide NESTED, FindNameInBlock, FindNamespace, Climbed, Hit;
  }

  /**
   From the block 2 the plain name is found in the block around it, not in the one that comes next; the dotted
   name commits to the namespace in the block around it.
   */
  method LookupNested() returns (plain: Id, dotted: Id)
    ensures plain == 5 && dotted == 3
  {
    NestedClimb();
    NestedRests(["x"]);
    NestedRests(["inner", "x"]);
    hide FindBlock, NESTED, FoundFrom, Rests, Hit, Climbed;
    plain := LookupResolve(NESTED, ["x"], 2, false);
    NestedFinds(["x"], plain);
    dotted := LookupResolve(NESTED, ["inner", "x"], 2, false);
    NestedFinds(["inner", "x"], dotted);
  }

  lemma {:induction false} NestedFinds(path: seq<string>, r: Id)
    requires path == ["x"] || path == ["inner", "x"]
    requires Finds(NESTED, path, 2, r)
    ensures r == if path == ["x"] then 5 else 3
  {
    NestedClimb();
    NestedRests(path);
    hide NESTED, FoundFrom, Rests, Hit, Climbed;
    var n: nat :| RestsFirst(NESTED, Hit(NESTED, path), 2, n) && r == FoundFrom(NESTED, path, Climbed(NESTED, 2, n));
    assert Rests(NESTED, Hit(NESTED, path), 2, 1) && !Rests(NESTED, Hit(NESTED, path), 2, 0);
    assert n == 1;
  }
}
