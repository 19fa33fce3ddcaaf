/** Deep copies in an accepted module: interface.copy.cpp:193-235 with interface.verify.cpp. */
module AcceptedCopy {
  import opened Wrappers
  import opened Store
  import opened Shapes
  import opened Copy
  import opened SortWalk
  import opened Edits
  import opened NameLookup
  import opened Verify

  // Any part of an accepted tree has what a deep copy asks for.
  lemma {:induction false} AcceptedCanBeCopied(s: Store, c: Context, root: Id, kids: Forest, topLevel: bool, x: Id)
    requires Sound(s, c, root, kids, topLevel) && x in Ids(kids)
    ensures var tree := Cons(x, Under(kids, x), Nil);
            && Rep(s, tree) && NoDup(tree) && Parents(s, Under(kids, x), x)
            && s[x].parent.Some? && s[x].parent.value !in Ids(tree) && Parents(s, tree, s[x].parent.value)
  {
    SoundParts(s, c, root, kids, topLevel);
    BelowShape(s, kids, root, x);
    ParentLists(s, kids, root, x);
    var below, p := Under(kids, x), s[x].parent.value;
    hide Sound, Local, AllLocal, Under;
    TreeIntro(s, x, below);
    RootParentIs(s, kids, root, x, p);
    assert x in Children(s, p);
    if p in Ids(below) { ChildrenInIds(s, below, p, x); }
    if p == x { RootMember(below, x); }
  }

  // Whoever is the parent lists its child.
  lemma {:induction false} RootParentIs(s: Store, kids: Forest, root: Id, x: Id, p: Id)
    requires Rep(s, kids) && NoDup(kids) && Parents(s, kids, root) && x in Ids(kids) && x < |s| && s[x].parent == Some(p)
    requires Children(s, root) == Roots(kids)
    ensures x in Children(s, p)
  {
    ParentLists(s, kids, root, x);
  }

  // The kinds of all members of an accepted tree are valid.
  lemma {:induction false} MemberKind(s: Store, c: Context, f: Forest, x: Id)
    requires AllLocal(s, c, f) && x in Ids(f)
    ensures KindVerdict(s, c, x, false) == Valid
  {
    hide KindVerdict, NameOk, ParentOk, Distinct;
    if x == f.id {}
    else if x in Ids(f.kids) { MemberKind(s, c, f.kids, x); }
    else { MemberKind(s, c, f.rest, x); }
  }

  lemma {:induction false} BelowInside(f: Forest, x: Id, y: Id)
    requires x in Ids(f) && y in Ids(Cons(x, Under(f, x), Nil))
    ensures y in Ids(f)
  {}

  /**
   A deep copy of any part of an accepted module: fresh entities, one for each original and as many, linked
   among themselves as the originals are and hung up at the same parent; nothing that existed changes.  Each
   copy is the renamed original, if that has none of the components copying drops.
   */
  lemma {:induction false} AcceptedCopyIsFaithful(s: Store, c: Context, root: Id, kids: Forest, topLevel: bool, x: Id, t: Store, subs: Renaming)
    requires Sound(s, c, root, kids, topLevel) && x in Ids(kids) && x < |s| && s[x].parent.Some?
    requires var p := s[x].parent.value; Copied(s, t, Cons(x, Under(kids, x), Nil), subs, p, p)
    ensures var tree, p := Cons(x, Under(kids, x), Nil), s[x].parent.value;
            && |t| == |s| + Size(tree) && (forall y {:trigger t[y]} :: 0 <= y < |s| ==> t[y] == s[y])
            && Injective(subs, Ids(tree)) && (forall y :: y in Ids(tree) ==> |s| <= Sub(subs, y) < |t|)
            && Rep(t, Rename(subs, tree)) && NoDup(Rename(subs, tree)) && Parents(t, Rename(subs, tree), p)
    ensures forall y {:trigger y in Ids(Cons(x, Under(kids, x), Nil))} :: y in Ids(Cons(x, Under(kids, x), Nil)) && y < |s| && NothingToLose(s[y]) ==>
              Sub(subs, y) < |t| && t[Sub(subs, y)] == MapRefs(subs, s[y]).(parent := t[Sub(subs, y)].parent)
  {
    hide *;
    var tree, p := Cons(x, Under(kids, x), Nil), s[x].parent.value;
    AcceptedCanBeCopied(s, c, root, kids, topLevel, x);
    CopyIsIsomorphic(s, t, tree, subs, p, p);
    SoundParts(s, c, root, kids, topLevel);
    forall y {:trigger y in Ids(tree)} | y in Ids(tree) && y < |s| && NothingToLose(s[y])
      ensures Sub(subs, y) < |t| && t[Sub(subs, y)] == MapRefs(subs, s[y]).(parent := t[Sub(subs, y)].parent)
    {
      BelowInside(kids, x, y);
      MemberKind(s, c, kids, y);
      CopyAt(s, t, tree, subs, p, p, y);
      CopyIsComplete(s, c, y, false, subs, NewParent(s[y].parent, subs, p, p));
    }
  }
}
