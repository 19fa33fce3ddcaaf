/** The dumper before and after sorting: temp_byte_dumper.hpp:70-73 with sema/canonicalize/sort.cpp:110-144. */
module SortedRun {
  import opened Wrappers
  import opened Store
  import opened Shapes
  import opened SortWalk
  import opened Renumber
  import opened CanonicalForm
  import opened Edits
  import opened FunctionScope
  import opened Dump
  import opened SortedDump
  import opened SortedShape

  // What the dumper asks of a module and its root.
  ghost predicate Dumpable(s: Store, root: Id, kids: Forest, mods: set<Id>) {
    Tree(s, root, kids) && Parents(s, kids, root) && Topmost(s, root) && HasBlock(s, root) && TypesResolve(s, mods)
  }

  lemma {:induction false} TypesMoved(s: Store, t: Store, order: seq<Id>, inv: Renaming, mods: set<Id>, mods': set<Id>)
    requires Renumbered(s, t, order, inv) && Matches(inv, mods, mods') && TypesResolve(s, mods)
    ensures TypesResolve(t, mods')
  {
    SameLengths(s, t, order, inv);
    forall y {:trigger t[y]} | 0 <= y < |t| && t[y].links.typeOf.Some?
      ensures Unmodified(t, mods', t[y].links.typeOf.value, |t|).Some?
    {
      var x := order[y];
      assert t[y] == MapRefs(inv, s[x]) && x < |s| && s[x].links.typeOf.Some?;
      UnmodifiedMoved(s, t, order, inv, mods, mods', s[x].links.typeOf.value, |s|);
    }
  }

  lemma {:induction false} TypesSame(s: Store, m: Store, ids: set<Id>, mods: set<Id>)
    requires SameBut(s, m, ids) && TypesResolve(s, mods)
    ensures TypesResolve(m, mods)
  {
    forall y {:trigger m[y]} | 0 <= y < |m| && m[y].links.typeOf.Some?
      ensures Unmodified(m, mods, m[y].links.typeOf.value, |m|).Some?
    {
      assert s[y].links.typeOf.Some?;
      UnmodifiedSame(s, m, mods, m[y].links.typeOf.value, |s|);
    }
  }

  lemma {:induction false} RootMoved(m: Store, t: Store, order: seq<Id>, inv: Renaming, root: Id, e: Id)
    requires Renumbered(m, t, order, inv) && root < |m| && Sub(inv, root) in Children(t, e)
    ensures e < |t| && order[e] < |m| && root in Children(m, order[e])
  {
    SameLengths(m, t, order, inv);
    var xs := Children(m, order[e]);
    assert t[e] == MapRefs(inv, m[order[e]]) && Children(t, e) == SubIds(inv, xs);
    var i :| 0 <= i < |xs| && SubIds(inv, xs)[i] == Sub(inv, root);
    SubSame(m, t, order, inv, xs[i], root);
  }

  lemma {:induction false} TopmostMoved(s: Store, m: Store, ids: set<Id>, t: Store, order: seq<Id>, inv: Renaming, root: Id)
    requires SameBut(s, m, ids) && Renumbered(m, t, order, inv) && Topmost(s, root) && HasBlock(s, root)
    ensures Topmost(t, Sub(inv, root)) && HasBlock(t, Sub(inv, root))
  {
    ResortedAt(s, m, ids, root);
    MovedOutside(m, t, order, inv, root);
    forall e: Id ensures Sub(inv, root) !in Children(t, e) {
      if Sub(inv, root) in Children(t, e) {
        RootMoved(m, t, order, inv, root, e);
        SameChildren(s, m, ids, order[e], root);
      }
    }
    hide Renumbered, SameBut;
  }

  /** What the dumper asks of a module holds again after sorting, on the renumbered names. */
  lemma {:induction false} SortKeepsDumpable(s: Store, root: Id, kids: Forest, t: Store, newRoot: Id, o: Outcome, mods: set<Id>, mods': set<Id>)
    requires Canonical(s, root, kids, t, newRoot, o) && Matches(o.inv, mods, mods') && Dumpable(s, root, kids, mods)
    ensures Dumpable(t, newRoot, Rename(o.inv, o.kids), mods')
  {
    var all := {root} + Ids(kids);
    SortKeepsWellFormed(s, root, kids, t, newRoot, o);
    SortParts(s, root, kids, t, newRoot, o);
    SortIsomorphism(s, root, kids, t, newRoot, o);
    hide *;
    SubAt(o.inv, root);
    SameButIntro(s, o.mid, all);
    DumpableElim(s, root, kids, mods);
    TypesSame(s, o.mid, all, mods);
    TypesMoved(o.mid, t, o.order, o.inv, mods, mods');
    TopmostMoved(s, o.mid, all, t, o.order, o.inv, root);
    DumpableIntro(t, newRoot, Rename(o.inv, o.kids), mods');
  }

  lemma {:induction false} DumpableElim(s: Store, root: Id, kids: Forest, mods: set<Id>)
    requires Dumpable(s, root, kids, mods)
    ensures Tree(s, root, kids) && Parents(s, kids, root) && Topmost(s, root) && HasBlock(s, root) && TypesResolve(s, mods)
    ensures root < |s| && s[root].block.Some? && Rep(s, kids) && INVALID !in Ids(kids)
  {}

  lemma {:induction false} DumpableIntro(s: Store, root: Id, kids: Forest, mods: set<Id>)
    requires WellFormed(s, root, kids) && Topmost(s, root) && HasBlock(s, root) && TypesResolve(s, mods)
    ensures Dumpable(s, root, kids, mods)
  {}

  /**
   A dumper run on a module and one run on the module sorted, with the names looked up again: both succeed, with
   the same bytes, wherever operands are defined before they are used.
   */
  method DumpBeforeAndAfter(s: Store, root: Id, t: Store, newRoot: Id, k: Emitters, k': Emitters, mods: set<Id>, mods': set<Id>,
                            ghost kids: Forest, ghost o: Outcome)
    returns (before: Result<Bytes, Fault>, after: Result<Bytes, Fault>)
    requires Canonical(s, root, kids, t, newRoot, o) && k' == Moved(o.inv, k) && Matches(o.inv, mods, mods')
    requires Dumpable(s, root, kids, mods) && DefinedBeforeUse(s, k, mods, kids, FunctionLike(s, mods, root), {})
    ensures before.Ok? && after == before
  {
    hide *;
    SortKeepsDumpable(s, root, kids, t, newRoot, o, mods, mods');
    DumpableElim(s, root, kids, mods);
    DumpableElim(t, newRoot, Rename(o.inv, o.kids), mods');
    var first := new ByteDumper();
    before := first.Interpret(s, k, mods, root, kids);
    var second := new ByteDumper();
    after := second.Interpret(t, k', mods', newRoot, Rename(o.inv, o.kids));
    SortKeepsBytes(s, root, kids, t, newRoot, o, k, mods, mods');
    ReportsBytes(Dumped(s, k, mods, kids, FunctionLike(s, mods, root), []), first.values, before);
    ReportsBytes(Dumped(t, k', mods', Rename(o.inv, o.kids), FunctionLike(t, mods', newRoot), []), second.values, after);
  }

  lemma {:induction false} ReportsBytes(run: Result<(Values, Bytes), Fault>, values: Values, r: Result<Bytes, Fault>)
    requires Reports(run, [], values, r) && run.Ok?
    ensures r == Ok(run.value.1)
  {
    assert [] + run.value.1 == run.value.1;
  }
}
