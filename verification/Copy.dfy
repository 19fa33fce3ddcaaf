/** Copying subtrees: interface.copy.cpp. */
module Copy {
  import opened Wrappers
  import opened Store
  import opened Shapes

  // The components `copy_components` gives a fresh entity, with references renamed.
  // Which ones are copied depends on the kind of the source, in this order of tests.
  function CopyLinks(src: Entity, m: Renaming): Links {
    var k, d := src.links, src.data;
    if k.typeOf.Some? then
      var typed := NO_LINKS.(typeOf := SubOpt(m, k.typeOf));
      if Valueless in d.flags || d.number.Some? || d.text.Some? then typed
      else if k.call.Some? then typed.(call := SubOpt(m, k.call), inputs := SubOptIds(m, k.inputs))
      else if k.returnType.Some? then typed.(returnType := SubOpt(m, k.returnType), inputs := SubOptIds(m, k.inputs))
      else typed
    else if d.typeDef.Some? then
      if k.inputs.Some? then NO_LINKS.(inputs := SubOptIds(m, k.inputs), returnType := SubOpt(m, k.returnType))
      else NO_LINKS.(pointer := SubPointer(m, k.pointer))
    else if Namespace in d.flags then NO_LINKS
    else NO_LINKS.(alias := SubOpt(m, k.alias))
  }

  function CopyData(src: Entity): Data {
    var k, d := src.links, src.data;
    var common := NO_DATA.(name := d.name, flags := d.flags);
    if k.typeOf.Some? then
      var typed := common.(param := d.param);
      if Valueless in d.flags then typed
      else if d.number.Some? then typed.(number := d.number)
      else if d.text.Some? then typed.(text := d.text)
      else if k.call.Some? || k.returnType.Some? then typed.(paramNames := d.paramNames)
      else typed
    else if d.typeDef.Some? then common.(typeDef := d.typeDef)
    else common
  }

  // A finished copy: components, the renamed child list and the parent.
  function CopyOf(src: Entity, m: Renaming, parent: Id): Entity {
    Entity(SubOptIds(m, src.block), Some(parent), CopyLinks(src, m), CopyData(src))
  }

  // What the structure phase leaves of a copy: only its child list.
  function Skeleton(src: Entity, m: Renaming): Entity {
    BLANK.(block := SubOptIds(m, src.block))
  }

  // The structure phase numbers the sources `p` consecutively from `lo`.
  ghost predicate Numbered(subs: Renaming, p: seq<Id>, lo: Id) {
    forall i {:trigger p[i]} :: 0 <= i < |p| ==> p[i] < |subs| && subs[p[i]] == lo + i
  }

  // `big` differs from `small` at most on the members of `changed`.
  ghost predicate Extends(small: Renaming, big: Renaming, changed: seq<Id>) {
    |small| == |big| && forall k {:trigger big[k]} :: 0 <= k < |big| && k !in changed ==> big[k] == small[k]
  }

  // The entities from `lo` on are the skeletons of `p`.
  ghost predicate Skeletons(s: Store, t: Store, p: seq<Id>, subs: Renaming, lo: Id) {
    && lo + |p| <= |t|
    && forall i {:trigger p[i]} :: 0 <= i < |p| ==> p[i] < |s| && t[lo + i] == Skeleton(s[p[i]], subs)
  }

  // The state after the structure phase has copied the sources `p`.
  ghost predicate Built(s: Store, t: Store, p: seq<Id>, subs0: Renaming, subs: Renaming) {
    && |t| == |s| + |p| && Keeps(s, t)
    && Extends(subs0, subs, p) && Numbered(subs, p, |s|) && Skeletons(s, t, p, subs, |s|)
  }

  // ... and in the middle of copying the block `e`, whose children `done` are copied.
  ghost predicate Partial(s: Store, t: Store, e: Id, done: Forest, subs0: Renaming, subs: Renaming) {
    && |t| == |s| + 1 + Size(done) && Keeps(s, t)
    && Extends(subs0, subs, [e] + Pre(done)) && Numbered(subs, [e] + Pre(done), |s|)
    && t[|s|] == BLANK.(block := Some(SubIds(subs, Roots(done))))
    && Skeletons(s, t, Pre(done), subs, |s| + 1)
  }

  // ---------- one more child ----------

  lemma {:induction false} SubIdsAppend(m: Renaming, xs: seq<Id>, ys: seq<Id>)
    ensures SubIds(m, xs + ys) == SubIds(m, xs) + SubIds(m, ys)
  {}

  lemma {:induction false} NumberedAppend(subs: Renaming, subs': Renaming, p: seq<Id>, q: seq<Id>, lo: Id)
    requires Numbered(subs, p, lo) && Extends(subs, subs', q) && Numbered(subs', q, lo + |p|)
    requires forall x :: x in q ==> x !in p
    ensures Numbered(subs', p + q, lo)
  {}

  lemma {:induction false} ExtendsAppend(m0: Renaming, m: Renaming, m': Renaming, p: seq<Id>, q: seq<Id>)
    requires Extends(m0, m, p) && Extends(m, m', q)
    ensures Extends(m0, m', p + q)
  {}

  // A list whose members are all numbered before the extension is renamed as before.
  lemma {:induction false} SubIdsStable(m: Renaming, m': Renaming, q: seq<Id>, xs: seq<Id>)
    requires Extends(m, m', q) && forall x :: x in xs ==> x !in q
    ensures SubIds(m', xs) == SubIds(m, xs)
  {
    forall i | 0 <= i < |xs| ensures Sub(m', xs[i]) == Sub(m, xs[i]) { assert xs[i] in xs; }
  }

  lemma {:induction false} RootsOutside(f: Forest, g: Forest, x: Id)
    requires Ids(f) !! Ids(g) && x in Roots(f)
    ensures x !in Pre(g)
  {
    var i :| 0 <= i < |Roots(f)| && Roots(f)[i] == x;
    RootsInIds(f, i);
    PreIds(g, x);
  }

  lemma {:induction false} SkeletonStable(s: Store, f: Forest, g: Forest, x: Id, m: Renaming, m': Renaming)
    requires Rep(s, f) && x in Ids(f) && x < |s| && Ids(f) !! Ids(g) && Extends(m, m', Pre(g))
    ensures Skeleton(s[x], m') == Skeleton(s[x], m)
  {
    forall c | c in Children(s, x) ensures c !in Pre(g) {
      ChildrenInIds(s, f, x, c);
      PreIds(g, c);
    }
    SubIdsStable(m, m', Pre(g), Children(s, x));
  }

  // Finished copies survive the copying of a disjoint tree.
  lemma {:induction false} SkeletonsStable(s: Store, t: Store, u: Store, f: Forest, g: Forest, m: Renaming, m': Renaming, lo: Id)
    requires Rep(s, f) && Ids(f) !! Ids(g) && Extends(m, m', Pre(g)) && lo > 0
    requires Skeletons(s, t, Pre(f), m, lo) && |t| <= |u| && forall y {:trigger u[y]} :: lo <= y < |t| ==> u[y] == t[y]
    ensures Skeletons(s, u, Pre(f), m', lo)
  {
    forall i | 0 <= i < |Pre(f)| ensures u[lo + i] == Skeleton(s[Pre(f)[i]], m') {
      PreIds(f, Pre(f)[i]);
      SkeletonStable(s, f, g, Pre(f)[i], m, m');
    }
  }

  lemma {:induction false} SkeletonsAppend(s: Store, t: Store, p: seq<Id>, q: seq<Id>, m: Renaming, lo: Id)
    requires Skeletons(s, t, p, m, lo) && Skeletons(s, t, q, m, lo + |p|)
    ensures Skeletons(s, t, p + q, m, lo)
  {
    forall i | 0 <= i < |p + q| ensures (p + q)[i] < |s| && t[lo + i] == Skeleton(s[(p + q)[i]], m) {
      if i >= |p| { assert (p + q)[i] == q[i - |p|]; }
    }
  }

  lemma {:induction false} PartialStep(s: Store, t: Store, e: Id, done: Forest, child: Forest,
                    subs0: Renaming, subs: Renaming, t': Store, subs': Renaming)
    requires Partial(s, t, e, done, subs0, subs) && child.Cons? && child.rest.Nil?
    requires Rep(s, done) && Rep(s, child) && e !in Ids(child) && Ids(done) !! Ids(child)
    requires Built(t, t', Pre(child), subs, subs')
    ensures |s| < |t'| && child.id < |subs'| && t'[|s|].block.Some?
    ensures Partial(s, t'[|s| := t'[|s|].(block := Some(t'[|s|].block.value + [subs'[child.id]]))],
                    e, Append(done, child), subs0, subs')
    ensures |subs'| == |subs0| && subs'[child.id] == |t| && Keeps(s, t')
    ensures |t'| == |s| + 1 + Size(Append(done, child)) && e < |s| ==> t'[e] == s[e]
  {
    var p, q := Pre(done), Pre(child);
    assert q[0] == child.id;
    assert t'[|s|] == t[|s|];
    var u := t'[|s| := t'[|s|].(block := Some(t'[|s|].block.value + [subs'[child.id]]))];
    assert Numbered(subs', [e] + Pre(Append(done, child)), |s|) && Extends(subs0, subs', [e] + Pre(Append(done, child))) by {
      PartialNumbers(s, e, done, child, subs0, subs, subs');
    }
    assert u[|s|] == BLANK.(block := Some(SubIds(subs', Roots(Append(done, child))))) by {
      PartialRoots(done, child, subs, subs');
    }
    assert Skeletons(s, u, Pre(Append(done, child)), subs', |s| + 1) by {
      PartialCopies(s, t, done, child, subs, t', subs', u);
    }
  }

  lemma {:induction false} PartialNumbers(s: Store, e: Id, done: Forest, child: Forest, subs0: Renaming, subs: Renaming, subs': Renaming)
    requires e !in Ids(child) && Ids(done) !! Ids(child)
    requires Extends(subs0, subs, [e] + Pre(done)) && Numbered(subs, [e] + Pre(done), |s|)
    requires Extends(subs, subs', Pre(child)) && Numbered(subs', Pre(child), |s| + 1 + Size(done))
    ensures Extends(subs0, subs', [e] + Pre(Append(done, child)))
    ensures Numbered(subs', [e] + Pre(Append(done, child)), |s|)
  {
    hide *;
    PreApart(e, done, child);
    PreAppend(done, child);
    ConcatAssoc([e], Pre(done), Pre(child));
    NumberedAppend(subs, subs', [e] + Pre(done), Pre(child), |s|);
    ExtendsAppend(subs0, subs, subs', [e] + Pre(done), Pre(child));
  }

  lemma {:induction false} PartialCopies(s: Store, t: Store, done: Forest, child: Forest, subs: Renaming, t': Store, subs': Renaming, u: Store)
    requires |t| == |s| + 1 + Size(done) && Keeps(s, t) && Skeletons(s, t, Pre(done), subs, |s| + 1)
    requires Rep(s, done) && Rep(s, child) && Ids(done) !! Ids(child)
    requires |t| <= |t'| && Keeps(t, t') && Extends(subs, subs', Pre(child)) && Skeletons(t, t', Pre(child), subs', |t|)
    requires |u| == |t'| && forall y {:trigger u[y]} :: |s| < y < |u| ==> u[y] == t'[y]
    ensures Skeletons(s, u, Pre(Append(done, child)), subs', |s| + 1)
  {
    hide *;
    AboveKept(t, t', u, |s|);
    PreKept(s, t, child);
    SkeletonsStable(s, t, u, done, child, subs, subs', |s| + 1);
    SkeletonsMoved(s, t, t', u, Pre(child), subs', |t|);
    SkeletonsAppend(s, u, Pre(done), Pre(child), subs', |s| + 1);
    PreAppend(done, child);
  }

  lemma {:induction false} AboveKept(t: Store, t': Store, u: Store, lo: Id)
    requires Keeps(t, t') && |u| == |t'| && forall y {:trigger u[y]} :: lo < y < |u| ==> u[y] == t'[y]
    ensures forall y {:trigger u[y]} :: lo < y < |t| ==> u[y] == t[y]
  {}

  lemma {:induction false} PreKept(s: Store, t: Store, f: Forest)
    requires Rep(s, f) && Keeps(s, t)
    ensures forall i {:trigger Pre(f)[i]} :: 0 <= i < |Pre(f)| ==> Pre(f)[i] < |s| && Pre(f)[i] < |t| && t[Pre(f)[i]] == s[Pre(f)[i]]
  {
    forall i | 0 <= i < |Pre(f)| ensures Pre(f)[i] < |s| {
      PreIds(f, Pre(f)[i]);
      RepInStore(s, f, Pre(f)[i]);
    }
  }

  lemma {:induction false} PreApart(e: Id, f: Forest, g: Forest)
    requires e !in Ids(g) && Ids(f) !! Ids(g)
    ensures forall x :: x in Pre(g) ==> x !in [e] + Pre(f)
  {
    forall x | x in Pre(g) ensures x !in [e] + Pre(f) {
      PreIds(g, x);
      PreIds(f, x);
    }
  }

  lemma {:induction false} PartialRoots(done: Forest, child: Forest, subs: Renaming, subs': Renaming)
    requires child.Cons? && child.rest.Nil? && Ids(done) !! Ids(child)
    requires Extends(subs, subs', Pre(child)) && child.id < |subs'|
    ensures SubIds(subs', Roots(Append(done, child))) == SubIds(subs, Roots(done)) + [subs'[child.id]]
  {
    forall x | x in Roots(done) ensures x !in Pre(child) { RootsOutside(done, child, x); }
    SubIdsStable(subs, subs', Pre(child), Roots(done));
    SubIdsAppend(subs', Roots(done), Roots(child));
    assert Roots(child) == [child.id];
  }

  // Skeletons of a later store are skeletons of an earlier one that it keeps.
  lemma {:induction false} SkeletonsMoved(s: Store, t: Store, t': Store, u: Store, q: seq<Id>, m: Renaming, lo: Id)
    requires Skeletons(t, t', q, m, lo)
    requires forall i {:trigger q[i]} :: 0 <= i < |q| ==> q[i] < |s| && q[i] < |t| && t[q[i]] == s[q[i]]
    requires |u| == |t'| && forall y {:trigger u[y]} :: lo <= y < |u| ==> u[y] == t'[y]
    ensures Skeletons(s, u, q, m, lo)
  {
  }

  lemma {:induction false} PartialStart(s: Store, t: Store, e: Id, kids: Forest, subs0: Renaming, subs: Renaming)
    requires e < |subs0| && subs == subs0[e := |s|] && t == s + [BLANK.(block := Some([]))]
    ensures Partial(s, t, e, Nil, subs0, subs)
    ensures Append(Nil, kids) == kids && Pre(Nil) == [] && Size(Nil) == 0
  {
    assert [e] + Pre(Nil) == [e];
  }

  lemma {:induction false} PartialFinish(s: Store, t: Store, e: Id, done: Forest, todo: Forest, i: nat, subs0: Renaming, subs: Renaming)
    requires Partial(s, t, e, done, subs0, subs)
    requires e < |s| && s[e].block == Some(Roots(Append(done, todo)))
    requires i == |Roots(Append(done, todo))| && Roots(todo) == Roots(Append(done, todo))[i..]
    ensures Built(s, t, [e] + Pre(Append(done, todo)), subs0, subs)
    ensures Append(done, todo) == done
  {
    RootsNonEmpty(todo);
    AppendNil(done);
    var p := [e] + Pre(done);
    forall i | 0 <= i < |p| ensures p[i] < |s| && t[|s| + i] == Skeleton(s[p[i]], subs) {
      if i > 0 { assert p[i] == Pre(done)[i - 1]; }
    }
  }

  lemma {:induction false} PartialLeaf(s: Store, t: Store, e: Id, kids: Forest, subs0: Renaming, subs: Renaming)
    requires e < |subs0| && subs == subs0[e := |s|] && t == s + [BLANK]
    requires e < |s| && s[e].block.None? && kids.Nil?
    ensures Built(s, t, [e] + Pre(kids), subs0, subs) && Pre(kids) == []
  {
    assert [e] + Pre(kids) == [e];
  }

  // ---------- the structure phase ----------

  method DeepCopyBuildStructure(mod: Module, subtree: Id, subs0: Renaming, back0: Renaming, ghost kids: Forest)
    returns (out: Id, subs: Renaming, back: Renaming)
    requires Rep(mod.ents, Cons(subtree, kids, Nil)) && NoDup(Cons(subtree, kids, Nil))
    requires forall x :: x in Ids(Cons(subtree, kids, Nil)) ==> x < |subs0|
    requires |back0| == |mod.ents|
    modifies mod
    ensures Built(old(mod.ents), mod.ents, [subtree] + Pre(kids), subs0, subs)
    ensures back == back0 + [subtree] + Pre(kids)
    ensures out == |old(mod.ents)|
    decreases Size(kids)
  {
    hide *;
    ghost var s := mod.ents;
    BlockFacts(s, subtree, kids);
    out := mod.AddEntity();
    subs := subs0[subtree := out];
    back := back0 + [subtree];
    if mod.ents[subtree].block.Some? {
      mod.ents := mod.ents[out := mod.ents[out].(block := Some([]))];
      var i := 0;
      ghost var done, todo := Nil, kids;
      PartialStart(s, mod.ents, subtree, kids, subs0, subs);
      while i < |mod.ents[subtree].block.value|
        invariant Partial(s, mod.ents, subtree, done, subs0, subs) && |subs| == |subs0|
        invariant |mod.ents| == |s| + 1 + Size(done)
        invariant back == back0 + ([subtree] + Pre(done))
        invariant kids == Append(done, todo)
        invariant i <= |Roots(kids)| && Roots(todo) == Roots(kids)[i..]
        invariant mod.ents[subtree].block == Some(Roots(kids))
        decreases |Roots(kids)| - i
      {
        var e := mod.ents[subtree].block.value[i];
        ChildFacts(s, mod.ents, subtree, done, todo, i, subs0, subs);
        ghost var child := Cons(e, todo.kids, Nil);
        ghost var t, subs1 := mod.ents, subs;
        var copy;
        copy, subs, back := DeepCopyBuildStructure(mod, e, subs, back, todo.kids);
        PartialStep(s, t, subtree, done, child, subs0, subs1, mod.ents, subs);
        mod.ents := mod.ents[out := mod.ents[out].(block := Some(mod.ents[out].block.value + [copy]))];
        ConcatAssoc(back0, [subtree] + Pre(done), Pre(child));
        ConcatAssoc(back0, [subtree] + Pre(done) + [e], Pre(todo.kids));
        ConcatAssoc([subtree], Pre(done), Pre(child));
        done, todo := Append(done, child), todo.rest;
        i := i + 1;
      }
      PartialFinish(s, mod.ents, subtree, done, todo, i, subs0, subs);
    } else {
      PartialLeaf(s, mod.ents, subtree, kids, subs0, subs);
    }
    ConcatAssoc(back0, [subtree], Pre(kids));
  }

  lemma {:induction false} BlockFacts(s: Store, e: Id, kids: Forest)
    requires Rep(s, Cons(e, kids, Nil)) && NoDup(Cons(e, kids, Nil))
    ensures e in Ids(Cons(e, kids, Nil)) && e < |s| && Rep(s, kids) && NoDup(kids) && e !in Ids(kids)
    ensures forall x :: x in Ids(kids) ==> x in Ids(Cons(e, kids, Nil))
    ensures s[e].block == Some(Roots(kids)) || (s[e].block.None? && kids.Nil?)
  {
    RootsNonEmpty(kids);
  }

  lemma {:induction false} ChildFacts(s: Store, t: Store, e: Id, done: Forest, todo: Forest, i: nat, subs0: Renaming, subs: Renaming)
    requires Partial(s, t, e, done, subs0, subs)
    requires var kids := Append(done, todo);
             Rep(s, kids) && NoDup(kids) && e !in Ids(kids) && i < |Roots(kids)| && Roots(todo) == Roots(kids)[i..]
    ensures todo.Cons? && todo.id == Roots(Append(done, todo))[i]
    ensures var child := Cons(todo.id, todo.kids, Nil);
            && Append(Append(done, child), todo.rest) == Append(done, todo)
            && Rep(s, done) && Rep(s, child) && Rep(t, child) && NoDup(child)
            && Ids(done) !! Ids(child) && e !in Ids(child)
            && (forall x :: x in Ids(child) ==> x in Ids(Append(done, todo)))
            && Pre(child) == [todo.id] + Pre(todo.kids) && Pre(Append(done, child)) == Pre(done) + Pre(child)
            && Size(Append(done, child)) == Size(done) + Size(child)
    ensures Size(todo.kids) < Size(Append(done, todo))
    ensures Roots(todo.rest) == Roots(Append(done, todo))[i + 1..]
  {
    hide Partial, Rep, NoDup;
    RootsNonEmpty(todo);
    assert Roots(todo)[0] == todo.id && Roots(todo)[1..] == Roots(todo.rest);
    var child := Cons(todo.id, todo.kids, Nil);
    StepShape(s, done, todo, e);
    assert Keeps(s, t) by { PartialKeeps(s, t, e, done, subs0, subs); }
    RepKept(s, t, child);
    PreAppend(done, child);
    PreTree(todo.id, todo.kids);
  }

  lemma {:induction false} PartialKeeps(s: Store, t: Store, e: Id, done: Forest, subs0: Renaming, subs: Renaming)
    requires Partial(s, t, e, done, subs0, subs)
    ensures Keeps(s, t)
  {}

  // ---------- the component phase ----------

  // The parent a copy gets: what copies the block `from` has block `to` for its children.
  function NewParent(parent: Option<Id>, subs: Renaming, from: Id, to: Id): Id {
    if parent == Some(from) || parent.None? then to else Sub(subs, parent.value)
  }

  // The entities from `lo` on are the finished copies of `p`.
  ghost predicate Copies(s: Store, t: Store, p: seq<Id>, subs: Renaming, lo: Id, from: Id, to: Id) {
    && lo + |p| <= |t|
    && forall i {:trigger p[i]} :: 0 <= i < |p| ==>
         p[i] < |s| && t[lo + i] == CopyOf(s[p[i]], subs, NewParent(s[p[i]].parent, subs, from, to))
  }

  // Only the ids [lo, hi) may have changed.
  ghost predicate Within(t: Store, u: Store, lo: Id, hi: Id) {
    |u| == |t| && forall y {:trigger u[y]} :: 0 <= y < |u| && !(lo <= y < hi) ==> u[y] == t[y]
  }

  // What a copy has of a component it has from the source, renamed.
  ghost predicate Borrowed(m: Renaming, source: Entity, copy: Entity) {
    var k, k', d, d' := source.links, copy.links, source.data, copy.data;
    && (k'.typeOf == None || k'.typeOf == SubOpt(m, k.typeOf)) && (k'.call == None || k'.call == SubOpt(m, k.call))
    && (k'.inputs == None || k'.inputs == SubOptIds(m, k.inputs)) && (k'.alias == None || k'.alias == SubOpt(m, k.alias))
    && (k'.returnType == None || k'.returnType == SubOpt(m, k.returnType)) && (k'.pointer == None || k'.pointer == SubPointer(m, k.pointer))
    && k'.printAs == None
    && (d'.param == None || d'.param == d.param) && (d'.paramNames == None || d'.paramNames == d.paramNames)
    && (d'.typeDef == None || d'.typeDef == d.typeDef) && (d'.number == None || d'.number == d.number)
    && (d'.text == None || d'.text == d.text) && d'.register == None
  }

  // What always comes along: name and flags, the type, and the one component the kind of the entity is known by.
  ghost predicate KindKept(m: Renaming, source: Entity, copy: Entity) {
    var k, d := source.links, source.data;
    && copy.data.name == d.name && copy.data.flags == d.flags && copy.links.typeOf == SubOpt(m, k.typeOf)
    && (k.typeOf.None? ==> copy.data.typeDef == d.typeDef)
    && (k.typeOf.None? && d.typeDef.None? && Namespace !in d.flags ==> copy.links.alias == SubOpt(m, k.alias))
    && (k.typeOf.Some? && Valueless !in d.flags ==>
          copy.data.number == d.number
          && (d.number.None? ==>
                copy.data.text == d.text
                && (d.text.None? ==>
                      copy.links.call == SubOpt(m, k.call)
                      && (k.call.None? ==> copy.links.returnType == SubOpt(m, k.returnType)))))
  }

  /**
   Gives `out` the components of `subtree`, with references renamed.  Nothing comes from elsewhere, the kind of the
   entity is kept, and the place of `out` in the tree stays what it was.
   */
  method CopyComponents(mod: Module, out: Id, subtree: Id, subs: Renaming)
    requires out < |mod.ents| && subtree < |mod.ents|
    modifies mod
    ensures |mod.ents| == |old(mod.ents)| && Borrowed(subs, old(mod.ents)[subtree], mod.ents[out]) && KindKept(subs, old(mod.ents)[subtree], mod.ents[out])
    ensures mod.ents == old(mod.ents)[out := Entity(old(mod.ents)[out].block, old(mod.ents)[out].parent,
                                                   CopyLinks(old(mod.ents)[subtree], subs), CopyData(old(mod.ents)[subtree]))]
  {
    var k, d := mod.ents[subtree].links, mod.ents[subtree].data;
    var links, data := NO_LINKS, NO_DATA.(name := d.name, flags := d.flags);
    if k.typeOf.Some? {
      links := links.(typeOf := SubOpt(subs, k.typeOf));
      if d.param.Some? { data := data.(param := d.param); }
      if Valueless in d.flags {
      } else if d.number.Some? {
        data := data.(number := d.number);
      } else if d.text.Some? {
        data := data.(text := d.text);
      } else if k.call.Some? {
        links := links.(call := SubOpt(subs, k.call));
        if k.inputs.Some? { links := links.(inputs := SubOptIds(subs, k.inputs)); }
        if d.paramNames.Some? { data := data.(paramNames := d.paramNames); }
      } else if k.returnType.Some? {
        if k.inputs.Some? { links := links.(inputs := SubOptIds(subs, k.inputs)); }
        if d.paramNames.Some? { data := data.(paramNames := d.paramNames); }
        links := links.(returnType := SubOpt(subs, k.returnType));
      }
    } else if d.typeDef.Some? {
      data := data.(typeDef := d.typeDef);
      if k.inputs.Some? {
        links := links.(inputs := SubOptIds(subs, k.inputs));
        if k.returnType.Some? { links := links.(returnType := SubOpt(subs, k.returnType)); }
      } else if k.pointer.Some? {
        links := links.(pointer := SubPointer(subs, k.pointer));
      }
    } else if Namespace in d.flags {
    } else if k.alias.Some? {
      links := links.(alias := SubOpt(subs, k.alias));
    }
    mod.ents := mod.ents[out := mod.ents[out].(links := links, data := data)];
  }

  // ---------- one more copied child ----------

  lemma {:induction false} NumberedSlice(subs: Renaming, a: seq<Id>, b: seq<Id>, c: seq<Id>, lo: Id)
    requires Numbered(subs, a + b + c, lo)
    ensures Numbered(subs, b, lo + |a|)
  {
    forall i | 0 <= i < |b| ensures b[i] < |subs| && subs[b[i]] == lo + |a| + i {
      assert (a + b + c)[|a| + i] == b[i];
    }
  }

  lemma {:induction false} SkeletonsSlice(s: Store, t: Store, a: seq<Id>, b: seq<Id>, subs: Renaming, lo: Id)
    requires Skeletons(s, t, a + b, subs, lo)
    ensures Skeletons(s, t, a, subs, lo) && Skeletons(s, t, b, subs, lo + |a|)
  {
    forall i | 0 <= i < |a| ensures a[i] < |s| && t[lo + i] == Skeleton(s[a[i]], subs) {
      assert (a + b)[i] == a[i];
    }
    forall i | 0 <= i < |b| ensures b[i] < |s| && t[lo + |a| + i] == Skeleton(s[b[i]], subs) {
      assert (a + b)[|a| + i] == b[i];
    }
  }

  lemma {:induction false} SkeletonsWithin(s: Store, t: Store, u: Store, p: seq<Id>, subs: Renaming, lo: Id, from: Id, to: Id)
    requires Skeletons(s, t, p, subs, lo) && Within(t, u, from, to) && (to <= lo || lo + |p| <= from)
    ensures Skeletons(s, u, p, subs, lo)
  {}

  lemma {:induction false} CopiesWithin(s: Store, t: Store, u: Store, p: seq<Id>, subs: Renaming, lo: Id, from: Id, to: Id, a: Id, b: Id)
    requires Copies(s, t, p, subs, lo, from, to) && Within(t, u, a, b) && (b <= lo || lo + |p| <= a)
    ensures Copies(s, u, p, subs, lo, from, to)
  {}

  lemma {:induction false} CopiesAppend(s: Store, t: Store, p: seq<Id>, q: seq<Id>, subs: Renaming, lo: Id, from: Id, to: Id)
    requires Copies(s, t, p, subs, lo, from, to) && Copies(s, t, q, subs, lo + |p|, from, to)
    ensures Copies(s, t, p + q, subs, lo, from, to)
  {
    forall i | 0 <= i < |p + q|
      ensures (p + q)[i] < |s| && t[lo + i] == CopyOf(s[(p + q)[i]], subs, NewParent(s[(p + q)[i]].parent, subs, from, to))
    {
      if i >= |p| { assert (p + q)[i] == q[i - |p|]; }
    }
  }

  lemma {:induction false} WithinTrans(t: Store, u: Store, v: Store, lo: Id, mid: Id, hi: Id)
    requires lo <= mid <= hi && Within(t, u, lo, mid) && Within(u, v, mid, hi)
    ensures Within(t, v, lo, hi)
  {}

  lemma {:induction false} WithinLength(t: Store, u: Store, lo: Id, hi: Id)
    requires Within(t, u, lo, hi)
    ensures |u| == |t|
  {}

  // Edits beyond the end of `s` keep it.
  lemma {:induction false} WithinBeyond(s: Store, t: Store, u: Store, lo: Id, hi: Id)
    requires Keeps(s, t) && Within(t, u, lo, hi) && |s| <= lo
    ensures Keeps(s, u) && |u| == |t|
  {}

  lemma {:induction false} WithinKeeps(t: Store, u: Store, lo: Id, hi: Id, x: Id)
    requires Within(t, u, lo, hi) && x < lo
    ensures |u| == |t| && (x < |t| ==> u[x] == t[x])
  {}

  // The cached parents of a shape stay inside it, except for its roots.
  lemma {:induction false} ParentInside(s: Store, f: Forest, p: Id, x: Id)
    requires Parents(s, f, p) && x in Ids(f)
    ensures x < |s| && s[x].parent.Some? && (s[x].parent.value == p || s[x].parent.value in Ids(f))
  {
    if x == f.id {}
    else if x in Ids(f.kids) { ParentInside(s, f.kids, f.id, x); }
    else { ParentInside(s, f.rest, p, x); }
  }

  // The children of a copied block get its copy as parent, whichever block is named as the root's.
  lemma {:induction false} CopiesReparent(s: Store, t: Store, f: Forest, subs: Renaming, lo: Id, src: Id, out: Id, from: Id, to: Id)
    requires Copies(s, t, Pre(f), subs, lo, src, out) && Parents(s, f, src)
    requires src != from && from !in Ids(f) && Sub(subs, src) == out && src !in Ids(f)
    ensures Copies(s, t, Pre(f), subs, lo, from, to)
  {
    forall i | 0 <= i < |Pre(f)|
      ensures t[lo + i] == CopyOf(s[Pre(f)[i]], subs, NewParent(s[Pre(f)[i]].parent, subs, from, to))
    {
      PreIds(f, Pre(f)[i]);
      ParentInside(s, f, src, Pre(f)[i]);
    }
  }

  // The state in the middle of finishing the copy `out` of the block `src`.
  ghost predicate Finishing(s: Store, t0: Store, t: Store, src: Id, done: Forest, todo: Forest, subs: Renaming, out: Id, from: Id, to: Id) {
    && Within(t0, t, out, out + 1 + Size(done))
    && Copies(s, t, [src] + Pre(done), subs, out, from, to)
    && Skeletons(s, t, Pre(todo), subs, out + 1 + Size(done))
  }

  lemma {:induction false} FinishingStep(s: Store, t0: Store, t: Store, t': Store, src: Id, done: Forest, todo: Forest, subs: Renaming, out: Id, from: Id, to: Id)
    requires todo.Cons? && Finishing(s, t0, t, src, done, todo, subs, out, from, to)
    requires var child := Cons(todo.id, todo.kids, Nil); var lo := out + 1 + Size(done);
             && Within(t, t', lo, lo + Size(child)) && Copies(s, t', Pre(child), subs, lo, src, out)
             && Parents(s, child, src) && src !in Ids(child) && from !in Ids(child)
    requires src != from && Sub(subs, src) == out
    ensures Finishing(s, t0, t', src, Append(done, Cons(todo.id, todo.kids, Nil)), todo.rest, subs, out, from, to)
    ensures |t'| == |t| && (out < |t| ==> t'[out] == t[out])
  {
    hide *;
    WithinKeeps(t, t', out + 1 + Size(done), out + 1 + Size(done) + Size(Cons(todo.id, todo.kids, Nil)), out);
    var child := Cons(todo.id, todo.kids, Nil);
    var lo := out + 1 + Size(done);
    var p, q, r := [src] + Pre(done), Pre(child), Pre(todo.rest);
    MoveTree(done, todo);
    ConcatAssoc([src], Pre(done), q);
    FinishingElim(s, t0, t, src, done, todo, subs, out, from, to);
    CopiesReparent(s, t', child, subs, lo, src, out, from, to);
    CopiesWithin(s, t, t', p, subs, out, from, to, lo, lo + |q|);
    CopiesAppend(s, t', p, q, subs, out, from, to);
    WithinTrans(t0, t, t', out, lo, lo + |q|);
    SkeletonsSlice(s, t, q, r, subs, lo);
    SkeletonsWithin(s, t, t', r, subs, lo + |q|, lo, lo + |q|);
    FinishingIntro(s, t0, t', src, Append(done, child), todo.rest, subs, out, from, to);
  }

  lemma {:induction false} MoveTree(done: Forest, todo: Forest)
    requires todo.Cons?
    ensures var child := Cons(todo.id, todo.kids, Nil);
            && Pre(todo) == Pre(child) + Pre(todo.rest)
            && Pre(Append(done, child)) == Pre(done) + Pre(child)
            && Size(Append(done, child)) == Size(done) + Size(child)
            && |Pre(child)| == Size(child) && |Pre(done)| == Size(done)
  {
    PreTree(todo.id, todo.kids);
    PreAppend(done, Cons(todo.id, todo.kids, Nil));
  }

  lemma {:induction false} FinishingElim(s: Store, t0: Store, t: Store, src: Id, done: Forest, todo: Forest, subs: Renaming, out: Id, from: Id, to: Id)
    requires Finishing(s, t0, t, src, done, todo, subs, out, from, to)
    ensures Within(t0, t, out, out + 1 + Size(done))
    ensures Copies(s, t, [src] + Pre(done), subs, out, from, to)
    ensures Skeletons(s, t, Pre(todo), subs, out + 1 + Size(done))
  {}

  lemma {:induction false} FinishingIntro(s: Store, t0: Store, t: Store, src: Id, done: Forest, todo: Forest, subs: Renaming, out: Id, from: Id, to: Id)
    requires Within(t0, t, out, out + 1 + Size(done))
    requires Copies(s, t, [src] + Pre(done), subs, out, from, to)
    requires Skeletons(s, t, Pre(todo), subs, out + 1 + Size(done))
    ensures Finishing(s, t0, t, src, done, todo, subs, out, from, to)
  {}

  method DeepCopyCopyComponents(mod: Module, out: Id, block: Id, subs: Renaming, back: Renaming,
                  ghost s: Store, ghost kids: Forest, ghost from: Id)
    requires out < |back| && Sourced(s, mod.ents, back[out], kids, subs, back, out, from)
    modifies mod
    ensures Within(old(mod.ents), mod.ents, out, out + 1 + Size(kids))
    ensures Copies(s, mod.ents, [back[out]] + Pre(kids), subs, out, from, block)
    decreases Size(kids)
  {
    hide *;
    var subtree := back[out];
    ghost var t0 := mod.ents;
    SourcedFacts(s, t0, subtree, kids, subs, back, out, from);
    mod.ents := mod.ents[out := mod.ents[out].(parent := Some(block))];
    CopyComponents(mod, out, subtree, subs);
    ghost var done, todo := Nil, kids;
    FinishingStart(s, t0, mod.ents, subtree, kids, subs, back, out, from, block);
    if mod.ents[subtree].block.Some? {
      var i := 0;
      while i < |mod.ents[out].block.value|
        invariant Finishing(s, t0, mod.ents, subtree, done, todo, subs, out, from, block)
        invariant Append(done, todo) == kids && out < |mod.ents|
        invariant i <= |Roots(kids)| && Roots(todo) == Roots(kids)[i..]
        invariant mod.ents[out].block == Some(SubIds(subs, Roots(kids)))
        decreases |Roots(kids)| - i
      {
        ghost var t := mod.ents;
        NextCopy(s, t0, t, subtree, done, todo, i, kids, subs, back, out, from, block);
        DeepCopyCopyComponents(mod, mod.ents[out].block.value[i], out, subs, back, s, todo.kids, subtree);
        FinishingStep(s, t0, t, mod.ents, subtree, done, todo, subs, out, from, block);
        done, todo := Append(done, Cons(todo.id, todo.kids, Nil)), todo.rest;
        i := i + 1;
      }
    }
    FinishingEnd(s, t0, mod.ents, subtree, done, todo, subs, out, from, block, kids);
  }

  // What the second phase finds at the copy `out` of `src`: an unfinished copy of its whole tree.
  ghost predicate Sourced(s: Store, t: Store, src: Id, kids: Forest, subs: Renaming, back: Renaming, out: Id, from: Id) {
    && |back| == |t| && Keeps(s, t) && |s| <= out
    && Rep(s, Cons(src, kids, Nil)) && NoDup(Cons(src, kids, Nil))
    && Parents(s, Cons(src, kids, Nil), from) && from !in Ids(Cons(src, kids, Nil))
    && Numbered(subs, [src] + Pre(kids), out) && Skeletons(s, t, [src] + Pre(kids), subs, out)
    && |back| >= out + 1 + Size(kids) && back[out] == src
    && forall i {:trigger Pre(kids)[i]} :: 0 <= i < Size(kids) ==> back[out + 1 + i] == Pre(kids)[i]
  }

  lemma {:induction false} SourcedFacts(s: Store, t: Store, src: Id, kids: Forest, subs: Renaming, back: Renaming, out: Id, from: Id)
    requires Sourced(s, t, src, kids, subs, back, out, from)
    ensures out < |t| && src < |s| <= |t| && src != out && t[src] == s[src]
  {
    assert ([src] + Pre(kids))[0] == src;
  }

  lemma {:induction false} FinishingStart(s: Store, t0: Store, t: Store, src: Id, kids: Forest, subs: Renaming, back: Renaming, out: Id, from: Id, to: Id)
    requires Sourced(s, t0, src, kids, subs, back, out, from)
    requires out < |t0| && src < |s| <= |t0|
    requires t == t0[out := Entity(t0[out].block, Some(to), CopyLinks(s[src], subs), CopyData(s[src]))]
    ensures Finishing(s, t0, t, src, Nil, kids, subs, out, from, to)
    ensures Append(Nil, kids) == kids && t[src] == s[src]
    ensures t[src].block.None? ==> kids == Nil
    ensures t[src].block.Some? ==> t[out].block == Some(SubIds(subs, Roots(kids)))
  {
    RootsNonEmpty(kids);
    assert ([src] + Pre(kids))[0] == src;
    assert [src] + Pre(Nil) == [src];
    SkeletonsSlice(s, t0, [src], Pre(kids), subs, out);
    assert s[src].parent == Some(from);
  }

  lemma {:induction false} NextCopy(s: Store, t0: Store, t: Store, src: Id, done: Forest, todo: Forest, i: nat, kids: Forest,
                 subs: Renaming, back: Renaming, out: Id, from: Id, to: Id)
    requires Sourced(s, t0, src, kids, subs, back, out, from) && Finishing(s, t0, t, src, done, todo, subs, out, from, to)
    requires Append(done, todo) == kids && i < |Roots(kids)| && Roots(todo) == Roots(kids)[i..]
    ensures todo.Cons? && SubIds(subs, Roots(kids))[i] == out + 1 + Size(done)
    ensures out + 1 + Size(done) < |back| && back[out + 1 + Size(done)] == todo.id
    ensures Sourced(s, t, todo.id, todo.kids, subs, back, out + 1 + Size(done), src)
    ensures Size(todo.kids) < Size(kids) && Roots(todo.rest) == Roots(kids)[i + 1..]
    ensures var child := Cons(todo.id, todo.kids, Nil);
            && Append(Append(done, child), todo.rest) == kids && Pre(child) == [todo.id] + Pre(todo.kids)
            && Size(child) == 1 + Size(todo.kids)
            && Parents(s, child, src) && src !in Ids(child) && from !in Ids(child)
    ensures src != from && Sub(subs, src) == out
  {
    hide *;
    SourcedElim(s, t0, src, kids, subs, back, out, from);
    NextShape(s, done, todo, i, src, from, kids);
    var child := Cons(todo.id, todo.kids, Nil);
    FinishingElim(s, t0, t, src, done, todo, subs, out, from, to);
    NextNumbers(src, done, todo, kids, subs, back, out);
    SubIdsAt(subs, Roots(kids), i);
    SkeletonsSlice(s, t, Pre(child), Pre(todo.rest), subs, out + 1 + Size(done));
    SourcedNext(s, t0, t, src, done, todo, subs, back, out, from);
  }

  lemma {:induction false} SourcedElim(s: Store, t: Store, src: Id, kids: Forest, subs: Renaming, back: Renaming, out: Id, from: Id)
    requires Sourced(s, t, src, kids, subs, back, out, from)
    ensures Rep(s, Cons(src, kids, Nil)) && NoDup(Cons(src, kids, Nil)) && Parents(s, Cons(src, kids, Nil), from)
    ensures from !in Ids(Cons(src, kids, Nil)) && from != src
    ensures Numbered(subs, [src] + Pre(kids), out) && Sub(subs, src) == out
    ensures |back| == |t| && |back| >= out + 1 + Size(kids) && Keeps(s, t) && |s| <= out
    ensures forall i {:trigger Pre(kids)[i]} :: 0 <= i < Size(kids) ==> back[out + 1 + i] == Pre(kids)[i]
  {
    assert ([src] + Pre(kids))[0] == src;
  }

  lemma {:induction false} NextShape(s: Store, done: Forest, todo: Forest, i: nat, src: Id, from: Id, kids: Forest)
    requires Append(done, todo) == kids && i < |Roots(kids)| && Roots(todo) == Roots(kids)[i..]
    requires Rep(s, Cons(src, kids, Nil)) && NoDup(Cons(src, kids, Nil)) && Parents(s, Cons(src, kids, Nil), from)
    requires from !in Ids(Cons(src, kids, Nil))
    ensures todo.Cons? && Roots(kids)[i] == todo.id && Roots(todo.rest) == Roots(kids)[i + 1..]
    ensures Size(todo.kids) < Size(kids)
    ensures var child := Cons(todo.id, todo.kids, Nil);
            && Append(Append(done, child), todo.rest) == kids
            && Pre(child) == [todo.id] + Pre(todo.kids) && Size(child) == 1 + Size(todo.kids)
            && Pre(kids) == Pre(done) + (Pre(child) + Pre(todo.rest)) && Pre(todo) == Pre(child) + Pre(todo.rest)
            && Rep(s, child) && NoDup(child) && Parents(s, child, src) && src !in Ids(child) && from !in Ids(child)
  {
    RootsNonEmpty(todo);
    assert Roots(todo)[0] == todo.id && Roots(todo)[1..] == Roots(todo.rest);
    StepShape(s, done, todo, src);
    MoveTree(done, todo);
    PreAppend(done, todo);
    PreTree(todo.id, todo.kids);
    ParentsAppend(s, done, todo, src);
  }

  lemma {:induction false} FinishingEnd(s: Store, t0: Store, t: Store, src: Id, done: Forest, todo: Forest, subs: Renaming, out: Id, from: Id, to: Id, kids: Forest)
    requires Finishing(s, t0, t, src, done, todo, subs, out, from, to)
    requires Append(done, todo) == kids && Roots(todo) == []
    ensures Within(t0, t, out, out + 1 + Size(kids))
    ensures Copies(s, t, [src] + Pre(kids), subs, out, from, to)
  {
    RootsNonEmpty(todo);
    AppendNil(done);
  }

  lemma {:induction false} NextNumbers(src: Id, done: Forest, todo: Forest, kids: Forest, subs: Renaming, back: Renaming, out: Id)
    requires todo.Cons? && Numbered(subs, [src] + Pre(kids), out)
    requires Pre(kids) == Pre(done) + (Pre(Cons(todo.id, todo.kids, Nil)) + Pre(todo.rest))
    requires Pre(Cons(todo.id, todo.kids, Nil)) == [todo.id] + Pre(todo.kids)
    requires |back| >= out + 1 + Size(kids)
    requires forall i {:trigger Pre(kids)[i]} :: 0 <= i < Size(kids) ==> back[out + 1 + i] == Pre(kids)[i]
    ensures Numbered(subs, Pre(Cons(todo.id, todo.kids, Nil)), out + 1 + Size(done))
    ensures todo.id < |subs| && subs[todo.id] == out + 1 + Size(done)
    ensures out + 1 + Size(done) + 1 + Size(todo.kids) <= |back| && back[out + 1 + Size(done)] == todo.id
    ensures forall i {:trigger Pre(todo.kids)[i]} :: 0 <= i < Size(todo.kids) ==>
              back[out + 1 + Size(done) + 1 + i] == Pre(todo.kids)[i]
  {
    hide *;
    var a, b, c := Pre(done), [todo.id] + Pre(todo.kids), Pre(todo.rest);
    ConcatAssoc([src], a, b + c);
    ConcatAssoc([src] + a, b, c);
    NumberedSlice(subs, [src] + a, b, c, out);
    NumberedHead(subs, b, out + 1 + Size(done));
    assert |Pre(kids)| == |a| + |b| + |c|;
    assert Pre(kids)[|a|] == todo.id;
    forall i | 0 <= i < Size(todo.kids) ensures back[out + 1 + Size(done) + 1 + i] == Pre(todo.kids)[i] {
      assert Pre(kids)[|a| + 1 + i] == Pre(todo.kids)[i];
    }
  }

  lemma {:induction false} SubIdsAt(m: Renaming, xs: seq<Id>, i: nat)
    requires i < |xs| && xs[i] < |m|
    ensures SubIds(m, xs)[i] == m[xs[i]]
  {}

  lemma {:induction false} NumberedHead(subs: Renaming, p: seq<Id>, lo: Id)
    requires Numbered(subs, p, lo) && |p| > 0
    ensures p[0] < |subs| && subs[p[0]] == lo
  {}

  lemma {:induction false} SourcedNext(s: Store, t0: Store, t: Store, src: Id, done: Forest, todo: Forest, subs: Renaming, back: Renaming, out: Id, from: Id)
    requires |back| == |t0| && Keeps(s, t0) && |s| <= out && Within(t0, t, out, out + 1 + Size(done)) && todo.Cons?
    requires var child := Cons(todo.id, todo.kids, Nil); var lo := out + 1 + Size(done);
             && Rep(s, child) && NoDup(child) && Parents(s, child, src) && src !in Ids(child)
             && Numbered(subs, Pre(child), lo) && Skeletons(s, t, Pre(child), subs, lo)
             && Pre(child) == [todo.id] + Pre(todo.kids)
             && lo + 1 + Size(todo.kids) <= |back| && back[lo] == todo.id
    requires forall i {:trigger Pre(todo.kids)[i]} :: 0 <= i < Size(todo.kids) ==>
              back[out + 1 + Size(done) + 1 + i] == Pre(todo.kids)[i]
    ensures Sourced(s, t, todo.id, todo.kids, subs, back, out + 1 + Size(done), src)
  {}

  // ---------- deep_copy ----------

  /** Copies the tree at `subtree` into fresh ids; the root copy keeps the original's parent. */
  method DeepCopy(mod: Module, subtree: Id, ghost kids: Forest) returns (out: Id, ghost subs: Renaming)
    requires Rep(mod.ents, Cons(subtree, kids, Nil)) && NoDup(Cons(subtree, kids, Nil))
    requires mod.ents[subtree].parent.Some? && mod.ents[subtree].parent.value !in Ids(Cons(subtree, kids, Nil))
    requires Parents(mod.ents, kids, subtree)
    modifies mod
    ensures out == |old(mod.ents)| && Copied(old(mod.ents), mod.ents, Cons(subtree, kids, Nil), subs,
                                             old(mod.ents)[subtree].parent.value, old(mod.ents)[subtree].parent.value)
  {
    hide *;
    ghost var s := mod.ents;
    BlockFacts(s, subtree, kids);
    TreeInStore(s, subtree, kids);
    var block := mod.ents[subtree].parent.value;
    var table, back;
    out, table, back := DeepCopyBuildStructure(mod, subtree, Identity(|mod.ents|), Identity(|mod.ents|), kids);
    ghost var t := mod.ents;
    BuiltSourced(s, t, subtree, kids, table, back, block);
    DeepCopyCopyComponents(mod, out, block, table, back, s, kids, block);
    subs := table;
    CopiedIntro(s, t, mod.ents, subtree, kids, subs, block);
  }

  // `t` adds finished copies of the members of `f` to `s`, numbered in pre-order.
  ghost predicate Copied(s: Store, t: Store, f: Forest, subs: Renaming, from: Id, to: Id) {
    && |t| == |s| + Size(f) && Keeps(s, t)
    && Extends(Identity(|s|), subs, Pre(f)) && Numbered(subs, Pre(f), |s|)
    && Copies(s, t, Pre(f), subs, |s|, from, to)
  }

  lemma {:induction false} TreeInStore(s: Store, e: Id, kids: Forest)
    requires Rep(s, Cons(e, kids, Nil))
    ensures forall x :: x in Ids(Cons(e, kids, Nil)) ==> x < |Identity(|s|)|
  {
    forall x | x in Ids(Cons(e, kids, Nil)) ensures x < |s| { RepInStore(s, Cons(e, kids, Nil), x); }
  }

  lemma {:induction false} BuiltSourced(s: Store, t: Store, e: Id, kids: Forest, subs: Renaming, back: Renaming, from: Id)
    requires Built(s, t, [e] + Pre(kids), Identity(|s|), subs)
    requires back == Identity(|s|) + [e] + Pre(kids)
    requires Rep(s, Cons(e, kids, Nil)) && NoDup(Cons(e, kids, Nil)) && Parents(s, kids, e)
    requires e < |s| && s[e].parent == Some(from) && from !in Ids(Cons(e, kids, Nil))
    ensures |s| < |back| && back[|s|] == e && Sourced(s, t, e, kids, subs, back, |s|, from)
  {
    forall i | 0 <= i < Size(kids) ensures back[|s| + 1 + i] == Pre(kids)[i] {}
  }

  lemma {:induction false} CopiedIntro(s: Store, t: Store, u: Store, e: Id, kids: Forest, subs: Renaming, from: Id)
    requires Built(s, t, [e] + Pre(kids), Identity(|s|), subs) && Within(t, u, |s|, |s| + 1 + Size(kids))
    requires Copies(s, u, [e] + Pre(kids), subs, |s|, from, from)
    ensures Copied(s, u, Cons(e, kids, Nil), subs, from, from)
  {
    PreTree(e, kids);
  }

  // ---------- copy_existing ----------

  // The children that are copied: all, or all but the parameters.
  function Selected(s: Store, f: Forest, skip: bool): Forest {
    match f
    case Nil => Nil
    case Cons(id, kids, rest) =>
      if skip && id < |s| && s[id].data.param.Some? then Selected(s, rest, skip)
      else Cons(id, kids, Selected(s, rest, skip))
  }

  // `t` adds copies of `g` (children of `from`) to `s` and appends them to the children of `to`.
  ghost predicate CopiedInto(s: Store, t: Store, g: Forest, subs: Renaming, from: Id, to: Id) {
    && to < |s| && |t| == |s| + Size(g)
    && (forall y {:trigger t[y]} :: 0 <= y < |s| && y != to ==> t[y] == s[y])
    && t[to] == s[to].(block := Some(Children(s, to) + SubIds(subs, Roots(g))))
    && Extends(Identity(|s|), subs, Pre(g)) && Numbered(subs, Pre(g), |s|)
    && Copies(s, t, Pre(g), subs, |s|, from, to)
  }

  // The first loop has built the structure of `done` and listed its roots in `to`.
  ghost predicate Listing(s: Store, t: Store, done: Forest, subs: Renaming, to: Id) {
    && to < |s| && |t| == |s| + Size(done)
    && (forall y {:trigger t[y]} :: 0 <= y < |s| && y != to ==> t[y] == s[y])
    && t[to] == s[to].(block := Some(Children(s, to) + SubIds(subs, Roots(done))))
    && Extends(Identity(|s|), subs, Pre(done)) && Numbered(subs, Pre(done), |s|)
    && Skeletons(s, t, Pre(done), subs, |s|)
  }

  // The second loop has finished the copies of `done`; those of `todo` are unfinished.
  ghost predicate Completing(s: Store, t0: Store, t: Store, done: Forest, todo: Forest, subs: Renaming, lo: Id, from: Id, to: Id) {
    && Within(t0, t, lo, lo + Size(done))
    && Copies(s, t, Pre(done), subs, lo, from, to)
    && Skeletons(s, t, Pre(todo), subs, lo + Size(done))
  }

  lemma {:induction false} SelectedShape(s: Store, f: Forest, skip: bool, p: Id)
    requires Rep(s, f) && NoDup(f) && Parents(s, f, p)
    ensures var g := Selected(s, f, skip);
            Rep(s, g) && NoDup(g) && Parents(s, g, p) && Ids(g) <= Ids(f)
  {
    if f.Cons? { SelectedShape(s, f.rest, skip, p); }
  }

  lemma {:induction false} SelectedAppend(s: Store, f: Forest, g: Forest, skip: bool)
    ensures Selected(s, Append(f, g), skip) == Append(Selected(s, f, skip), Selected(s, g, skip))
  {
    if f.Cons? { SelectedAppend(s, f.rest, g, skip); }
  }

  lemma {:induction false} ListingStep(s: Store, t: Store, done: Forest, child: Forest, subs: Renaming, t': Store, subs': Renaming, to: Id)
    requires Listing(s, t, done, subs, to) && child.Cons? && child.rest.Nil?
    requires Rep(s, done) && Rep(s, child) && Ids(done) !! Ids(child) && to !in Ids(child)
    requires Built(t, t', Pre(child), subs, subs')
    ensures to < |t'| && t'[to].block.Some? && child.id < |subs'| && |subs'| == |s| && subs'[child.id] == |t|
    ensures Listing(s, t'[to := t'[to].(block := Some(t'[to].block.value + [|t|]))], Append(done, child), subs', to)
  {
    hide *;
    ListingElim(s, t, done, subs, to);
    BuiltElim(t, t', child, subs, subs');
    var u := t'[to := t'[to].(block := Some(t'[to].block.value + [|t|]))];
    PreApart1(done, child);
    NumberedAppend(subs, subs', Pre(done), Pre(child), |s|);
    ExtendsAppend(Identity(|s|), subs, subs', Pre(done), Pre(child));
    PartialRoots(done, child, subs, subs');
    ListingCopies(s, t, done, child, subs, t', subs', u, to);
    PreAppend(done, child);
    assert Size(Append(done, child)) == Size(done) + Size(child);
    ConcatAssoc(Children(s, to), SubIds(subs, Roots(done)), [|t|]);
    ListingIntro(s, u, Append(done, child), subs', to);
  }

  lemma {:induction false} ListingElim(s: Store, t: Store, done: Forest, subs: Renaming, to: Id)
    requires Listing(s, t, done, subs, to)
    ensures to < |s| && |t| == |s| + Size(done)
    ensures forall y {:trigger t[y]} :: 0 <= y < |s| && y != to ==> t[y] == s[y]
    ensures t[to] == s[to].(block := Some(Children(s, to) + SubIds(subs, Roots(done))))
    ensures Extends(Identity(|s|), subs, Pre(done)) && |subs| == |s| && Numbered(subs, Pre(done), |s|)
    ensures Skeletons(s, t, Pre(done), subs, |s|)
  {}

  lemma {:induction false} ListingIntro(s: Store, t: Store, done: Forest, subs: Renaming, to: Id)
    requires to < |s| && |t| == |s| + Size(done)
    requires forall y {:trigger t[y]} :: 0 <= y < |s| && y != to ==> t[y] == s[y]
    requires t[to] == s[to].(block := Some(Children(s, to) + SubIds(subs, Roots(done))))
    requires Extends(Identity(|s|), subs, Pre(done)) && Numbered(subs, Pre(done), |s|)
    requires Skeletons(s, t, Pre(done), subs, |s|)
    ensures Listing(s, t, done, subs, to)
  {}

  lemma {:induction false} BuiltElim(s: Store, t: Store, f: Forest, subs0: Renaming, subs: Renaming)
    requires Built(s, t, Pre(f), subs0, subs)
    ensures |t| == |s| + Size(f) && (forall y {:trigger t[y]} :: 0 <= y < |s| ==> t[y] == s[y])
    ensures Extends(subs0, subs, Pre(f)) && |subs| == |subs0| && Numbered(subs, Pre(f), |s|)
    ensures Skeletons(s, t, Pre(f), subs, |s|)
    ensures f.Cons? ==> f.id < |subs| && subs[f.id] == |s|
  {
    if f.Cons? { assert Pre(f)[0] == f.id; }
  }

  lemma {:induction false} PreApart1(f: Forest, g: Forest)
    requires Ids(f) !! Ids(g)
    ensures forall x :: x in Pre(g) ==> x !in Pre(f)
  {
    forall x | x in Pre(g) ensures x !in Pre(f) {
      PreIds(g, x);
      PreIds(f, x);
    }
  }

  lemma {:induction false} ListingCopies(s: Store, t: Store, done: Forest, child: Forest, subs: Renaming, t': Store, subs': Renaming, u: Store, to: Id)
    requires to < |s| && |t| == |s| + Size(done) && Skeletons(s, t, Pre(done), subs, |s|)
    requires forall y {:trigger t[y]} :: 0 <= y < |s| && y != to ==> t[y] == s[y]
    requires Rep(s, done) && Rep(s, child) && Ids(done) !! Ids(child) && to !in Ids(child)
    requires |t| <= |t'| && (forall y {:trigger t'[y]} :: 0 <= y < |t| ==> t'[y] == t[y])
    requires Extends(subs, subs', Pre(child)) && Skeletons(t, t', Pre(child), subs', |t|)
    requires |u| == |t'| && forall y {:trigger u[y]} :: 0 <= y < |u| && y != to ==> u[y] == t'[y]
    ensures Skeletons(s, u, Pre(Append(done, child)), subs', |s|)
  {
    hide *;
    SkeletonsStable(s, t, u, done, child, subs, subs', |s|);
    forall i {:trigger Pre(child)[i]} | 0 <= i < |Pre(child)|
      ensures Pre(child)[i] < |s| && Pre(child)[i] < |t| && t[Pre(child)[i]] == s[Pre(child)[i]]
    {
      PreIds(child, Pre(child)[i]);
      RepInStore(s, child, Pre(child)[i]);
    }
    SkeletonsMoved(s, t, t', u, Pre(child), subs', |t|);
    SkeletonsAppend(s, u, Pre(done), Pre(child), subs', |s|);
    PreAppend(done, child);
  }

  // The first loop: a skeleton for every child that is to be copied, listed at the end of `dest`.
  method BuildChildren(mod: Module, dest: Id, source: Id, skipParameters: bool, ghost kids: Forest)
    returns (table: Renaming, back: Renaming, ghost done: Forest)
    requires Rep(mod.ents, Cons(source, kids, Nil)) && NoDup(Cons(source, kids, Nil)) && Parents(mod.ents, kids, source)
    requires dest < |mod.ents| && mod.ents[dest].block.Some? && source < |mod.ents| && mod.ents[source].block.Some?
    requires dest !in Ids(Cons(source, kids, Nil))
    modifies mod
    ensures done == Selected(old(mod.ents), kids, skipParameters) && back == Identity(|old(mod.ents)|) + Pre(done)
    ensures Rep(old(mod.ents), done) && NoDup(done) && Parents(old(mod.ents), done, source) && dest !in Ids(done) && source !in Ids(done)
    ensures Listing(old(mod.ents), mod.ents, done, table, dest) && |old(mod.ents)| <= |mod.ents|
    ensures Listed(mod.ents, done, table, dest, |old(mod.ents)[dest].block.value|)
  {
    hide *;
    ghost var s := mod.ents;
    BlockFacts(s, source, kids);
    DestOutside(source, kids, dest);
    table, back := Identity(|mod.ents|), Identity(|mod.ents|);
    var start, size := |mod.ents[dest].block.value|, |mod.ents[source].block.value|;
    var i := 0;
    ghost var passed, todo := Nil, kids;
    done := Nil;
    ListingStart(s, kids, skipParameters, table, dest);
    while i < size
      invariant dest < |mod.ents| && source < |mod.ents| && |table| == |s| && |back| == |mod.ents|
      invariant i <= size && mod.ents[source].block == Some(Roots(kids)) && size == |Roots(kids)|
      invariant kids == Append(passed, todo) && Roots(todo) == Roots(kids)[i..]
      invariant done == Selected(s, passed, skipParameters)
      invariant Listing(s, mod.ents, done, table, dest)
      invariant back == Identity(|s|) + Pre(done)
    {
      var e := mod.ents[source].block.value[i];
      SelectNext(s, mod.ents, passed, todo, i, source, skipParameters, table, dest);
      ghost var child := Cons(todo.id, todo.kids, Nil);
      if !(skipParameters && mod.ents[e].data.param.Some?) {
        ghost var t, subs0 := mod.ents, table;
        var copy;
        copy, table, back := DeepCopyBuildStructure(mod, e, table, back, todo.kids);
        ListingStep(s, t, done, child, subs0, mod.ents, table, dest);
        BuiltKeeps(t, mod.ents, child, subs0, table);
        mod.ents := mod.ents[dest := mod.ents[dest].(block := Some(mod.ents[dest].block.value + [copy]))];
        ConcatAssoc(Identity(|s|), Pre(done), Pre(child));
        ConcatAssoc(Identity(|s|) + Pre(done), [e], Pre(todo.kids));
        done := Append(done, child);
      }
      passed, todo := Append(passed, child), todo.rest;
      i := i + 1;
    }
    SelectEnd(s, mod.ents, kids, passed, todo, skipParameters, source, table, dest, start);
  }

  /** Appends copies of the children of `source` to `dest`, without the parameters if asked to. */
  method CopyExisting(mod: Module, dest: Id, source: Id, skipParameters: bool, ghost kids: Forest) returns (ghost subs: Renaming)
    requires Rep(mod.ents, Cons(source, kids, Nil)) && NoDup(Cons(source, kids, Nil)) && Parents(mod.ents, kids, source)
    requires dest < |mod.ents| && mod.ents[dest].block.Some? && mod.ents[source].block.Some?
    requires dest !in Ids(Cons(source, kids, Nil))
    modifies mod
    ensures CopiedInto(old(mod.ents), mod.ents, Selected(old(mod.ents), kids, skipParameters), subs, source, dest)
  {
    hide *;
    ghost var s := mod.ents;
    SourceThere(s, source, kids);
    var start := |mod.ents[dest].block.value|;
    var table, back;
    ghost var done;
    table, back, done := BuildChildren(mod, dest, source, skipParameters, kids);
    ListedThere(mod.ents, done, table, dest, start);
    ghost var t0, s1 := mod.ents, mod.ents[..|s|];
    ghost var finished, pending := Nil, done;
    CompletingStart(s, t0, done, table, back, source, dest);
    var i := start;
    while i < |mod.ents[dest].block.value|
      invariant dest < |mod.ents| && mod.ents[dest] == t0[dest]
      invariant start <= i <= |t0[dest].block.value|
      invariant done == Append(finished, pending) && Roots(pending) == Roots(done)[i - start..]
      invariant Completing(s1, t0, mod.ents, finished, pending, table, |s|, source, dest)
    {
      ghost var t := mod.ents;
      var copy := mod.ents[dest].block.value[i];
      CompletingHere(s1, t0, t, finished, pending, start, i, done, table, back, source, dest, copy);
      DeepCopyCopyComponents(mod, copy, dest, table, back, s1, pending.kids, source);
      CompletingStep(s1, t0, t, mod.ents, finished, pending, table, |s|, source, dest);
      finished, pending := Append(finished, Cons(pending.id, pending.kids, Nil)), pending.rest;
      i := i + 1;
    }
    subs := table;
    CompletingEnd(s, t0, mod.ents, done, finished, pending, table, source, dest);
  }

  lemma {:induction false} CompletingHere(s: Store, t0: Store, t: Store, finished: Forest, pending: Forest, start: nat, i: nat, done: Forest,
                       subs: Renaming, back: Renaming, from: Id, to: Id, copy: Id)
    requires Pending(s, t0, done, subs, back, from) && Completing(s, t0, t, finished, pending, subs, |s|, from, to)
    requires Listed(t0, done, subs, to, start) && start <= i < |t0[to].block.value| && copy == t0[to].block.value[i]
    requires done == Append(finished, pending) && Roots(pending) == Roots(done)[i - start..]
    ensures pending.Cons? && copy < |back| && Sourced(s, t, back[copy], pending.kids, subs, back, copy, from)
    ensures Roots(pending.rest) == Roots(done)[i + 1 - start..] && copy == |s| + Size(finished)
    ensures var child := Cons(pending.id, pending.kids, Nil);
            && Append(Append(finished, child), pending.rest) == done && [back[copy]] + Pre(pending.kids) == Pre(child)
            && Size(child) == 1 + Size(pending.kids)
  {
    hide *;
    ListedThere(t0, done, subs, to, start);
    ListedAt(t0, done, subs, to, start, i);
    CompletingNext(s, t0, t, finished, pending, i - start, done, subs, back, from, to);
  }

  lemma {:induction false} SourceThere(s: Store, source: Id, kids: Forest)
    requires Rep(s, Cons(source, kids, Nil))
    ensures source < |s|
  {}

  lemma {:induction false} ListedThere(t: Store, g: Forest, subs: Renaming, to: Id, start: nat)
    requires Listed(t, g, subs, to, start)
    ensures to < |t| && t[to].block.Some? && |t[to].block.value| == start + |Roots(g)|
  {}

  // From `start` on, `to` lists the copies of the roots of `g`.
  ghost predicate Listed(t: Store, g: Forest, subs: Renaming, to: Id, start: nat) {
    && to < |t| && t[to].block.Some? && |t[to].block.value| == start + |Roots(g)|
    && forall j :: start <= j < |t[to].block.value| ==> t[to].block.value[j] == Sub(subs, Roots(g)[j - start])
  }

  lemma {:induction false} ListedAt(t: Store, g: Forest, subs: Renaming, to: Id, start: nat, i: nat)
    requires Listed(t, g, subs, to, start) && start <= i < |t[to].block.value|
    ensures i - start < |Roots(g)| && t[to].block.value[i] == Sub(subs, Roots(g)[i - start])
  {}

  lemma {:induction false} SelectEnd(s: Store, t: Store, kids: Forest, passed: Forest, todo: Forest, skip: bool, source: Id, subs: Renaming, to: Id, start: nat)
    requires kids == Append(passed, todo) && Roots(todo) == []
    requires Rep(s, kids) && NoDup(kids) && Parents(s, kids, source) && to !in Ids(kids) && source !in Ids(kids)
    requires Listing(s, t, Selected(s, passed, skip), subs, to)
    requires to < |s| && s[to].block.Some? && start == |s[to].block.value|
    ensures passed == kids
    ensures var g := Selected(s, kids, skip);
            && Listing(s, t, g, subs, to) && to < |t| && t[to].block.Some? && |s| <= |t|
            && t[to].block.value[..start] == s[to].block.value && |t[to].block.value| == start + |Roots(g)|
            && Listed(t, g, subs, to, start)
            && Rep(s, g) && NoDup(g) && Parents(s, g, source) && to !in Ids(g) && source !in Ids(g)
  {
    RootsNonEmpty(todo);
    AppendNil(passed);
    SelectedShape(s, kids, skip, source);
  }

  // What the second loop needs to know throughout, on the store `s` as the first loop left it.
  ghost predicate Pending(s: Store, t0: Store, done: Forest, subs: Renaming, back: Renaming, from: Id) {
    && Keeps(s, t0) && |back| == |t0| == |s| + Size(done)
    && Rep(s, done) && NoDup(done) && Parents(s, done, from) && from !in Ids(done)
    && Numbered(subs, Pre(done), |s|)
    && forall i {:trigger Pre(done)[i]} :: 0 <= i < Size(done) ==> back[|s| + i] == Pre(done)[i]
  }

  lemma {:induction false} CompletingStart(s: Store, t: Store, done: Forest, subs: Renaming, back: Renaming, from: Id, to: Id)
    requires Listing(s, t, done, subs, to) && back == Identity(|s|) + Pre(done) && |s| <= |t|
    requires Rep(s, done) && NoDup(done) && Parents(s, done, from) && to !in Ids(done) && from !in Ids(done)
    ensures Pending(t[..|s|], t, done, subs, back, from)
    ensures Completing(t[..|s|], t, t, Nil, done, subs, |s|, from, to) && Append(Nil, done) == done
  {
    var s1 := t[..|s|];
    assert Pre(Nil) == [];
    forall x | x in Ids(done) ensures Children(s1, x) == Children(s, x) && (x < |s| ==> s1[x] == s[x]) { RepInStore(s, done, x); }
    RepFrame(s, s1, done);
    ParentsFrame(s, s1, done, from);
    forall i | 0 <= i < |Pre(done)| ensures Pre(done)[i] < |s1| && t[|s| + i] == Skeleton(s1[Pre(done)[i]], subs) {
      PreIds(done, Pre(done)[i]);
    }
  }

  lemma {:induction false} CompletingNext(s: Store, t0: Store, t: Store, finished: Forest, pending: Forest, i: nat, done: Forest,
                       subs: Renaming, back: Renaming, from: Id, to: Id)
    requires Pending(s, t0, done, subs, back, from) && Completing(s, t0, t, finished, pending, subs, |s|, from, to)
    requires done == Append(finished, pending) && i < |Roots(done)| && Roots(pending) == Roots(done)[i..]
    ensures pending.Cons? && Sub(subs, Roots(done)[i]) == |s| + Size(finished)
    ensures |s| + Size(finished) < |back| && back[|s| + Size(finished)] == pending.id
    ensures Sourced(s, t, pending.id, pending.kids, subs, back, |s| + Size(finished), from)
    ensures Roots(pending.rest) == Roots(done)[i + 1..]
    ensures var child := Cons(pending.id, pending.kids, Nil);
            && Append(Append(finished, child), pending.rest) == done && Pre(child) == [pending.id] + Pre(pending.kids)
            && Size(child) == 1 + Size(pending.kids)
  {
    hide *;
    PendingElim(s, t0, done, subs, back, from);
    CompletingElim(s, t0, t, finished, pending, subs, |s|, from, to);
    PendingShape(s, finished, pending, i, from, done);
    PendingNumbers(|s|, finished, pending, done, subs, back);
    var child := Cons(pending.id, pending.kids, Nil);
    SkeletonsSlice(s, t, Pre(child), Pre(pending.rest), subs, |s| + Size(finished));
    SubAt(subs, pending.id);
    PendingSourced(s, t0, t, finished, pending, subs, back, from);
  }

  lemma {:induction false} PendingElim(s: Store, t0: Store, done: Forest, subs: Renaming, back: Renaming, from: Id)
    requires Pending(s, t0, done, subs, back, from)
    ensures Keeps(s, t0) && |back| == |t0| == |s| + Size(done)
    ensures Rep(s, done) && NoDup(done) && Parents(s, done, from) && from !in Ids(done)
    ensures Numbered(subs, Pre(done), |s|)
    ensures forall i {:trigger Pre(done)[i]} :: 0 <= i < Size(done) ==> back[|s| + i] == Pre(done)[i]
  {}

  lemma {:induction false} CompletingElim(s: Store, t0: Store, t: Store, finished: Forest, pending: Forest, subs: Renaming, lo: Id, from: Id, to: Id)
    requires Completing(s, t0, t, finished, pending, subs, lo, from, to)
    ensures Within(t0, t, lo, lo + Size(finished))
    ensures Copies(s, t, Pre(finished), subs, lo, from, to)
    ensures Skeletons(s, t, Pre(pending), subs, lo + Size(finished))
  {}

  lemma {:induction false} PendingShape(s: Store, finished: Forest, pending: Forest, i: nat, from: Id, done: Forest)
    requires Append(finished, pending) == done && i < |Roots(done)| && Roots(pending) == Roots(done)[i..]
    requires Rep(s, done) && NoDup(done) && Parents(s, done, from) && from !in Ids(done)
    ensures pending.Cons? && Roots(done)[i] == pending.id && Roots(pending.rest) == Roots(done)[i + 1..]
    ensures var child := Cons(pending.id, pending.kids, Nil);
            && Append(Append(finished, child), pending.rest) == done
            && Pre(child) == [pending.id] + Pre(pending.kids) && Size(child) == 1 + Size(pending.kids)
            && Pre(done) == Pre(finished) + (Pre(child) + Pre(pending.rest)) && Pre(pending) == Pre(child) + Pre(pending.rest)
            && Rep(s, child) && NoDup(child) && Parents(s, child, from) && from !in Ids(child)
  {
    RootsNonEmpty(pending);
    assert Roots(pending)[0] == pending.id && Roots(pending)[1..] == Roots(pending.rest);
    StepShape(s, finished, pending, from);
    MoveTree(finished, pending);
    PreAppend(finished, pending);
    PreTree(pending.id, pending.kids);
    ParentsAppend(s, finished, pending, from);
  }

  lemma {:induction false} PendingNumbers(lo: Id, finished: Forest, pending: Forest, done: Forest, subs: Renaming, back: Renaming)
    requires pending.Cons? && Numbered(subs, Pre(done), lo)
    requires Pre(done) == Pre(finished) + (Pre(Cons(pending.id, pending.kids, Nil)) + Pre(pending.rest))
    requires Pre(Cons(pending.id, pending.kids, Nil)) == [pending.id] + Pre(pending.kids)
    requires |back| >= lo + Size(done)
    requires forall i {:trigger Pre(done)[i]} :: 0 <= i < Size(done) ==> back[lo + i] == Pre(done)[i]
    ensures Numbered(subs, Pre(Cons(pending.id, pending.kids, Nil)), lo + Size(finished))
    ensures pending.id < |subs| && subs[pending.id] == lo + Size(finished)
    ensures lo + Size(finished) + 1 + Size(pending.kids) <= |back| && back[lo + Size(finished)] == pending.id
    ensures forall i {:trigger Pre(pending.kids)[i]} :: 0 <= i < Size(pending.kids) ==>
              back[lo + Size(finished) + 1 + i] == Pre(pending.kids)[i]
  {
    hide *;
    var a, b, c := Pre(finished), [pending.id] + Pre(pending.kids), Pre(pending.rest);
    ConcatAssoc(a, b, c);
    NumberedSlice(subs, a, b, c, lo);
    NumberedHead(subs, b, lo + Size(finished));
    assert |Pre(done)| == |a| + |b| + |c|;
    assert Pre(done)[|a|] == pending.id;
    forall i | 0 <= i < Size(pending.kids) ensures back[lo + Size(finished) + 1 + i] == Pre(pending.kids)[i] {
      assert Pre(done)[|a| + 1 + i] == Pre(pending.kids)[i];
    }
  }

  lemma {:induction false} PendingSourced(s: Store, t0: Store, t: Store, finished: Forest, pending: Forest, subs: Renaming, back: Renaming, from: Id)
    requires |back| == |t0| && Keeps(s, t0) && Within(t0, t, |s|, |s| + Size(finished)) && pending.Cons?
    requires var child := Cons(pending.id, pending.kids, Nil); var lo := |s| + Size(finished);
             && Rep(s, child) && NoDup(child) && Parents(s, child, from) && from !in Ids(child)
             && Numbered(subs, Pre(child), lo) && Skeletons(s, t, Pre(child), subs, lo)
             && Pre(child) == [pending.id] + Pre(pending.kids)
             && lo + 1 + Size(pending.kids) <= |back| && back[lo] == pending.id
    requires forall i {:trigger Pre(pending.kids)[i]} :: 0 <= i < Size(pending.kids) ==>
              back[|s| + Size(finished) + 1 + i] == Pre(pending.kids)[i]
    ensures Sourced(s, t, pending.id, pending.kids, subs, back, |s| + Size(finished), from)
  {
    hide Within, Keeps, Rep, NoDup, Parents, Numbered, Skeletons, Ids, Pre;
    WithinBeyond(s, t0, t, |s|, |s| + Size(finished));
  }

  lemma {:induction false} CompletingStep(s: Store, t0: Store, t: Store, t': Store, finished: Forest, pending: Forest, subs: Renaming, lo: Id, from: Id, to: Id)
    requires pending.Cons? && Completing(s, t0, t, finished, pending, subs, lo, from, to)
    requires var child := Cons(pending.id, pending.kids, Nil);
             && Within(t, t', lo + Size(finished), lo + Size(finished) + Size(child))
             && Copies(s, t', Pre(child), subs, lo + Size(finished), from, to)
    ensures Completing(s, t0, t', Append(finished, Cons(pending.id, pending.kids, Nil)), pending.rest, subs, lo, from, to)
    ensures |t'| == |t| && forall x {:trigger t'[x]} :: 0 <= x < lo && x < |t| ==> t'[x] == t[x]
  {
    hide *;
    var child := Cons(pending.id, pending.kids, Nil);
    var p, q, r, mid := Pre(finished), Pre(child), Pre(pending.rest), lo + Size(finished);
    MoveTree(finished, pending);
    CompletingElim(s, t0, t, finished, pending, subs, lo, from, to);
    CopiesWithin(s, t, t', p, subs, lo, from, to, mid, mid + |q|);
    CopiesAppend(s, t', p, q, subs, lo, from, to);
    WithinTrans(t0, t, t', lo, mid, mid + |q|);
    SkeletonsSlice(s, t, q, r, subs, mid);
    SkeletonsWithin(s, t, t', r, subs, mid + |q|, mid, mid + |q|);
    CompletingIntro(s, t0, t', Append(finished, child), pending.rest, subs, lo, from, to);
    forall x | 0 <= x < lo && x < |t| ensures |t'| == |t| && t'[x] == t[x] { WithinKeeps(t, t', mid, mid + |q|, x); }
    WithinLength(t, t', mid, mid + |q|);
  }

  lemma {:induction false} CompletingIntro(s: Store, t0: Store, t: Store, finished: Forest, pending: Forest, subs: Renaming, lo: Id, from: Id, to: Id)
    requires Within(t0, t, lo, lo + Size(finished))
    requires Copies(s, t, Pre(finished), subs, lo, from, to)
    requires Skeletons(s, t, Pre(pending), subs, lo + Size(finished))
    ensures Completing(s, t0, t, finished, pending, subs, lo, from, to)
  {}

  lemma {:induction false} CompletingEnd(s: Store, t0: Store, t: Store, done: Forest, finished: Forest, pending: Forest, subs: Renaming, from: Id, to: Id)
    requires Listing(s, t0, done, subs, to) && |s| <= |t0| && to !in Ids(done)
    requires Completing(t0[..|s|], t0, t, finished, pending, subs, |s|, from, to)
    requires done == Append(finished, pending) && Roots(pending) == []
    ensures CopiedInto(s, t, done, subs, from, to)
  {
    hide *;
    assert pending.Nil? by { RootsNonEmpty(pending); }
    AppendNil(finished);
    ListingElim(s, t0, done, subs, to);
    CompletingElim(t0[..|s|], t0, t, finished, pending, subs, |s|, from, to);
    ListedCopies(s, t0, t, done, subs, from, to);
    forall y | 0 <= y < |s| ensures |t| == |t0| && t[y] == t0[y] { WithinKeeps(t0, t, |s|, |s| + Size(finished), y); }
    CopiedIntoIntro(s, t, done, subs, from, to);
  }

  // Copies of the listed store are copies of the store before: only `to` differs.
  lemma {:induction false} ListedCopies(s: Store, t0: Store, t: Store, g: Forest, subs: Renaming, from: Id, to: Id)
    requires |s| <= |t0| && Copies(t0[..|s|], t, Pre(g), subs, |s|, from, to) && to !in Ids(g)
    requires forall y {:trigger t0[y]} :: 0 <= y < |s| && y != to ==> t0[y] == s[y]
    ensures Copies(s, t, Pre(g), subs, |s|, from, to)
  {
    forall i | 0 <= i < |Pre(g)|
      ensures Pre(g)[i] < |s| && t[|s| + i] == CopyOf(s[Pre(g)[i]], subs, NewParent(s[Pre(g)[i]].parent, subs, from, to))
    {
      PreIds(g, Pre(g)[i]);
      assert t0[..|s|][Pre(g)[i]] == t0[Pre(g)[i]];
    }
  }

  lemma {:induction false} CopiedIntoIntro(s: Store, t: Store, g: Forest, subs: Renaming, from: Id, to: Id)
    requires to < |s| && |t| == |s| + Size(g)
    requires forall y {:trigger t[y]} :: 0 <= y < |s| && y != to ==> t[y] == s[y]
    requires t[to] == s[to].(block := Some(Children(s, to) + SubIds(subs, Roots(g))))
    requires Extends(Identity(|s|), subs, Pre(g)) && Numbered(subs, Pre(g), |s|)
    requires Copies(s, t, Pre(g), subs, |s|, from, to)
    ensures CopiedInto(s, t, g, subs, from, to)
  {}

  lemma {:induction false} DestOutside(e: Id, kids: Forest, dest: Id)
    requires dest !in Ids(Cons(e, kids, Nil))
    ensures dest != e && dest !in Ids(kids)
  {}

  lemma {:induction false} ListingStart(s: Store, kids: Forest, skip: bool, subs: Renaming, to: Id)
    requires to < |s| && s[to].block.Some? && subs == Identity(|s|)
    ensures Listing(s, s, Nil, subs, to) && Pre(Nil) == [] && Append(Nil, kids) == kids && Selected(s, Nil, skip) == Nil
    ensures |subs| == |s| && Identity(|s|) + [] == Identity(|s|)
  {
    assert SubIds(subs, []) == [];
    assert s[to].block.value + [] == s[to].block.value;
  }

  lemma {:induction false} BuiltKeeps(s: Store, t: Store, f: Forest, subs0: Renaming, subs: Renaming)
    requires Built(s, t, Pre(f), subs0, subs)
    ensures |s| <= |t| == |s| + |Pre(f)| && forall y {:trigger t[y]} :: 0 <= y < |s| ==> t[y] == s[y]
  {}

  lemma {:induction false} SelectNext(s: Store, t: Store, passed: Forest, todo: Forest, i: nat, source: Id, skip: bool, subs: Renaming, to: Id)
    requires Listing(s, t, Selected(s, passed, skip), subs, to)
    requires var kids := Append(passed, todo);
             && Rep(s, kids) && NoDup(kids) && Parents(s, kids, source) && to !in Ids(kids)
             && i < |Roots(kids)| && Roots(todo) == Roots(kids)[i..]
    ensures todo.Cons? && todo.id == Roots(Append(passed, todo))[i]
    ensures var child := Cons(todo.id, todo.kids, Nil); var done := Selected(s, passed, skip);
            && Append(Append(passed, child), todo.rest) == Append(passed, todo)
            && Roots(todo.rest) == Roots(Append(passed, todo))[i + 1..]
            && Rep(s, done) && Rep(s, child) && Rep(t, child) && NoDup(child) && Ids(done) !! Ids(child) && to !in Ids(child)
            && (forall x :: x in Ids(child) ==> x < |s|)
            && Pre(child) == [todo.id] + Pre(todo.kids) && Pre(Append(done, child)) == Pre(done) + Pre(child)
            && todo.id < |s| && todo.id < |t| && t[todo.id] == s[todo.id]
            && Selected(s, Append(passed, child), skip) ==
                 (if skip && s[todo.id].data.param.Some? then done else Append(done, child))
  {
    hide Listing, Rep, NoDup, Parents;
    RootsNonEmpty(todo);
    assert Roots(todo)[0] == todo.id && Roots(todo)[1..] == Roots(todo.rest);
    var child := Cons(todo.id, todo.kids, Nil);
    var done := Selected(s, passed, skip);
    SelectNextShape(s, passed, todo, source, skip, to);
    assert Rep(t, child) && t[todo.id] == s[todo.id] && todo.id < |t| by { ListingRep(s, t, done, subs, to, child); }
    PreAppend(done, child);
    PreTree(todo.id, todo.kids);
    SelectedAppend(s, passed, child, skip);
    AppendNil(done);
  }

  lemma {:induction false} ListingRep(s: Store, t: Store, done: Forest, subs: Renaming, to: Id, f: Forest)
    requires Listing(s, t, done, subs, to) && Rep(s, f) && to !in Ids(f) && f.Cons?
    ensures Rep(t, f) && f.id < |t| && t[f.id] == s[f.id]
  {
    forall x | x in Ids(f) ensures Children(t, x) == Children(s, x) { RepInStore(s, f, x); }
    RepFrame(s, t, f);
  }

  lemma {:induction false} SelectNextShape(s: Store, passed: Forest, todo: Forest, source: Id, skip: bool, to: Id)
    requires todo.Cons?
    requires var kids := Append(passed, todo); Rep(s, kids) && NoDup(kids) && Parents(s, kids, source) && to !in Ids(kids)
    ensures var child := Cons(todo.id, todo.kids, Nil); var done := Selected(s, passed, skip);
            && Append(Append(passed, child), todo.rest) == Append(passed, todo)
            && Rep(s, done) && Rep(s, child) && NoDup(child) && Ids(done) !! Ids(child) && to !in Ids(child)
            && (forall x :: x in Ids(child) ==> x < |s|) && todo.id < |s|
  {
    var child := Cons(todo.id, todo.kids, Nil);
    StepShape(s, passed, todo, to);
    RepAppend(s, passed, todo);
    NoDupAppend(passed, todo);
    ParentsAppend(s, passed, todo, source);
    SelectedShape(s, passed, skip, source);
    forall x | x in Ids(child) ensures x < |s| { RepInStore(s, child, x); }
  }

  // ---------- what a copy is ----------

  /**
   A copy is a tree of fresh ids, isomorphic to the source: the substitution is a bijection onto
   the fresh ids, child lists and parents are renamed by it, and nothing that existed has changed.
   */
  lemma {:induction false} CopyIsIsomorphic(s: Store, t: Store, f: Forest, subs: Renaming, from: Id, to: Id)
    requires Rep(s, f) && NoDup(f) && Parents(s, f, from) && from !in Ids(f)
    requires Copied(s, t, f, subs, from, to)
    ensures |t| == |s| + Size(f) && forall x {:trigger t[x]} :: 0 <= x < |s| ==> t[x] == s[x]
    ensures forall x :: x in Ids(f) ==> |s| <= Sub(subs, x) < |t|
    ensures Injective(subs, Ids(f))
    ensures forall i {:trigger Pre(f)[i]} :: 0 <= i < Size(f) ==> Pre(f)[i] in Ids(f) && Sub(subs, Pre(f)[i]) == |s| + i
    ensures forall x :: x !in Ids(f) ==> Sub(subs, x) == x
    ensures Rep(t, Rename(subs, f)) && NoDup(Rename(subs, f)) && Parents(t, Rename(subs, f), to)
  {
    forall x | x in Ids(f)
      ensures |s| <= Sub(subs, x) < |t| && x < |s| && t[Sub(subs, x)] == CopyOf(s[x], subs, NewParent(s[x].parent, subs, from, to))
    {
      CopyAt(s, t, f, subs, from, to, x);
    }
    forall x, y | x in Ids(f) && y in Ids(f) && Sub(subs, x) == Sub(subs, y) ensures x == y {
      SubInjective(f, subs, |s|, x, y);
    }
    forall i | 0 <= i < Size(f) ensures Pre(f)[i] in Ids(f) && Sub(subs, Pre(f)[i]) == |s| + i { PreIds(f, Pre(f)[i]); }
    forall x | x !in Ids(f) ensures Sub(subs, x) == x { PreIds(f, x); }
    hide Copied, Rep, NoDup, Parents, CopyOf;
    RenameNoDup(subs, f);
    CopyRep(s, t, f, subs, from, to);
    CopyParents(s, t, f, f, subs, from, to, from, to);
  }

  lemma {:induction false} CopyAt(s: Store, t: Store, f: Forest, subs: Renaming, from: Id, to: Id, x: Id)
    requires Copied(s, t, f, subs, from, to) && x in Ids(f)
    ensures x < |s| <= Sub(subs, x) < |t|
    ensures t[Sub(subs, x)] == CopyOf(s[x], subs, NewParent(s[x].parent, subs, from, to))
  {
    PreIds(f, x);
    var i :| 0 <= i < |Pre(f)| && Pre(f)[i] == x;
  }

  lemma {:induction false} SubInjective(f: Forest, subs: Renaming, lo: Id, x: Id, y: Id)
    requires Numbered(subs, Pre(f), lo) && x in Ids(f) && y in Ids(f) && Sub(subs, x) == Sub(subs, y)
    ensures x == y
  {
    PreIds(f, x);
    PreIds(f, y);
    var i :| 0 <= i < |Pre(f)| && Pre(f)[i] == x;
    var j :| 0 <= j < |Pre(f)| && Pre(f)[j] == y;
  }

  lemma {:induction false} CopyRep(s: Store, t: Store, f: Forest, subs: Renaming, from: Id, to: Id)
    requires Rep(s, f) && Copied(s, t, f, subs, from, to)
    ensures Rep(t, Rename(subs, f))
  {
    forall x | x in Ids(f) ensures Sub(subs, x) < |t| && Children(t, Sub(subs, x)) == SubIds(subs, Children(s, x)) {
      CopyAt(s, t, f, subs, from, to, x);
      assert SubIds(subs, []) == [];
    }
    RenameRep(subs, s, t, f);
  }

  lemma {:induction false} CopyParents(s: Store, t: Store, f: Forest, g: Forest, subs: Renaming, from: Id, to: Id, p: Id, q: Id)
    requires Copied(s, t, f, subs, from, to) && from !in Ids(f)
    requires Parents(s, g, p) && Ids(g) <= Ids(f)
    requires (p == from && q == to) || (p in Ids(f) && q == Sub(subs, p))
    ensures Parents(t, Rename(subs, g), q)
    decreases g
  {
    hide Copied;
    if g.Cons? {
      CopyAt(s, t, f, subs, from, to, g.id);
      CopyParents(s, t, f, g.kids, subs, from, to, g.id, Sub(subs, g.id));
      CopyParents(s, t, f, g.rest, subs, from, to, p, q);
    }
  }
}
