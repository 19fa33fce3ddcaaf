/** The whole inlining pass: opt/inline_functions.cpp under the breadth-first walker of systems.hpp. */
module InlinePass {
  import opened Wrappers
  import opened Store
  import opened Shapes
  import opened Copy
  import opened Substitute
  import opened Builder
  import opened Inline
  import opened Weights
  import opened InlineStep
  import opened InlinePart

  // A path downwards from `root` through child lists.
  ghost predicate IsPath(s: Store, root: Id, path: seq<Id>) {
    && path != [] && path[0] == root
    && forall i :: 0 <= i < |path| - 1 ==> path[i + 1] in Children(s, path[i])
  }

  // What the walker has left behind: nothing marked, and every child met or queued.
  ghost predicate Settled(s: Store, seen: set<Id>, queue: seq<Id>) {
    forall v {:trigger v in seen} :: v in seen ==>
      v < |s| && !Marked(s, v) && forall c :: c in Children(s, v) ==> c in seen || c in queue
  }

  // `e` was visited: it is unmarked now, and nothing else lost or gained a mark or a child.
  ghost predicate Visited(s: Store, w: seq<nat>, t: Store, v: seq<nat>, b: Builtins, e: Id) {
    && Inv(t, v, b) && |s| <= |t| && |w| <= |v| && v[..|w|] == w && e < |t| && !Marked(t, e)
    && forall y: Id {:trigger Marked(t, y)} {:trigger Marked(s, y)} :: y < |s| && !Marked(s, y) ==> !Marked(t, y) && Children(t, y) == Children(s, y)
  }

  lemma {:induction false} StepVisited(s: Store, t: Store, w: seq<nat>, b: Builtins, p: Plan)
    requires Step(s, t, w, b, p)
    ensures (forall x :: x in Ids(p.body) ==> x < |w|) && Visited(s, w, t, NewWeights(w, p), b, p.e)
  {
    StepKeeps(s, t, w, b, p);
    StepLonger(s, t, w, b, p);
    StepSame(s, t, w, b, p);
    var v := NewWeights(w, p);
    forall y: Id | y < |s| && !Marked(s, y) ensures !Marked(t, y) && Children(t, y) == Children(s, y) {
      assert Good(s, w, b, y);
      OldCallee(s, t, p.e, y);
    }
    hide NewWeights, Step, Inv;
    assert v[..|w|] == w;
  }

  lemma {:induction false} Unvisited(s: Store, w: seq<nat>, b: Builtins, e: Id)
    requires Inv(s, w, b) && e < |s| && !Marked(s, e)
    ensures Visited(s, w, s, w, b, e)
  {}

  // A visit takes exactly one off the weight that is waiting.
  lemma {:induction false} VisitWeight(s: Store, w: seq<nat>, t: Store, v: seq<nat>, b: Builtins, queue: seq<Id>)
    requires queue != [] && InRange(queue, |w|) && Visited(s, w, t, v, b, queue[0]) && |w| == |s|
    ensures InRange(queue[1..] + Children(t, queue[0]), |t|)
    ensures Weight(w, queue) == 1 + Weight(v, queue[1..] + Children(t, queue[0]))
  {
    var e := queue[0];
    assert Good(t, v, b, e);
    GoodChildren(t, v, b, e);
    hide Inv, Good, Marked;
    OldWeight(w, v, queue);
    WeightAppend(v, queue[1..], Children(t, e));
  }

  lemma {:induction false} GoodChildren(t: Store, v: seq<nat>, b: Builtins, e: Id)
    requires Good(t, v, b, e) && !Marked(t, e) && |v| == |t|
    ensures InRange(Children(t, e), |t|) && v[e] == 1 + Weight(v, Children(t, e))
  {}

  lemma {:induction false} VisitSettled(s: Store, w: seq<nat>, t: Store, v: seq<nat>, b: Builtins, seen: set<Id>, queue: seq<Id>)
    requires queue != [] && Visited(s, w, t, v, b, queue[0]) && Settled(s, seen, queue)
    ensures Settled(t, seen + {queue[0]}, queue[1..] + Children(t, queue[0]))
  {
    hide Inv, Marked;
    var e, rest := queue[0], queue[1..] + Children(t, queue[0]);
    forall y | y in seen + {e}
      ensures y < |t| && !Marked(t, y) && forall c :: c in Children(t, y) ==> c in seen + {e} || c in rest
    {
      if y in seen {
        assert Children(t, y) == Children(s, y) || y == e;
      }
    }
  }

  lemma {:induction false} PathSettled(s: Store, seen: set<Id>, root: Id, path: seq<Id>, i: nat)
    requires Settled(s, seen, []) && root in seen && IsPath(s, root, path) && i < |path|
    ensures path[i] in seen
    decreases i
  {
    if i > 0 {
      PathSettled(s, seen, root, path, i - 1);
      assert path[i - 1 + 1] in Children(s, path[i - 1]);
    }
  }

  // The state of the walker: what is queued lies in the part and weighs what the root weighs, less the visits made.
  ghost predicate Walking(s: Store, part: set<Id>, w: seq<nat>, b: Builtins, w0: seq<nat>, root: Id, seen: set<Id>, queue: seq<Id>, visits: nat) {
    && PartInv(s, part, w, b) && |w| == |s| && root < |w0| <= |w| && w[..|w0|] == w0
    && (forall e :: e in queue ==> e in part) && InRange(queue, |w|) && visits + Weight(w, queue) == w0[root]
    && Settled(Masked(s, part), seen, queue) && seen <= part && (root in seen || root in queue)
  }

  /**
   Expands every marked call below `root`, also those in the bodies it has just copied.
   The pass ends after exactly weight(root) visits.  Neither the flags of a call that can still be reached nor
   those of the type of its function ask for expansion any more.  All this asks only of a part of the module;
   nothing outside of that changes.
   */
  method InlineAll(mod: Module, root: Id, b: Builtins, ghost part0: set<Id>, ghost w0: seq<nat>)
    returns (ghost part: set<Id>, ghost w: seq<nat>, ghost visits: nat)
    requires root in part0 && PartInv(mod.ents, part0, w0, b)
    modifies mod
    ensures root < |w0| && visits == w0[root]
    ensures PartInv(mod.ents, part, w, b) && |w0| <= |w| && forall e :: 0 <= e < |w0| ==> w[e] == w0[e]
    ensures |old(mod.ents)| <= |mod.ents| && forall e {:trigger e in part} :: 0 <= e < |old(mod.ents)| ==> (e in part <==> e in part0)
    ensures forall e {:trigger mod.ents[e]} :: 0 <= e < |old(mod.ents)| && e !in part0 ==> mod.ents[e] == old(mod.ents)[e]
    ensures forall path :: IsPath(mod.ents, root, path) ==>
              var t, e := mod.ents, path[|path| - 1];
              e < |t| && (t[e].links.call.Some? ==> Flag.Inline !in t[e].data.flags)
    ensures forall path :: IsPath(mod.ents, root, path) ==>
              var t, e := mod.ents, path[|path| - 1];
              e < |t| && (t[e].links.call.Some? ==>
                var fd := Resolve(t, t[e].links.call.value);
                && fd.Some? && fd.value < |t| && t[fd.value].links.typeOf.Some?
                && (t[fd.value].links.typeOf.value < |t| ==> Flag.Inline !in t[t[fd.value].links.typeOf.value].data.flags))
  {
    hide *;
    var queue := [root];
    part, w, visits := part0, w0, 0;
    ghost var s0, seen: set<Id> := mod.ents, {};
    WalkingStart(mod.ents, part0, w0, b, root);
    OutsideStart(s0, part0);
    while queue != []
      invariant Walking(mod.ents, part, w, b, w0, root, seen, queue, visits)
      invariant Outside(s0, mod.ents, part0, part)
      decreases Weight(w, queue)
    {
      var e := queue[0];
      ghost var s, v, before := mod.ents, w, part;
      ghost var kids := WalkingNext(s, part, w, b, w0, root, seen, queue, visits);
      ghost var p := InlineFunctions(mod, e, b, kids);
      part, w := VisitOutcome(s, mod.ents, before, v, b, e, kids, p);
      OutsideStep(s0, s, mod.ents, part0, before, part, e, b, kids, p);
      var children := if mod.ents[e].block.Some? then mod.ents[e].block.value else [];
      WalkingStep(s, before, v, mod.ents, part, w, b, w0, root, seen, queue, visits, children);
      queue := queue[1..] + children;
      seen := seen + {e};
      visits := visits + 1;
    }
    WalkingEnd(mod.ents, part, w, b, w0, root, seen, queue, visits);
    DoneMeans(mod.ents);
    OutsideEnd(s0, mod.ents, part0, part);
  }

  // What was outside is still there, and nothing that was there has come in or gone out.
  ghost predicate Outside(s0: Store, s: Store, part0: set<Id>, part: set<Id>) {
    && |s0| <= |s|
    && (forall e {:trigger e in part} :: 0 <= e < |s0| ==> (e in part <==> e in part0))
    && forall e {:trigger s[e]} :: 0 <= e < |s0| && e !in part0 ==> s[e] == s0[e]
  }

  lemma {:induction false} OutsideStart(s: Store, part: set<Id>)
    ensures Outside(s, s, part, part)
  {}

  lemma {:induction false} OutsideEnd(s0: Store, s: Store, part0: set<Id>, part: set<Id>)
    requires Outside(s0, s, part0, part)
    ensures |s0| <= |s| && forall e {:trigger e in part} :: 0 <= e < |s0| ==> (e in part <==> e in part0)
    ensures forall e {:trigger s[e]} :: 0 <= e < |s0| && e !in part0 ==> s[e] == s0[e]
  {}

  lemma {:induction false} OutsideStep(s0: Store, s: Store, t: Store, part0: set<Id>, before: set<Id>, part: set<Id>, e: Id, b: Builtins, kids: Forest, p: Plan)
    requires Outside(s0, s, part0, before) && e in before
    requires !Marked(s, e) ==> t == s && part == before
    requires Marked(s, e) ==> p.e == e && Inlined(s, t, p) && part == Grown(s, t, before)
    ensures Outside(s0, t, part0, part)
  {
    hide Marked, AliasEntity, CopyLinksOf, CopyData, Numbered;
    if Marked(s, e) {
      forall y {:trigger t[y]} | 0 <= y < |s0| && y !in part0 ensures t[y] == s0[y] { assert y !in before && y != e; }
    }
  }

  lemma {:induction false} WalkingStart(s: Store, part: set<Id>, w: seq<nat>, b: Builtins, root: Id)
    requires PartInv(s, part, w, b) && root in part
    ensures |w| == |s| && Walking(s, part, w, b, w, root, {}, [root], 0)
  {
    PartLength(s, part, w, b);
    assert w[..|w|] == w;
    var queue := [root];
    assert queue[1..] == [];
    assert Weight(w, queue) == w[root];
    hide PartInv, Masked;
  }

  lemma {:induction false} WalkingNext(s: Store, part: set<Id>, w: seq<nat>, b: Builtins, w0: seq<nat>, root: Id, seen: set<Id>, queue: seq<Id>, visits: nat)
    returns (kids: Forest)
    requires queue != [] && Walking(s, part, w, b, w0, root, seen, queue, visits)
    ensures queue[0] < |s| && queue[0] in part && PartInv(s, part, w, b)
    ensures s[queue[0]].links.call.Some? ==> Callable(s, queue[0])
    ensures Marked(s, queue[0]) ==>
              && Inlinable(s, queue[0], Callee(s, queue[0]), kids, b)
              && Callee(Masked(s, part), queue[0]) < |s| && kids == Body(Masked(s, part), w, b, Callee(Masked(s, part), queue[0]))
              && forall x :: x in Ids(kids) ==> x in part && x < |s|
  {
    var e, m := queue[0], Masked(s, part);
    assert e in queue;
    hide PartInv, Marked, Callee, Inlinable, Callable, Masked, Settled, Weight;
    PartInvElim(s, part, w, b);
    MaskedMarked(s, part, w, b, e);
    InvInlinable(m, w, b, e);
    if Marked(s, e) {
      kids := Body(m, w, b, Callee(m, e));
      MaskedInlinable(s, part, w, b, e, kids);
    } else {
      kids := Nil;
    }
  }

  lemma {:induction false} PartInvElim(s: Store, part: set<Id>, w: seq<nat>, b: Builtins)
    requires PartInv(s, part, w, b)
    ensures Inv(Masked(s, part), w, b) && |Masked(s, part)| == |s| == |w| && forall e :: e in part ==> e < |s|
  {
    InvLength(Masked(s, part), w, b);
    hide Inv;
  }

  lemma {:induction false} PartLength(s: Store, part: set<Id>, w: seq<nat>, b: Builtins)
    requires PartInv(s, part, w, b)
    ensures |w| == |s| && forall e :: e in part ==> e < |s|
  {
    PartInvElim(s, part, w, b);
    hide *;
  }

  lemma {:induction false} VisitOutcome(s: Store, t: Store, part: set<Id>, w: seq<nat>, b: Builtins, e: Id, kids: Forest, p: Plan)
    returns (part': set<Id>, v: seq<nat>)
    requires PartInv(s, part, w, b) && e in part && e < |s|
    requires !Marked(s, e) ==> t == s
    requires Marked(s, e) ==> p.e == e && PlanFor(s, p, kids, b) && Inlined(s, t, p)
    requires Marked(s, e) ==>
               && Callee(Masked(s, part), e) < |s| && kids == Body(Masked(s, part), w, b, Callee(Masked(s, part), e))
               && forall x :: x in Ids(kids) ==> x in part && x < |s|
    ensures e < |t| && PartInv(t, part', v, b) && Visited(Masked(s, part), w, Masked(t, part'), v, b, e)
    ensures part' == if Marked(s, e) then Grown(s, t, part) else part
  {
    hide *;
    var m := Masked(s, part);
    PartInvElim(s, part, w, b);
    MaskedMarked(s, part, w, b, e);
    if Marked(s, e) {
      part' := Grown(s, t, part);
      var u := Masked(t, part');
      MaskedPlan(s, part, w, b, p, kids);
      BodyPart(s, p, kids, b, part);
      MaskedInlined(s, t, part, p);
      PlanCallee(m, p, kids, b);
      StepIntro(m, u, w, b, p);
      StepVisited(m, u, w, b, p);
      v := NewWeights(w, p);
      GrownTypes(s, t, part, w, b, p);
      VisitedInv(m, w, u, v, b, e);
      GrownPart(s, t, part, v, b, p);
    } else {
      part', v := part, w;
      Unvisited(m, w, b, e);
    }
  }

  lemma {:induction false} BodyPart(s: Store, p: Plan, kids: Forest, b: Builtins, part: set<Id>)
    requires PlanFor(s, p, kids, b) && forall x :: x in Ids(kids) ==> x in part
    ensures forall x :: x in Ids(p.body) ==> x in part
  {
    SelectedIds(s, kids);
    hide *;
    BodySelected(s, p, kids, b);
  }

  lemma {:induction false} BodySelected(s: Store, p: Plan, kids: Forest, b: Builtins)
    requires PlanFor(s, p, kids, b)
    ensures p.body == Selected(s, kids, true)
  {}

  lemma {:induction false} SelectedIds(s: Store, f: Forest)
    ensures Ids(Selected(s, f, true)) <= Ids(f)
  {
    if f.Cons? { SelectedIds(s, f.rest); }
  }

  lemma {:induction false} PlanCallee(s: Store, p: Plan, kids: Forest, b: Builtins)
    requires PlanFor(s, p, kids, b)
    ensures p.fd == Callee(s, p.e)
  {}

  lemma {:induction false} VisitedInv(s: Store, w: seq<nat>, t: Store, v: seq<nat>, b: Builtins, e: Id)
    requires Visited(s, w, t, v, b, e)
    ensures Inv(t, v, b) && e < |t|
  {}

  lemma {:induction false} GrownPart(s: Store, t: Store, part: set<Id>, v: seq<nat>, b: Builtins, p: Plan)
    requires Inv(Masked(t, Grown(s, t, part)), v, b) && TypesInside(t, Grown(s, t, part)) && Inlined(s, t, p)
    requires forall e :: e in part ==> e < |s|
    ensures PartInv(t, Grown(s, t, part), v, b)
  {
    hide Inv, TypesInside, Masked, Numbered, CopyLinksOf;
  }

  lemma {:induction false} WalkingStep(s: Store, part: set<Id>, w: seq<nat>, t: Store, part': set<Id>, v: seq<nat>, b: Builtins, w0: seq<nat>, root: Id,
                                       seen: set<Id>, queue: seq<Id>, visits: nat, children: seq<Id>)
    requires queue != [] && Walking(s, part, w, b, w0, root, seen, queue, visits) && part <= part'
    requires PartInv(t, part', v, b) && Visited(Masked(s, part), w, Masked(t, part'), v, b, queue[0])
    requires queue[0] < |t| && children == if t[queue[0]].block.Some? then t[queue[0]].block.value else []
    ensures Walking(t, part', v, b, w0, root, seen + {queue[0]}, queue[1..] + children, visits + 1)
    ensures Weight(v, queue[1..] + children) < Weight(w, queue)
  {
    hide PartInv, Inv, Marked, Settled, Weight, Masked;
    var e, m, u := queue[0], Masked(s, part), Masked(t, part');
    assert e in queue;
    PartInvElim(s, part, w, b);
    PartInvElim(t, part', v, b);
    assert children == Children(t, e);
    MaskedChildren(t, part', e);
    VisitWeight(m, w, u, v, b, queue);
    VisitSettled(m, w, u, v, b, seen, queue);
    assert v[..|w0|] == w0 by { PrefixTrans(w0, w, v); }
    forall x | x in queue[1..] + children ensures x in part' {
      if x in children { ChildInside(t, part', v, b, e, x); } else { assert x in queue; }
    }
  }

  lemma {:induction false} PrefixTrans(a: seq<nat>, b: seq<nat>, c: seq<nat>)
    requires |a| <= |b| <= |c| && b[..|a|] == a && c[..|b|] == b
    ensures c[..|a|] == a
  {
    assert c[..|a|] == c[..|b|][..|a|];
  }

  // Paths from the root stay in the part.
  lemma {:induction false} PathInside(s: Store, part: set<Id>, w: seq<nat>, b: Builtins, root: Id, path: seq<Id>, i: nat)
    requires PartInv(s, part, w, b) && root in part && IsPath(s, root, path) && i < |path|
    ensures path[i] in part && path[i] < |s|
    decreases i
  {
    PartLength(s, part, w, b);
    hide PartInv;
    if i > 0 {
      PathInside(s, part, w, b, root, path, i - 1);
      assert path[i - 1 + 1] in Children(s, path[i - 1]);
      ChildInside(s, part, w, b, path[i - 1], path[i]);
    }
  }

  lemma {:induction false} PathMasked(s: Store, part: set<Id>, w: seq<nat>, b: Builtins, root: Id, path: seq<Id>)
    requires PartInv(s, part, w, b) && root in part && IsPath(s, root, path)
    ensures IsPath(Masked(s, part), root, path)
  {
    hide PartInv, Masked;
    forall i | 0 <= i < |path| - 1 ensures path[i + 1] in Children(Masked(s, part), path[i]) {
      PathInside(s, part, w, b, root, path, i);
      MaskedChildren(s, part, path[i]);
    }
  }

  // Nothing left to do at `e`: if it is a call, it is known and not marked.
  ghost predicate Done(s: Store, e: Id) {
    e < |s| && !Marked(s, e) && (s[e].links.call.Some? ==> Callable(s, e))
  }

  lemma {:induction false} DoneMeans(s: Store)
    ensures forall e: Id {:trigger Done(s, e)} :: Done(s, e) && s[e].links.call.Some? ==> Flag.Inline !in s[e].data.flags
    ensures forall e: Id {:trigger Done(s, e)} :: Done(s, e) ==> e < |s|
    ensures forall e: Id {:trigger Done(s, e)} :: Done(s, e) && s[e].links.call.Some? ==>
              var fd := Resolve(s, s[e].links.call.value);
              && fd.Some? && fd.value < |s| && s[fd.value].links.typeOf.Some?
              && (s[fd.value].links.typeOf.value < |s| ==> Flag.Inline !in s[s[fd.value].links.typeOf.value].data.flags)
  {}

  lemma {:induction false} WalkingEnd(s: Store, part: set<Id>, w: seq<nat>, b: Builtins, w0: seq<nat>, root: Id, seen: set<Id>, queue: seq<Id>, visits: nat)
    requires queue == [] && Walking(s, part, w, b, w0, root, seen, queue, visits)
    ensures root < |w0| && visits == w0[root]
    ensures PartInv(s, part, w, b) && |w0| <= |w| && forall e :: 0 <= e < |w0| ==> w[e] == w0[e]
    ensures forall path :: IsPath(s, root, path) ==> |path| > 0 && Done(s, path[|path| - 1])
  {
    hide PartInv, Marked, Masked, IsPath;
    forall path | IsPath(s, root, path) ensures |path| > 0 && Done(s, path[|path| - 1]) {
      PathEnd(s, root, path);
      PathInside(s, part, w, b, root, path, |path| - 1);
      PathMasked(s, part, w, b, root, path);
      PathSettled(Masked(s, part), seen, root, path, |path| - 1);
      MaskedMarked(s, part, w, b, path[|path| - 1]);
    }
    forall e | 0 <= e < |w0| ensures w[e] == w0[e] { assert w[..|w0|][e] == w0[e]; }
  }

  lemma {:induction false} PathEnd(s: Store, root: Id, path: seq<Id>)
    requires IsPath(s, root, path)
    ensures |path| > 0
  {}

  lemma {:induction false} InvLength(s: Store, w: seq<nat>, b: Builtins)
    requires Inv(s, w, b)
    ensures |w| == |s|
  {}

  lemma {:induction false} StepIntro(s: Store, t: Store, w: seq<nat>, b: Builtins, p: Plan)
    requires Inv(s, w, b) && p.e < |s| && Marked(s, p.e) && Callee(s, p.e) < |s|
    requires PlanFor(s, p, Body(s, w, b, Callee(s, p.e)), b) && Inlined(s, t, p)
    ensures Step(s, t, w, b, p)
  {}
}
