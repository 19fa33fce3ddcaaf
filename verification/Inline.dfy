/** Expanding one call: opt/inline_functions.cpp. */
module Inline {
  import opened Wrappers
  import opened Store
  import opened Shapes
  import opened Copy
  import opened Substitute
  import opened Builder

  // The four compiler functions the expansion looks up by name.
  datatype Builtins = Builtins(indicateReturn: Id, indicateYield: Id, returnRegister: Id, yieldRegister: Id)

  // The call's function is known and has a type.
  ghost predicate Callable(s: Store, e: Id) {
    e < |s| && s[e].links.call.Some?
    && Resolve(s, s[e].links.call.value).Some?
    && var fd := Resolve(s, s[e].links.call.value).value; fd < |s| && s[fd].links.typeOf.Some?
  }

  function Callee(s: Store, e: Id): Id {
    if e < |s| && s[e].links.call.Some? && Resolve(s, s[e].links.call.value).Some?
    then Resolve(s, s[e].links.call.value).value else INVALID
  }

  // Inlining is asked for by the call's own flag or by the flag of its function's type.
  predicate Marked(s: Store, e: Id) {
    e < |s| && s[e].links.call.Some?
    && var fd := Callee(s, e);
       (FlagSet(s, e, Flag.Inline)
        || (fd < |s| && s[fd].links.typeOf.Some? && FlagSet(s, s[fd].links.typeOf.value, Flag.Inline)))
  }

  function Args(s: Store, e: Id): seq<Id> {
    if e < |s| && s[e].links.inputs.Some? then s[e].links.inputs.value else []
  }

  // The first of `xs` that is parameter number `i`.
  function ParamIn(s: Store, xs: seq<Id>, i: nat): Option<Id>
    decreases |xs|
  {
    if xs == [] then None
    else if xs[0] < |s| && s[xs[0]].data.param == Some(i) then Some(xs[0])
    else ParamIn(s, xs[1..], i)
  }

  // One child per index below `n`, in index order; an index that no child has is passed over.
  function Associated(s: Store, xs: seq<Id>, n: nat): seq<Id> {
    if n == 0 then []
    else Associated(s, xs, n - 1) + (if ParamIn(s, xs, n - 1).Some? then [ParamIn(s, xs, n - 1).value] else [])
  }

  method AssociatedParameters(s: Store, inputs: seq<Id>, block: seq<Id>) returns (parameters: seq<Id>)
    ensures parameters == Associated(s, block, |inputs|)
  {
    parameters := [];
    for i := 0 to |inputs|
      invariant parameters == Associated(s, block, i)
    {
      var j := 0;
      while j < |block|
        invariant j <= |block| && parameters == Associated(s, block, i)
        invariant ParamIn(s, block[j..], i) == ParamIn(s, block, i)
        decreases |block| - j
      {
        var e := block[j];
        assert block[j..][0] == e && block[j..][1..] == block[j + 1..];
        if e < |s| && s[e].data.param == Some(i) {
          parameters := parameters + [e];
          break;
        }
        j := j + 1;
      }
    }
  }

  /** When every index has a child, the parameters are listed by index. */
  lemma {:induction false} AssociatedAll(s: Store, xs: seq<Id>, n: nat)
    requires forall i :: 0 <= i < n ==> ParamIn(s, xs, i).Some?
    ensures |Associated(s, xs, n)| == n
    ensures forall i :: 0 <= i < n ==> ParamIn(s, xs, i) == Some(Associated(s, xs, n)[i])
  {
    if n > 0 { AssociatedAll(s, xs, n - 1); }
  }

  lemma {:induction false} ParamInMember(s: Store, xs: seq<Id>, i: nat)
    requires ParamIn(s, xs, i).Some?
    ensures ParamIn(s, xs, i).value in xs
    ensures ParamIn(s, xs, i).value < |s| && s[ParamIn(s, xs, i).value].data.param == Some(i)
    decreases |xs|
  {
    if !(xs[0] < |s| && s[xs[0]].data.param == Some(i)) { ParamInMember(s, xs[1..], i); }
  }

  // What expanding the marked call `e` of the function `fd` asks of the module.
  ghost predicate Inlinable(s: Store, e: Id, fd: Id, kids: Forest, b: Builtins) {
    && e < |s| && fd < |s| && s[e].block.None? && s[e].links.inputs.Some? && s[fd].block.Some?
    && Rep(s, Cons(fd, kids, Nil)) && NoDup(Cons(fd, kids, Nil)) && Parents(s, kids, fd)
    && e !in Ids(Cons(fd, kids, Nil))
    && (forall i :: 0 <= i < |Args(s, e)| ==> ParamIn(s, Children(s, fd), i).Some?)
    && b.indicateReturn < |s| && b.returnRegister < |s| && e != b.indicateReturn && e != b.returnRegister
    && Keyed(ReturnPairs(b), |s|)
  }

  function Digits(n: nat): string {
    if n < 10 then [('0' as int + n) as char] else Digits(n / 10) + [('0' as int + n % 10) as char]
  }

  function ArgName(s: Store, p: Id, i: nat): string {
    if p < |s| && s[p].data.name.Some? then s[p].data.name.value else "a" + Digits(i)
  }

  // Everything one expansion depends on: the call, its function, its arguments and their parameters,
  // the copied part of the body with its substitution, and the two rewriting tables.
  datatype Plan = Plan(e: Id, fd: Id, args: seq<Id>, params: seq<Id>, body: Forest, subs: Renaming, par: Renaming, ret: Renaming)

  // Calls and inputs are gone from the expanded entity; its type stays.
  function CallStripped(k: Links): Links {
    k.(call := None, inputs := None)
  }

  // The state after the aliases and the copied body are in place, before any rewriting.
  ghost predicate Expanded(s: Store, t: Store, p: Plan) {
    var n, m := |s|, |p.args|;
    && p.e < n && |p.params| == m && |t| == n + m + Size(p.body)
    && (forall y {:trigger t[y]} :: 0 <= y < n && y != p.e ==> t[y] == s[y])
    && t[p.e] == Entity(Some(Range(n, m) + SubIds(p.subs, Roots(p.body))), s[p.e].parent, CallStripped(s[p.e].links), s[p.e].data)
    && (forall i {:trigger p.args[i]} :: 0 <= i < m ==> t[n + i] == AliasEntity(p.e, ArgName(s, p.params[i], i), p.args[i]))
    && Numbered(p.subs, Pre(p.body), n + m) && |p.subs| == n + m
    && (forall x {:trigger Sub(p.subs, x)} :: x !in Ids(p.body) ==> Sub(p.subs, x) == x)
    && (forall x {:trigger x in Ids(p.body)} :: x in Ids(p.body) ==>
          x < n && n + m <= Sub(p.subs, x) < |t|
          && t[Sub(p.subs, x)] == CopyOf(s[x], p.subs, NewParent(s[x].parent, p.subs, p.fd, p.e)))
  }

  // The references of a copied entity: two rewritings, the second at the top level of the body only.
  function CopyLinksOf(s: Store, p: Plan, x: Id): Links
    requires x < |s|
  {
    var k := SubstLinks(p.par, CopyLinks(s[x], p.subs));
    if x in Roots(p.body) then SubstLinks(p.ret, k) else k
  }

  /** The state after one expansion. */
  ghost predicate Inlined(s: Store, t: Store, p: Plan) {
    var n, m := |s|, |p.args|;
    && p.e < n && |p.params| == m && |t| == n + m + Size(p.body)
    && (forall y {:trigger t[y]} :: 0 <= y < n && y != p.e ==> t[y] == s[y])
    && t[p.e] == Entity(Some(Range(n, m) + SubIds(p.subs, Roots(p.body))), SubOpt(p.ret, SubOpt(p.par, s[p.e].parent)),
                        SubstLinks(p.ret, SubstLinks(p.par, CallStripped(s[p.e].links))),
                        s[p.e].data.(flags := s[p.e].data.flags * {Export, Flatten}))
    && (forall i {:trigger p.args[i]} :: 0 <= i < m ==>
          t[n + i] == AliasEntity(p.e, ArgName(s, p.params[i], i), Sub(p.ret, Sub(p.par, p.args[i]))))
    && Numbered(p.subs, Pre(p.body), n + m) && |p.subs| == n + m
    && (forall x {:trigger Sub(p.subs, x)} :: x !in Ids(p.body) ==> Sub(p.subs, x) == x)
    && (forall x {:trigger x in Ids(p.body)} :: x in Ids(p.body) ==>
          x < n && n + m <= Sub(p.subs, x) < |t|
          && t[Sub(p.subs, x)] == Entity(SubOptIds(p.subs, s[x].block), Some(NewParent(s[x].parent, p.subs, p.fd, p.e)),
                                         CopyLinksOf(s, p, x), CopyData(s[x])))
  }

  // The plan that the call determines.
  ghost predicate PlanFor(s: Store, p: Plan, kids: Forest, b: Builtins) {
    && p.e < |s| && p.fd == Callee(s, p.e) && p.args == Args(s, p.e) && |p.params| == |p.args|
    && (forall i {:trigger p.params[i]} :: 0 <= i < |p.params| ==> ParamIn(s, Children(s, p.fd), i) == Some(p.params[i]))
    && p.body == Selected(s, kids, true)
    && |p.par| == |p.ret| == |s|
    && (forall r {:trigger Sub(p.par, r)} :: r !in p.params ==> Sub(p.par, r) == r)
    && (forall i {:trigger p.params[i]} :: 0 <= i < |p.params| ==> Sub(p.par, p.params[i]) == |s| + i)
    && (forall r {:trigger Sub(p.ret, r)} :: Sub(p.ret, r) ==
          if r == b.indicateReturn then b.indicateYield else if r == b.returnRegister then b.yieldRegister else r)
  }

  // ---------- the aliases ----------

  // The first `i` arguments have their aliases.
  ghost predicate Aliased(s: Store, t: Store, e: Id, params: seq<Id>, args: seq<Id>, i: nat) {
    && e < |s| && i <= |args| == |params| && |t| == |s| + i
    && (forall y {:trigger t[y]} :: 0 <= y < |s| && y != e ==> t[y] == s[y])
    && t[e] == Entity(Some(Range(|s|, i)), s[e].parent, CallStripped(s[e].links), s[e].data)
    && (forall k {:trigger args[k]} :: 0 <= k < i ==> t[|s| + k] == AliasEntity(e, ArgName(s, params[k], k), args[k]))
  }

  lemma {:induction false} AliasedStart(s: Store, t: Store, e: Id, params: seq<Id>, args: seq<Id>)
    requires e < |s| && |args| == |params|
    requires t == s[e := Entity(Some([]), s[e].parent, CallStripped(s[e].links), s[e].data)]
    ensures Aliased(s, t, e, params, args, 0)
  {
    assert Range(|s|, 0) == [];
  }

  lemma {:induction false} AliasedStep(s: Store, t: Store, e: Id, params: seq<Id>, args: seq<Id>, i: nat)
    requires Aliased(s, t, e, params, args, i) && i < |args|
    ensures e < |t| && t[e].block.Some?
    ensures Aliased(s, Pushed(t, e, AliasEntity(e, ArgName(s, params[i], i), args[i]), true), e, params, args, i + 1)
  {
    assert Range(|s|, i) + [|s| + i] == Range(|s|, i + 1);
  }

  // The body of the function is untouched while the aliases are made.
  lemma {:induction false} AliasedBody(s: Store, t: Store, e: Id, params: seq<Id>, args: seq<Id>, fd: Id, kids: Forest)
    requires Aliased(s, t, e, params, args, |args|) && e !in Ids(Cons(fd, kids, Nil))
    requires Rep(s, Cons(fd, kids, Nil)) && Parents(s, kids, fd) && fd < |s| && s[fd].block.Some?
    ensures Rep(t, Cons(fd, kids, Nil)) && Parents(t, kids, fd) && fd < |t| && t[fd].block.Some? && e < |t| && t[e].block.Some?
    ensures Selected(t, kids, true) == Selected(s, kids, true)
  {
    var f := Cons(fd, kids, Nil);
    forall x | x in Ids(f) ensures Children(t, x) == Children(s, x) && x < |s| && t[x] == s[x] { RepInStore(s, f, x); }
    RepFrame(s, t, f);
    ParentsFrame(s, t, kids, fd);
    SelectedFrame(s, t, kids);
  }

  lemma {:induction false} SelectedFrame(s: Store, t: Store, f: Forest)
    requires forall x :: x in Ids(f) ==> x < |s| <= |t| && t[x] == s[x]
    ensures Selected(t, f, true) == Selected(s, f, true)
  {
    if f.Cons? {
      assert f.id in Ids(f) && t[f.id] == s[f.id];
      SelectedFrame(s, t, f.rest);
    }
  }

  // ---------- aliases and body in place ----------

  lemma {:induction false} ExpandedIntro(s: Store, s2: Store, t: Store, p: Plan, kids: Forest)
    requires |p.args| == |p.params| && Aliased(s, s2, p.e, p.params, p.args, |p.args|)
    requires p.body == Selected(s, kids, true) && CopiedInto(s2, t, p.body, p.subs, p.fd, p.e)
    requires Rep(s, kids) && NoDup(kids) && Parents(s, kids, p.fd) && p.e !in Ids(kids)
    ensures Expanded(s, t, p)
  {
    hide *;
    SelectedShape(s, kids, true, p.fd);
    ExpandedOld(s, s2, t, p);
    ExpandedTable(s, s2, t, p);
    forall x {:trigger x in Ids(p.body)} | x in Ids(p.body)
      ensures x < |s| && |s| + |p.args| <= Sub(p.subs, x) < |t|
              && t[Sub(p.subs, x)] == CopyOf(s[x], p.subs, NewParent(s[x].parent, p.subs, p.fd, p.e))
    {
      RepInStore(s, p.body, x);
      ExpandedCopy(s, s2, t, p, x);
    }
    ExpandedParts(s, t, p);
  }

  lemma {:induction false} ExpandedTable(s: Store, s2: Store, t: Store, p: Plan)
    requires |p.args| == |p.params| && Aliased(s, s2, p.e, p.params, p.args, |p.args|)
    requires CopiedInto(s2, t, p.body, p.subs, p.fd, p.e)
    ensures |s2| == |s| + |p.args| && Numbered(p.subs, Pre(p.body), |s| + |p.args|) && |p.subs| == |s| + |p.args|
    ensures forall x {:trigger Sub(p.subs, x)} :: x !in Ids(p.body) ==> Sub(p.subs, x) == x
  {
    hide Numbered, Copies;
    forall x {:trigger Sub(p.subs, x)} | x !in Ids(p.body) ensures Sub(p.subs, x) == x { PreIds(p.body, x); }
  }

  lemma {:induction false} ExpandedParts(s: Store, t: Store, p: Plan)
    requires |p.params| == |p.args| && p.e < |s| && |t| == |s| + |p.args| + Size(p.body)
    requires forall y {:trigger t[y]} :: 0 <= y < |s| && y != p.e ==> t[y] == s[y]
    requires t[p.e] == Entity(Some(Range(|s|, |p.args|) + SubIds(p.subs, Roots(p.body))), s[p.e].parent, CallStripped(s[p.e].links), s[p.e].data)
    requires forall i {:trigger p.args[i]} :: 0 <= i < |p.args| ==> t[|s| + i] == AliasEntity(p.e, ArgName(s, p.params[i], i), p.args[i])
    requires Numbered(p.subs, Pre(p.body), |s| + |p.args|) && |p.subs| == |s| + |p.args|
    requires forall x {:trigger Sub(p.subs, x)} :: x !in Ids(p.body) ==> Sub(p.subs, x) == x
    requires forall x {:trigger x in Ids(p.body)} :: x in Ids(p.body) ==>
               x < |s| && |s| + |p.args| <= Sub(p.subs, x) < |t|
               && t[Sub(p.subs, x)] == CopyOf(s[x], p.subs, NewParent(s[x].parent, p.subs, p.fd, p.e))
    ensures Expanded(s, t, p)
  {
    hide Numbered, CopyOf, NewParent, AliasEntity, CallStripped, ArgName, Sub;
  }

  lemma {:induction false} ExpandedOld(s: Store, s2: Store, t: Store, p: Plan)
    requires |p.args| == |p.params| && Aliased(s, s2, p.e, p.params, p.args, |p.args|)
    requires CopiedInto(s2, t, p.body, p.subs, p.fd, p.e)
    ensures p.e < |s| && |t| == |s| + |p.args| + Size(p.body)
    ensures forall y {:trigger t[y]} :: 0 <= y < |s| && y != p.e ==> t[y] == s[y]
    ensures t[p.e] == Entity(Some(Range(|s|, |p.args|) + SubIds(p.subs, Roots(p.body))), s[p.e].parent, CallStripped(s[p.e].links), s[p.e].data)
    ensures forall i {:trigger p.args[i]} :: 0 <= i < |p.args| ==> t[|s| + i] == AliasEntity(p.e, ArgName(s, p.params[i], i), p.args[i])
    ensures forall x {:trigger x in Ids(p.body)} :: x in Ids(p.body) && x < |s| && x != p.e ==> s2[x] == s[x]
  {
    hide AliasEntity, Numbered, Copies, Extends, ArgName;
    assert Children(s2, p.e) == Range(|s|, |p.args|);
  }

  lemma {:induction false} ExpandedCopy(s: Store, s2: Store, t: Store, p: Plan, x: Id)
    requires |s2| == |s| + |p.args| && x in Ids(p.body) && x < |s| && s2[x] == s[x]
    requires CopiedInto(s2, t, p.body, p.subs, p.fd, p.e)
    ensures |s| + |p.args| <= Sub(p.subs, x) < |t|
    ensures t[Sub(p.subs, x)] == CopyOf(s[x], p.subs, NewParent(s[x].parent, p.subs, p.fd, p.e))
  {
    PreIds(p.body, x);
    var i :| 0 <= i < |Pre(p.body)| && Pre(p.body)[i] == x;
  }

  // A row of leaves with consecutive ids.
  function Leaves(lo: Id, n: nat): Forest
    decreases n
  {
    if n == 0 then Nil else Cons(lo, Nil, Leaves(lo + 1, n - 1))
  }

  lemma {:induction false} LeavesFacts(lo: Id, n: nat)
    ensures Roots(Leaves(lo, n)) == Range(lo, n) && NoDup(Leaves(lo, n))
    ensures forall x :: x in Ids(Leaves(lo, n)) <==> lo <= x < lo + n
    decreases n
  {
    if n > 0 {
      LeavesFacts(lo + 1, n - 1);
      assert Range(lo, n) == [lo] + Range(lo + 1, n - 1);
    } else {
      assert Range(lo, n) == [];
    }
  }

  lemma {:induction false} LeavesRep(t: Store, lo: Id, n: nat)
    requires lo + n <= |t| && forall x {:trigger t[x]} :: lo <= x < lo + n ==> t[x].block.None?
    ensures Rep(t, Leaves(lo, n))
    decreases n
  {
    if n > 0 { LeavesRep(t, lo + 1, n - 1); }
  }

  // What hangs below the expanded entity: the aliases, then the copied body.
  function Produced(n: nat, p: Plan): Forest {
    Append(Leaves(n, |p.args|), Rename(p.subs, p.body))
  }

  lemma {:induction false} ExpandedTree(s: Store, t: Store, p: Plan)
    requires Expanded(s, t, p) && Rep(s, p.body) && NoDup(p.body) && p.e !in Ids(p.body)
    ensures var f := Produced(|s|, p);
            && Rep(t, Cons(p.e, f, Nil)) && NoDup(Cons(p.e, f, Nil))
            && (forall y :: y in Ids(f) <==> |s| <= y < |t|)
            && Roots(f) == Range(|s|, |p.args|) + SubIds(p.subs, Roots(p.body))
    ensures p.e < |s| <= |t|
  {
    hide *;
    var n, m := |s|, |p.args|;
    var l, r := Leaves(n, m), Rename(p.subs, p.body);
    ExpandedLeaves(s, t, p);
    ExpandedBody(s, t, p);
    ExpandedIds(s, t, p);
    ExpandedSizes(s, t, p);
    LeavesFacts(n, m);
    RenameRoots(p.subs, p.body);
    ApartAt(l, r, n, m, |t|);
    RepAppend(t, l, r);
    NoDupAppend(l, r);
    ProducedTree(t, n, p);
  }

  lemma {:induction false} ApartAt(l: Forest, r: Forest, n: nat, m: nat, k: nat)
    requires n + m <= k && (forall x :: x in Ids(l) <==> n <= x < n + m) && forall y :: y in Ids(r) <==> n + m <= y < k
    ensures Ids(l) !! Ids(r) && forall y :: y in Ids(l) || y in Ids(r) <==> n <= y < k
  {
    hide Ids;
  }

  lemma {:induction false} ExpandedSizes(s: Store, t: Store, p: Plan)
    requires Expanded(s, t, p)
    ensures p.e < |s| && |s| + |p.args| <= |t|
    ensures Children(t, p.e) == Range(|s|, |p.args|) + SubIds(p.subs, Roots(p.body))
  {
    hide Numbered, CopyOf, AliasEntity, CallStripped, ArgName;
  }

  lemma {:induction false} ProducedTree(t: Store, n: nat, p: Plan)
    requires var f := Append(Leaves(n, |p.args|), Rename(p.subs, p.body));
             && Rep(t, f) && NoDup(f) && p.e < |t| && Children(t, p.e) == Roots(f) && p.e !in Ids(f)
    ensures Produced(n, p) == Append(Leaves(n, |p.args|), Rename(p.subs, p.body))
    ensures Rep(t, Cons(p.e, Produced(n, p), Nil)) && NoDup(Cons(p.e, Produced(n, p), Nil))
  {
    hide Append, Leaves, Rename;
    assert Rep(t, Nil) && NoDup(Nil) && Ids(Nil) == {};
  }

  lemma {:induction false} ExpandedLeaves(s: Store, t: Store, p: Plan)
    requires Expanded(s, t, p)
    ensures Rep(t, Leaves(|s|, |p.args|))
  {
    forall x {:trigger t[x]} | |s| <= x < |s| + |p.args| ensures t[x].block.None? {
      var k := x - |s|;
      assert t[|s| + k] == AliasEntity(p.e, ArgName(s, p.params[k], k), p.args[k]);
    }
    LeavesRep(t, |s|, |p.args|);
  }

  lemma {:induction false} ExpandedBody(s: Store, t: Store, p: Plan)
    requires Expanded(s, t, p) && Rep(s, p.body) && NoDup(p.body)
    ensures Rep(t, Rename(p.subs, p.body)) && NoDup(Rename(p.subs, p.body))
  {
    forall x, y | x in Ids(p.body) && y in Ids(p.body) && Sub(p.subs, x) == Sub(p.subs, y) ensures x == y {
      SubInjective(p.body, p.subs, |s| + |p.args|, x, y);
    }
    RenameNoDup(p.subs, p.body);
    assert SubIds(p.subs, []) == [];
    RenameRep(p.subs, s, t, p.body);
  }

  lemma {:induction false} ExpandedIds(s: Store, t: Store, p: Plan)
    requires Expanded(s, t, p)
    ensures forall y :: y in Ids(Rename(p.subs, p.body)) <==> |s| + |p.args| <= y < |t|
  {
    hide *;
    forall y ensures y in Ids(Rename(p.subs, p.body)) <==> |s| + |p.args| <= y < |t| {
      if y in Ids(Rename(p.subs, p.body)) {
        var x := RenameIds(p.subs, p.body, y);
        ExpandedSub(s, t, p, x);
      }
      if |s| + |p.args| <= y < |t| {
        var x := ExpandedSource(s, t, p, y);
        IdsRenamed(p.subs, p.body, x);
      }
    }
  }

  lemma {:induction false} ExpandedSub(s: Store, t: Store, p: Plan, x: Id)
    requires Expanded(s, t, p) && x in Ids(p.body)
    ensures |s| + |p.args| <= Sub(p.subs, x) < |t|
  {}

  // Which entity the new id `y` is the copy of.
  lemma {:induction false} ExpandedSource(s: Store, t: Store, p: Plan, y: Id) returns (x: Id)
    requires Expanded(s, t, p) && |s| + |p.args| <= y < |t|
    ensures x in Ids(p.body) && Sub(p.subs, x) == y
  {
    hide Sub, CopyOf, AliasEntity, ArgName, NewParent;
    var i := y - |s| - |p.args|;
    x := Pre(p.body)[i];
    PreIds(p.body, x);
    NumberedAt(p.subs, Pre(p.body), |s| + |p.args|, i);
  }

  lemma {:induction false} NumberedAt(m: Renaming, xs: seq<Id>, lo: Id, i: nat)
    requires Numbered(m, xs, lo) && i < |xs|
    ensures Sub(m, xs[i]) == lo + i
  {}

  // ---------- the two rewritings ----------

  function ParamPairs(params: seq<Id>, lo: Id): (r: Pairs)
    ensures |r| == |params| && forall i :: 0 <= i < |params| ==> r[i] == (params[i], lo + i)
  {
    seq(|params|, i requires 0 <= i < |params| => (params[i], lo + i))
  }

  lemma {:induction false} ParamTable(s: Store, xs: seq<Id>, params: seq<Id>)
    requires forall i :: 0 <= i < |params| ==> ParamIn(s, xs, i) == Some(params[i])
    ensures Keyed(ParamPairs(params, |s|), |s|)
    ensures forall i :: 0 <= i < |params| ==> params[i] in xs
    ensures var par := Table(ParamPairs(params, |s|), |s|);
            && (forall r :: r !in params ==> Sub(par, r) == r)
            && (forall i {:trigger params[i]} :: 0 <= i < |params| ==> Sub(par, params[i]) == |s| + i)
  {
    var pairs := ParamPairs(params, |s|);
    forall i | 0 <= i < |params| ensures params[i] < |s| && s[params[i]].data.param == Some(i) && params[i] in xs {
      ParamInMember(s, xs, i);
    }
    forall i | 0 <= i < |params| ensures Lookup(pairs, params[i]) == |s| + i {
      LookupKey(pairs, i);
      assert pairs[i].0 == params[i];
    }
    forall r | r !in params ensures Lookup(pairs, r) == r {
      forall i | 0 <= i < |pairs| ensures pairs[i].0 != r { assert pairs[i].0 == params[i]; }
      LookupOther(pairs, r);
    }
  }

  function ReturnPairs(b: Builtins): Pairs {
    [(b.indicateReturn, b.indicateYield), (b.returnRegister, b.yieldRegister)]
  }

  lemma {:induction false} ReturnTable(b: Builtins, n: nat)
    requires Keyed(ReturnPairs(b), n)
    ensures forall r :: Sub(Table(ReturnPairs(b), n), r) ==
              if r == b.indicateReturn then b.indicateYield else if r == b.returnRegister then b.yieldRegister else r
  {
    var pairs := ReturnPairs(b);
    assert pairs[0].0 < n && pairs[1].0 < n;
    forall r ensures Lookup(pairs, r) ==
              if r == b.indicateReturn then b.indicateYield else if r == b.returnRegister then b.yieldRegister else r
    {
      var rest: Pairs := pairs[1..];
      assert rest[0] == pairs[1];
      var none: Pairs := rest[1..];
      assert |none| == 0 && Lookup(none, r) == r;
      assert Lookup(rest, r) == if r == b.returnRegister then b.yieldRegister else r;
    }
  }

  lemma {:induction false} FreshUntouched(m: Renaming, xs: seq<Id>)
    requires forall x :: x in xs ==> x >= |m|
    ensures SubIds(m, xs) == xs
  {
    forall i | 0 <= i < |xs| ensures Sub(m, xs[i]) == xs[i] { assert xs[i] in xs; }
  }

  // One rewriting seen as a table: the given entities and no others.
  ghost predicate Tabled(t: Store, u: Store, ids: set<Id>, m: Renaming) {
    |u| == |t| && forall y {:trigger u[y]} :: 0 <= y < |t| ==> u[y] == if y in ids then SubstRefs(m, t[y]) else t[y]
  }

  lemma {:induction false} RewrittenTabled(t: Store, u: Store, ids: set<Id>, pairs: Pairs, n: nat)
    requires Rewritten(t, u, ids, pairs) && Keyed(pairs, n)
    ensures Tabled(t, u, ids, Table(pairs, n))
  {
    forall y | 0 <= y < |t| ensures Sequential(pairs, t[y]) == SubstRefs(Table(pairs, n), t[y]) {
      SequentialIsSimultaneous(pairs, t[y], n);
    }
  }

  lemma {:induction false} AliasRewritten(par: Renaming, ret: Renaming, e: Id, name: string, ref: Id)
    requires Sub(par, e) == e && Sub(ret, e) == e
    ensures SubstRefs(ret, SubstRefs(par, AliasEntity(e, name, ref))) == AliasEntity(e, name, Sub(ret, Sub(par, ref)))
  {}

  lemma {:induction false} CopyRewritten(m: Renaming, block: Option<seq<Id>>, parent: Id, k: Links, d: Data)
    requires Sub(m, parent) == parent && (block.Some? ==> forall x :: x in block.value ==> x >= |m|)
    ensures SubstRefs(m, Entity(block, Some(parent), k, d)) == Entity(block, Some(parent), SubstLinks(m, k), d)
  {
    if block.Some? { FreshUntouched(m, block.value); }
  }

  // The references a copy holds into its own tree are fresh, so the two rewritings leave them alone.
  lemma {:induction false} CopyFresh(s: Store, t: Store, p: Plan, x: Id)
    requires Expanded(s, t, p) && Rep(s, p.body) && Parents(s, p.body, p.fd) && p.fd !in Ids(p.body) && x in Ids(p.body)
    ensures x < |s|
    ensures NewParent(s[x].parent, p.subs, p.fd, p.e) == p.e || NewParent(s[x].parent, p.subs, p.fd, p.e) >= |s|
    ensures forall c :: c in SubIds(p.subs, Children(s, x)) ==> c >= |s|
  {
    ParentInside(s, p.body, p.fd, x);
    forall c | c in SubIds(p.subs, Children(s, x)) ensures c >= |s| {
      var i :| 0 <= i < |Children(s, x)| && SubIds(p.subs, Children(s, x))[i] == c;
      ChildrenInIds(s, p.body, x, Children(s, x)[i]);
    }
  }

  // The entities the second rewriting visits: the call itself and its new children.
  ghost predicate TopLevel(s: Store, p: Plan, top: set<Id>) {
    && p.e in top
    && (forall y {:trigger y in top} :: y < |s| && y != p.e ==> y !in top)
    && (forall y {:trigger y in top} :: |s| <= y < |s| + |p.args| ==> y in top)
    && (forall x {:trigger x in Ids(p.body)} :: x in Ids(p.body) ==> (Sub(p.subs, x) in top <==> x in Roots(p.body)))
  }

  lemma {:induction false} InlinedIntro(s: Store, t: Store, t1: Store, t2: Store, p: Plan, all: set<Id>, top: set<Id>)
    requires Expanded(s, t, p) && Rep(s, p.body) && Parents(s, p.body, p.fd) && p.fd !in Ids(p.body)
    requires |p.par| == |p.ret| == |s| && Sub(p.par, p.e) == p.e && Sub(p.ret, p.e) == p.e
    requires forall y {:trigger y in all} :: y in all <==> y == p.e || |s| <= y < |t|
    requires Tabled(t, t1, all, p.par) && Tabled(t1, t2, top, p.ret) && TopLevel(s, p, top)
    ensures p.e < |t2| && Inlined(s, t2[p.e := t2[p.e].(data := t2[p.e].data.(flags := t2[p.e].data.flags * {Export, Flatten}))], p)
  {
    var n, m := |s|, |p.args|;
    var u := t2[p.e := t2[p.e].(data := t2[p.e].data.(flags := t2[p.e].data.flags * {Export, Flatten}))];
    assert forall y {:trigger u[y]} :: 0 <= y < n && y != p.e ==> u[y] == s[y] by { InlinedOld(s, t, t1, t2, p, all, top); }
    assert u[p.e] == Entity(Some(Range(n, m) + SubIds(p.subs, Roots(p.body))), SubOpt(p.ret, SubOpt(p.par, s[p.e].parent)),
                        SubstLinks(p.ret, SubstLinks(p.par, CallStripped(s[p.e].links))),
                        s[p.e].data.(flags := s[p.e].data.flags * {Export, Flatten})) by { InlinedRoot(s, t, t1, t2, p, all, top); }
    forall i {:trigger p.args[i]} | 0 <= i < m
      ensures u[n + i] == AliasEntity(p.e, ArgName(s, p.params[i], i), Sub(p.ret, Sub(p.par, p.args[i])))
    {
      InlinedAlias(s, t, t1, t2, p, all, top, i);
    }
    forall x {:trigger x in Ids(p.body)} | x in Ids(p.body)
      ensures x < n && n + m <= Sub(p.subs, x) < |t|
      ensures u[Sub(p.subs, x)] == Entity(SubOptIds(p.subs, s[x].block), Some(NewParent(s[x].parent, p.subs, p.fd, p.e)),
                                          CopyLinksOf(s, p, x), CopyData(s[x]))
    {
      InlinedCopy(s, t, t1, t2, p, all, top, x);
    }
    hide Tabled, TopLevel, SubstLinks, CopyLinksOf, CopyData, NewParent;
  }

  lemma {:induction false} InlinedOld(s: Store, t: Store, t1: Store, t2: Store, p: Plan, all: set<Id>, top: set<Id>)
    requires Expanded(s, t, p) && TopLevel(s, p, top)
    requires forall y {:trigger y in all} :: y in all <==> y == p.e || |s| <= y < |t|
    requires Tabled(t, t1, all, p.par) && Tabled(t1, t2, top, p.ret)
    ensures |t2| == |t| && forall y {:trigger t2[y]} :: 0 <= y < |s| && y != p.e ==> t2[y] == s[y]
  {
    hide SubstRefs;
  }

  lemma {:induction false} InlinedRoot(s: Store, t: Store, t1: Store, t2: Store, p: Plan, all: set<Id>, top: set<Id>)
    requires Expanded(s, t, p) && TopLevel(s, p, top) && Rep(s, p.body) && |p.par| == |p.ret| == |s|
    requires forall y {:trigger y in all} :: y in all <==> y == p.e || |s| <= y < |t|
    requires Tabled(t, t1, all, p.par) && Tabled(t1, t2, top, p.ret)
    ensures |t2| == |t| && p.e < |t2|
    ensures t2[p.e] == Entity(Some(Range(|s|, |p.args|) + SubIds(p.subs, Roots(p.body))), SubOpt(p.ret, SubOpt(p.par, s[p.e].parent)),
                        SubstLinks(p.ret, SubstLinks(p.par, CallStripped(s[p.e].links))), s[p.e].data)
  {
    var xs := Range(|s|, |p.args|) + SubIds(p.subs, Roots(p.body));
    forall c | c in xs ensures c >= |s| {
      if c in SubIds(p.subs, Roots(p.body)) {
        var i :| 0 <= i < |Roots(p.body)| && SubIds(p.subs, Roots(p.body))[i] == c;
        RootsInIds(p.body, i);
      }
    }
    FreshUntouched(p.par, xs);
    FreshUntouched(p.ret, xs);
    hide SubstLinks;
    assert p.e in all;
  }

  lemma {:induction false} InlinedAlias(s: Store, t: Store, t1: Store, t2: Store, p: Plan, all: set<Id>, top: set<Id>, i: nat)
    requires Expanded(s, t, p) && TopLevel(s, p, top) && i < |p.args| && Sub(p.par, p.e) == p.e && Sub(p.ret, p.e) == p.e
    requires forall y {:trigger y in all} :: y in all <==> y == p.e || |s| <= y < |t|
    requires Tabled(t, t1, all, p.par) && Tabled(t1, t2, top, p.ret)
    ensures |t2| == |t|
    ensures t2[|s| + i] == AliasEntity(p.e, ArgName(s, p.params[i], i), Sub(p.ret, Sub(p.par, p.args[i])))
  {
    hide SubstRefs, AliasEntity;
    AliasRewritten(p.par, p.ret, p.e, ArgName(s, p.params[i], i), p.args[i]);
    assert p.args[i] == p.args[i];
    assert |s| + i in all;
  }

  lemma {:induction false} InlinedCopy(s: Store, t: Store, t1: Store, t2: Store, p: Plan, all: set<Id>, top: set<Id>, x: Id)
    requires Expanded(s, t, p) && TopLevel(s, p, top) && x in Ids(p.body)
    requires Rep(s, p.body) && Parents(s, p.body, p.fd) && p.fd !in Ids(p.body) && |p.par| == |p.ret| == |s|
    requires Sub(p.par, p.e) == p.e && Sub(p.ret, p.e) == p.e
    requires forall y {:trigger y in all} :: y in all <==> y == p.e || |s| <= y < |t|
    requires Tabled(t, t1, all, p.par) && Tabled(t1, t2, top, p.ret)
    ensures |t2| == |t| && x < |s| && |s| + |p.args| <= Sub(p.subs, x) < |t|
    ensures t2[Sub(p.subs, x)] == Entity(SubOptIds(p.subs, s[x].block), Some(NewParent(s[x].parent, p.subs, p.fd, p.e)),
                                          CopyLinksOf(s, p, x), CopyData(s[x]))
  {
    CopyFresh(s, t, p, x);
    var y := Sub(p.subs, x);
    var block, parent := SubOptIds(p.subs, s[x].block), NewParent(s[x].parent, p.subs, p.fd, p.e);
    var k, d := CopyLinks(s[x], p.subs), CopyData(s[x]);
    assert t[y] == Entity(block, Some(parent), k, d);
    CopyRewritten(p.par, block, parent, k, d);
    CopyRewritten(p.ret, block, parent, SubstLinks(p.par, k), d);
    hide SubstRefs, SubstLinks, CopyLinks, CopyData, NewParent, SubOptIds;
    assert y in all;
    assert t1[y] == Entity(block, Some(parent), SubstLinks(p.par, k), d);
  }

  // ---------- the pass on one entity ----------

  /**
   Expands `e` in place if it is marked; leaves everything else alone.  A call is expanded if and only if its own
   flags or those of the type of the function it resolves to ask for it.
   */
  method InlineFunctions(mod: Module, e: Id, b: Builtins, ghost kids: Forest) returns (ghost p: Plan)
    requires e < |mod.ents|
    requires mod.ents[e].links.call.Some? ==> Callable(mod.ents, e)
    requires Marked(mod.ents, e) ==> Inlinable(mod.ents, e, Callee(mod.ents, e), kids, b)
    modifies mod
    ensures !Marked(old(mod.ents), e) ==> mod.ents == old(mod.ents)
    ensures Marked(old(mod.ents), e) ==>
              p.e == e && PlanFor(old(mod.ents), p, kids, b) && Inlined(old(mod.ents), mod.ents, p)
    ensures old(mod.ents)[e].links.call.None? ==> mod.ents == old(mod.ents)
    ensures old(mod.ents)[e].links.call.Some? ==>
              var s := old(mod.ents);
              var ft := s[Resolve(s, s[e].links.call.value).value].links.typeOf.value;
              if Flag.Inline in s[e].data.flags || (ft < |s| && Flag.Inline in s[ft].data.flags)
              then e < |mod.ents| && mod.ents[e].links.call.None? && mod.ents[e].links.inputs.None? && mod.ents[e].block.Some?
              else mod.ents == s
  {
    ghost var s := mod.ents;
    p := Plan(e, INVALID, [], [], Nil, [], [], []);
    if mod.ents[e].links.call.None? { return; }
    var fd := mod.ResolveAlias(mod.ents[e].links.call.value);
    var ft := mod.ents[fd].links.typeOf.value;
    if !(FlagSet(mod.ents, ft, Flag.Inline) || FlagSet(mod.ents, e, Flag.Inline)) { return; }
    p := Expand(mod, e, fd, b, kids);
  }

  method Expand(mod: Module, e: Id, fd: Id, b: Builtins, ghost kids: Forest) returns (ghost p: Plan)
    requires e < |mod.ents| && fd == Callee(mod.ents, e) && Inlinable(mod.ents, e, fd, kids, b)
    modifies mod
    ensures p.e == e && PlanFor(old(mod.ents), p, kids, b) && Inlined(old(mod.ents), mod.ents, p)
  {
    hide *;
    ghost var s := mod.ents;
    InlinableFacts(s, e, fd, kids, b);
    var x := mod.ents[e];
    var inputs := x.links.inputs.value;
    mod.ents := mod.ents[e := x.(links := x.links.(call := None, inputs := None))];
    ParamsUnmoved(s, mod.ents, e, fd, inputs);
    var params := AssociatedParameters(mod.ents, inputs, mod.ents[fd].block.value);
    AssociatedAll(mod.ents, mod.ents[fd].block.value, |inputs|);
    ParamsMoved(s, mod.ents, e, fd, inputs, params);
    mod.ents := mod.ents[e := mod.ents[e].(block := Some([]))];
    StrippedCall(x.links);
    AliasedStart(s, mod.ents, e, params, inputs);
    var pairs: Pairs := [];
    ParamPairsStep(params, 0, |s|);
    for i := 0 to |inputs|
      invariant Aliased(s, mod.ents, e, params, inputs, i)
      invariant pairs == ParamPairs(params[..i], |s|)
    {
      AliasedStep(s, mod.ents, e, params, inputs, i);
      AliasedName(s, mod.ents, e, params, inputs, i);
      ParamPairsStep(params, i, |s|);
      var alias := PushAlias(mod, e, ArgName(mod.ents, params[i], i), inputs[i]);
      pairs := pairs + [(params[i], alias)];
    }
    assert params[..|inputs|] == params;

    AliasedBody(s, mod.ents, e, params, inputs, fd, kids);
    ghost var s2 := mod.ents;
    ghost var subs := CopyExisting(mod, e, fd, true, kids);
    ghost var t := mod.ents;
    p := Plan(e, fd, inputs, params, Selected(s, kids, true), subs, Table(pairs, |s|), Table(ReturnPairs(b), |s|));
    PlanMade(s, e, fd, b, kids, p);
    ExpandedIntro(s, s2, t, p, kids);
    ExpandedTree(s, t, p);

    ghost var below := Produced(|s|, p);
    KeysOld(s, pairs, below, |s|);
    SubstituteEntities(mod, e, pairs, None, below);
    ghost var t1 := mod.ents;
    RewrittenTree(s, t, t1, p, pairs, below);
    KeysOld(s, ReturnPairs(b), below, |s|);
    SubstituteEntities(mod, e, ReturnPairs(b), Some(1), below);
    ghost var t2 := mod.ents;
    RewrittenTwice(s, t, t1, t2, p, pairs, ReturnPairs(b), below);

    mod.ents := mod.ents[e := mod.ents[e].(data := mod.ents[e].data.(flags := mod.ents[e].data.flags * {Export, Flatten}))];
  }

  lemma {:induction false} InlinableFacts(s: Store, e: Id, fd: Id, kids: Forest, b: Builtins)
    requires Inlinable(s, e, fd, kids, b)
    ensures e < |s| && fd < |s| && s[e].block.None? && s[e].links.inputs.Some? && s[fd].block.Some?
    ensures Rep(s, Cons(fd, kids, Nil)) && NoDup(Cons(fd, kids, Nil)) && Parents(s, kids, fd)
    ensures e !in Ids(Cons(fd, kids, Nil)) && e != fd && e !in Ids(kids) && fd !in Ids(kids)
    ensures Rep(s, kids) && NoDup(kids)
    ensures Children(s, fd) == s[fd].block.value == Roots(kids)
    ensures Args(s, e) == s[e].links.inputs.value
    ensures forall i :: 0 <= i < |Args(s, e)| ==> ParamIn(s, Children(s, fd), i).Some?
    ensures Keyed(ReturnPairs(b), |s|) && e != b.indicateReturn && e != b.returnRegister
  {}

  lemma {:induction false} ParamInFrame(s: Store, t: Store, xs: seq<Id>, i: nat)
    requires |t| == |s| && forall y {:trigger t[y]} :: 0 <= y < |s| ==> t[y].data == s[y].data
    ensures ParamIn(t, xs, i) == ParamIn(s, xs, i)
    decreases |xs|
  {
    if xs != [] { ParamInFrame(s, t, xs[1..], i); }
  }

  lemma {:induction false} ParamsUnmoved(s: Store, t: Store, e: Id, fd: Id, inputs: seq<Id>)
    requires e < |s| && fd < |s| && fd != e && |t| == |s| && t == s[e := s[e].(links := t[e].links)] && s[fd].block.Some?
    requires Children(s, fd) == s[fd].block.value
    requires forall i :: 0 <= i < |inputs| ==> ParamIn(s, Children(s, fd), i).Some?
    ensures t[fd] == s[fd]
    ensures forall i :: 0 <= i < |inputs| ==> ParamIn(t, t[fd].block.value, i).Some?
  {
    forall i | 0 <= i < |inputs| ensures ParamIn(t, t[fd].block.value, i).Some? {
      ParamInFrame(s, t, t[fd].block.value, i);
    }
  }

  lemma {:induction false} ParamsMoved(s: Store, t: Store, e: Id, fd: Id, inputs: seq<Id>, params: seq<Id>)
    requires e < |s| && fd < |s| && fd != e && |t| == |s| && t == s[e := s[e].(links := t[e].links)] && s[fd].block.Some?
    requires Children(s, fd) == s[fd].block.value && |params| == |inputs|
    requires forall i :: 0 <= i < |inputs| ==> ParamIn(t, t[fd].block.value, i) == Some(params[i])
    ensures forall i :: 0 <= i < |params| ==> ParamIn(s, Children(s, fd), i) == Some(params[i]) && params[i] < |s|
  {
    forall i | 0 <= i < |params| ensures ParamIn(s, Children(s, fd), i) == Some(params[i]) && params[i] < |s| {
      ParamInFrame(s, t, t[fd].block.value, i);
      ParamInMember(s, Children(s, fd), i);
    }
  }

  lemma {:induction false} StrippedCall(k: Links)
    ensures CallStripped(k) == k.(call := None, inputs := None)
  {}

  lemma {:induction false} ParamPairsStep(params: seq<Id>, i: nat, lo: Id)
    requires i <= |params|
    ensures i < |params| ==> ParamPairs(params[..i], lo) + [(params[i], lo + i)] == ParamPairs(params[..i + 1], lo)
    ensures ParamPairs(params[..0], lo) == []
  {}

  lemma {:induction false} AliasedName(s: Store, t: Store, e: Id, params: seq<Id>, args: seq<Id>, i: nat)
    requires Aliased(s, t, e, params, args, i) && i < |args|
    requires params[i] < |s|
    ensures ArgName(t, params[i], i) == ArgName(s, params[i], i) && |t| == |s| + i
  {}

  lemma {:induction false} PlanMade(s: Store, e: Id, fd: Id, b: Builtins, kids: Forest, p: Plan)
    requires e < |s| && fd == Callee(s, e) && Inlinable(s, e, fd, kids, b)
    requires p.e == e && p.fd == fd && p.args == Args(s, e) && |p.params| == |p.args|
    requires forall i :: 0 <= i < |p.params| ==> ParamIn(s, Children(s, fd), i) == Some(p.params[i])
    requires p.body == Selected(s, kids, true)
    requires p.par == Table(ParamPairs(p.params, |s|), |s|) && p.ret == Table(ReturnPairs(b), |s|)
    ensures PlanFor(s, p, kids, b)
    ensures Keyed(ParamPairs(p.params, |s|), |s|) && Sub(p.par, e) == e && Sub(p.ret, e) == e && |p.par| == |p.ret| == |s|
    ensures Rep(s, p.body) && NoDup(p.body) && Parents(s, p.body, fd) && e !in Ids(p.body) && fd !in Ids(p.body)
  {
    SelectedShape(s, kids, true, fd);
    ParamTable(s, Children(s, fd), p.params);
    ReturnTable(b, |s|);
    if e in p.params {
      ChildrenInIds(s, Cons(fd, kids, Nil), fd, e);
    }
  }

  lemma {:induction false} KeysOld(s: Store, pairs: Pairs, f: Forest, n: nat)
    requires Keyed(pairs, n) && forall y :: y in Ids(f) ==> n <= y
    ensures forall i :: 0 <= i < |pairs| ==> pairs[i].0 !in Ids(f)
  {}

  lemma {:induction false} RewrittenTree(s: Store, t: Store, t1: Store, p: Plan, pairs: Pairs, f: Forest)
    requires p.e < |s| <= |t| && Rewritten(t, t1, Reached(Cons(p.e, f, Nil), None), pairs) && Keyed(pairs, |s|)
    requires Rep(t, Cons(p.e, f, Nil)) && forall y :: y in Ids(f) <==> |s| <= y < |t|
    ensures Rep(t1, Cons(p.e, f, Nil))
  {
    var g := Cons(p.e, f, Nil);
    forall x | x in Ids(g) ensures Children(t1, x) == Children(t, x) {
      RepInStore(t, g, x);
      forall c | c in Children(t, x) ensures c >= |s| {
        if x == p.e {
          var i :| 0 <= i < |Roots(f)| && Roots(f)[i] == c;
          RootsInIds(f, i);
        } else {
          ChildrenInIds(t, f, x, c);
        }
      }
      FreshBlock(pairs, |s|, t, x);
    }
    RepFrame(t, t1, g);
  }

  lemma {:induction false} FreshBlock(pairs: Pairs, n: nat, t: Store, x: Id)
    requires x < |t| && Keyed(pairs, n) && forall c :: c in Children(t, x) ==> c >= n
    ensures Sequential(pairs, t[x]).block == t[x].block
  {
    if t[x].block.Some? {
      assert t[x].block.value == Children(t, x);
      forall c, i | c in t[x].block.value && 0 <= i < |pairs| ensures pairs[i].0 != c {}
    }
    SequentialBlock(pairs, t[x]);
  }

  lemma {:induction false} RewrittenTwice(s: Store, t: Store, t1: Store, t2: Store, p: Plan, pairs: Pairs, rpairs: Pairs, f: Forest)
    requires Expanded(s, t, p) && Rep(s, p.body) && Parents(s, p.body, p.fd) && p.fd !in Ids(p.body) && p.e !in Ids(p.body)
    requires |p.par| == |p.ret| == |s| && Sub(p.par, p.e) == p.e && Sub(p.ret, p.e) == p.e
    requires p.e < |s| && Keyed(pairs, |s|) && Keyed(rpairs, |s|) && p.par == Table(pairs, |s|) && p.ret == Table(rpairs, |s|)
    requires f == Produced(|s|, p) && NoDup(Cons(p.e, f, Nil)) && forall y :: y in Ids(f) <==> |s| <= y < |t|
    requires Roots(f) == Range(|s|, |p.args|) + SubIds(p.subs, Roots(p.body))
    requires Rewritten(t, t1, Reached(Cons(p.e, f, Nil), None), pairs)
    requires Rewritten(t1, t2, Reached(Cons(p.e, f, Nil), Some(1)), rpairs)
    ensures p.e < |t2| && Inlined(s, t2[p.e := t2[p.e].(data := t2[p.e].data.(flags := t2[p.e].data.flags * {Export, Flatten}))], p)
  {
    hide *;
    var all, top := Reached(Cons(p.e, f, Nil), None), Reached(Cons(p.e, f, Nil), Some(1));
    RewrittenTabled(t, t1, all, pairs, |s|);
    RewrittenTabled(t1, t2, top, rpairs, |s|);
    AllReached(s, t, p, f);
    TopReached(s, t, p, f);
    InlinedIntro(s, t, t1, t2, p, all, top);
  }

  lemma {:induction false} AllReached(s: Store, t: Store, p: Plan, f: Forest)
    requires p.e < |s| && forall y :: y in Ids(f) <==> |s| <= y < |t|
    ensures forall y {:trigger y in Reached(Cons(p.e, f, Nil), None)} :: y in Reached(Cons(p.e, f, Nil), None) <==> y == p.e || |s| <= y < |t|
  {
    ReachedAll(Cons(p.e, f, Nil));
  }

  lemma {:induction false} TopReached(s: Store, t: Store, p: Plan, f: Forest)
    requires Expanded(s, t, p) && (forall y :: y in Ids(f) <==> |s| <= y < |t|)
    requires Roots(f) == Range(|s|, |p.args|) + SubIds(p.subs, Roots(p.body))
    ensures TopLevel(s, p, Reached(Cons(p.e, f, Nil), Some(1)))
  {
    var top := Reached(Cons(p.e, f, Nil), Some(1));
    ReachedTree(p.e, f, Some(1));
    forall y ensures y in top <==> y == p.e || y in Roots(f) { ReachedRoots(f, y); }
    forall y | y < |s| && y != p.e ensures y !in top {
      if y in Roots(f) {
        var i :| 0 <= i < |Roots(f)| && Roots(f)[i] == y;
        RootsInIds(f, i);
      }
    }
    forall y | |s| <= y < |s| + |p.args| ensures y in top {
      assert Roots(f)[y - |s|] == y;
    }
    forall x {:trigger x in Ids(p.body)} | x in Ids(p.body) ensures Sub(p.subs, x) in top <==> x in Roots(p.body) {
      TopCopy(s, t, p, f, x);
    }
  }

  lemma {:induction false} TopCopy(s: Store, t: Store, p: Plan, f: Forest, x: Id)
    requires Expanded(s, t, p) && x in Ids(p.body)
    requires Roots(f) == Range(|s|, |p.args|) + SubIds(p.subs, Roots(p.body))
    ensures Sub(p.subs, x) != p.e && (Sub(p.subs, x) in Roots(f) <==> x in Roots(p.body))
  {
    var m, ys := |p.args|, SubIds(p.subs, Roots(p.body));
    assert Sub(p.subs, x) != p.e && Numbered(p.subs, Pre(p.body), |s| + m) && Sub(p.subs, x) >= |s| + m;
    hide *;
    if x in Roots(p.body) { SubMember(p.subs, Roots(p.body), x); }
    if Sub(p.subs, x) in Roots(f) {
      assert Sub(p.subs, x) !in Range(|s|, m) by { RangeMember(|s|, m, Sub(p.subs, x)); }
      var i := MemberSub(p.subs, Roots(p.body), Sub(p.subs, x));
      RootsInIds(p.body, i);
      SubInjective(p.body, p.subs, |s| + m, x, Roots(p.body)[i]);
    }
  }

  lemma {:induction false} SubMember(m: Renaming, xs: seq<Id>, x: Id)
    requires x in xs
    ensures Sub(m, x) in SubIds(m, xs)
  {
    var i :| 0 <= i < |xs| && xs[i] == x;
    assert SubIds(m, xs)[i] == Sub(m, x);
  }

  lemma {:induction false} MemberSub(m: Renaming, xs: seq<Id>, y: Id) returns (i: nat)
    requires y in SubIds(m, xs)
    ensures i < |xs| && Sub(m, xs[i]) == y
  {
    i :| 0 <= i < |xs| && SubIds(m, xs)[i] == y;
  }

  lemma {:induction false} RangeMember(lo: Id, n: nat, y: Id)
    ensures y in Range(lo, n) ==> lo <= y < lo + n
  {}
}
