/**
 The structural check: interface.verify.cpp.  Local rules and parent/block agreement are checked entity by
 entity; together they make what hangs below the root a tree.
 */
module Verify {
  import opened Wrappers
  import opened Store
  import opened Shapes
  import opened SortWalk
  import opened Copy
  import opened Inline
  import opened FunctionScope

  // `Invalid`: the check returns false.  `Thrown`: it raises an error and goes no further.
  datatype Verdict = Valid | Invalid | Thrown

  // The type modifiers, the builtin `type`, and the last id that may carry a builtin's name.
  datatype Context = Context(modifiers: set<Id>, typeName: Id, builtinEnd: Id)

  // ---------- names ----------

  predicate AllDigits(s: string) {
    forall i :: 0 <= i < |s| ==> '0' <= s[i] <= '9'
  }

  method IdentifierStructure(ident: string, allowBuiltins: bool) returns (ok: bool)
    ensures ok <==> Identifier(ident, allowBuiltins)
  {
    ok := true;
    if ident != "" && ident[0] == '%' {
      if |ident| == 1 { ok := false; }
      for i := 1 to |ident|
        invariant |ident| > 1 ==> (ok <==> forall j :: 1 <= j < i ==> '0' <= ident[j] <= '9')
        invariant |ident| == 1 ==> !ok
      {
        if !('0' <= ident[i] <= '9') {
          ok := false;
          break;
        }
      }
      assert |ident| > 1 ==> (ok <==> AllDigits(ident[1..])) by {
        if |ident| > 1 && ok { assert forall j :: 0 <= j < |ident[1..]| ==> ident[1..][j] == ident[j + 1]; }
        if |ident| > 1 && !ok {
          var j :| 1 <= j < |ident| && !('0' <= ident[j] <= '9');
          assert ident[1..][j - 1] == ident[j];
        }
      }
    }
    if !allowBuiltins && ident in ["type", "alias", "namespace"] { ok := false; }
  }

  // A percent sign is followed by a number; builtin names may be reserved.
  predicate Identifier(ident: string, allowBuiltins: bool) {
    && (ident != "" && ident[0] == '%' ==> |ident| > 1 && AllDigits(ident[1..]))
    && (!allowBuiltins ==> ident !in ["type", "alias", "namespace"])
  }

  /** A percent sign needs a number behind it, and three names are reserved where builtins are not allowed. */
  lemma {:induction false} IdentifierCases(name: string)
    ensures Identifier("%1", false) && Identifier("%20", false) && !Identifier("%", true) && !Identifier("%1a", true)
    ensures Identifier("type", true) && !Identifier("type", false) && !Identifier("alias", false) && !Identifier("namespace", false)
    ensures name != "" && name[0] != '%' ==> Identifier(name, true)
  {
    assert "%1"[1..] == "1" && "%20"[1..] == "20" && "%1a"[1..] == "1a" && "1a"[1] == 'a';
    assert "type"[0] == 't' && "alias"[0] == 'a' && "namespace"[0] == 'n';
  }

  // ---------- one entity ----------

  function Count(b: bool): nat {
    if b then 1 else 0
  }

  function ValueCount(x: Entity): nat {
    Count(Valueless in x.data.flags) + Count(x.data.number.Some?) + Count(x.data.text.Some?) + Count(x.links.call.Some?)
    + Count(x.links.returnType.Some?) + Count(x.block.Some?)
  }

  function TypedVerdict(s: Store, c: Context, x: Entity): Verdict
    requires x.links.typeOf.Some?
  {
    var k, flags := x.links, x.data.flags;
    if k.typeOf.value > |s| || k.pointer.Some? || x.data.typeDef.Some? || k.alias.Some? then Thrown
    else if ValueCount(x) == 0 || ValueCount(x) > 2 then Thrown
    else if ValueCount(x) == 2 && !(k.returnType.Some? && x.block.Some?) then Thrown
    else if k.call.None? && k.returnType.None? && (Flatten in flags || Flag.Inline in flags || Pure in flags) then Thrown
    else if Constant in flags then Thrown
    else if k.call.Some? then (if k.inputs.Some? then Valid else Thrown)
    else if k.returnType.Some? then FunctionVerdict(s, c, x)
    else Valid
  }

  function FunctionVerdict(s: Store, c: Context, x: Entity): Verdict
    requires x.links.typeOf.Some?
  {
    var ft := Unmodified(s, c.modifiers, x.links.typeOf.value, |s|);
    if ft.None? || ft.value >= |s| || s[ft.value].links.inputs.None? then Thrown
    else
      var inputs, names := s[ft.value].links.inputs.value, x.data.paramNames;
      if names.Some? && |names.value| != |inputs| then Thrown
      else if x.block.None? then Valid
      else
        var params := Associated(s, x.block.value, |inputs|);
        if |params| != |inputs| then Thrown
        else if names.Some? && exists i :: 0 <= i < |params| && i < |names.value| && NameDiffers(s, params[i], names.value[i]) then Thrown
        else Valid
  }

  predicate NameDiffers(s: Store, e: Id, name: string) {
    e < |s| && s[e].data.name.Some? && s[e].data.name.value != name
  }

  // ---------- what the rule for definitions comes to ----------

  // Which parameters the children are, in order.
  function Indices(s: Store, xs: seq<Id>): (r: seq<Option<nat>>)
    ensures |r| == |xs| && forall j :: 0 <= j < |xs| ==> r[j] == if xs[j] < |s| then s[xs[j]].data.param else None
  {
    seq(|xs|, j requires 0 <= j < |xs| => if xs[j] < |s| then s[xs[j]].data.param else None)
  }

  lemma {:induction false} LaterParam(ps: seq<Option<nat>>, p: Option<nat>)
    requires p in ps && ps[0] != p
    ensures p in ps[1..]
  {
    assert ps == [ps[0]] + ps[1..];
  }

  lemma {:induction false} LaterPlace(ps: seq<Option<nat>>, k: nat, p: Option<nat>)
    requires k + 1 < |ps| && ps[0] != p && p !in ps[1..][..k] && ps[1..][k] == p
    ensures ps[k + 1] == p && p !in ps[..k + 1]
  {
    assert ps[..k + 1] == [ps[0]] + ps[1..][..k];
  }

  // The first child that is parameter `i`, by its place.
  lemma {:induction false} FirstParam(s: Store, xs: seq<Id>, i: nat) returns (j: nat)
    requires Some(i) in Indices(s, xs)
    ensures j < |xs| && Indices(s, xs)[j] == Some(i) && Some(i) !in Indices(s, xs)[..j] && ParamIn(s, xs, i) == Some(xs[j])
    decreases |xs|
  {
    var ps := Indices(s, xs);
    if ps[0] == Some(i) {
      j := 0;
    } else {
      assert ps[1..] == Indices(s, xs[1..]);
      LaterParam(ps, Some(i));
      var k := FirstParam(s, xs[1..], i);
      j := k + 1;
      LaterPlace(ps, k, Some(i));
    }
  }

  lemma {:induction false} ParamThere(s: Store, xs: seq<Id>, i: nat)
    ensures ParamIn(s, xs, i).Some? <==> Some(i) in Indices(s, xs)
    decreases |xs|
  {
    var ps := Indices(s, xs);
    if xs != [] {
      assert ps[1..] == Indices(s, xs[1..]);
      assert ps == [ps[0]] + ps[1..];
      ParamThere(s, xs[1..], i);
    }
  }

  // The numbers agree exactly when every index has a child.
  lemma {:induction false} AssociatedCount(s: Store, xs: seq<Id>, n: nat)
    ensures |Associated(s, xs, n)| <= n
    ensures |Associated(s, xs, n)| == n <==> forall i :: 0 <= i < n ==> Some(i) in Indices(s, xs)
    ensures |Associated(s, xs, n)| == n ==> forall i :: 0 <= i < n ==> ParamIn(s, xs, i) == Some(Associated(s, xs, n)[i])
  {
    if n > 0 {
      AssociatedCount(s, xs, n - 1);
      ParamThere(s, xs, n - 1);
    }
  }

  lemma {:induction false} Earlier(ps: seq<Option<nat>>)
    ensures forall j, k {:trigger ps[j], ps[..k]} :: 0 <= j < k < |ps| ==> ps[j] in ps[..k]
  {
    forall j, k {:trigger ps[j], ps[..k]} | 0 <= j < k < |ps| ensures ps[j] in ps[..k] { assert ps[..k][j] == ps[j]; }
  }

  // The names agree exactly when the first child with each index has the name given for it, if it has one.
  lemma {:induction false} NamesIff(s: Store, b: seq<Id>, params: seq<Id>, names: seq<string>)
    requires params == Associated(s, b, |names|) && |params| == |names|
    ensures (forall i :: 0 <= i < |params| ==> !NameDiffers(s, params[i], names[i])) <==>
              var ps := Indices(s, b);
              forall j :: 0 <= j < |b| && ps[j].Some? && ps[j].value < |names| && ps[j] !in ps[..j] ==>
                s[b[j]].data.name.Some? ==> s[b[j]].data.name.value == names[ps[j].value]
  {
    var ps := Indices(s, b);
    AssociatedCount(s, b, |names|);
    Earlier(ps);
    hide Associated;
    forall j | 0 <= j < |b| && ps[j].Some? && ps[j].value < |names| && ps[j] !in ps[..j] ensures params[ps[j].value] == b[j] {
      var k := FirstParam(s, b, ps[j].value);
    }
    forall i | 0 <= i < |params| && NameDiffers(s, params[i], names[i])
      ensures exists j :: 0 <= j < |b| && ps[j] == Some(i) && ps[j] !in ps[..j] && b[j] == params[i]
    {
      var j := FirstParam(s, b, i);
    }
  }

  /**
   The rule for definitions, said of the children: the type has inputs; if names are given there are as many; every
   input has a child with its index; and the first such child has the name given for it, if it has one.
   */
  lemma {:induction false} DefinitionIff(s: Store, c: Context, x: Entity)
    requires x.links.typeOf.Some?
    ensures FunctionVerdict(s, c, x) == Valid <==>
              var ft, names := Unmodified(s, c.modifiers, x.links.typeOf.value, |s|), x.data.paramNames;
              && ft.Some? && ft.value < |s| && s[ft.value].links.inputs.Some?
              && (names.Some? ==> |names.value| == |s[ft.value].links.inputs.value|)
              && (x.block.Some? ==>
                    var b, n := x.block.value, |s[ft.value].links.inputs.value|;
                    var ps := Indices(s, b);
                    (forall i :: 0 <= i < n ==> Some(i) in ps)
                    && (names.Some? ==> forall j :: 0 <= j < |b| && ps[j].Some? && ps[j].value < n && ps[j] !in ps[..j] ==>
                          s[b[j]].data.name.Some? ==> s[b[j]].data.name.value == names.value[ps[j].value]))
  {
    hide Unmodified, NameDiffers, Indices, Associated;
    var ft := Unmodified(s, c.modifiers, x.links.typeOf.value, |s|);
    if ft.Some? && ft.value < |s| && s[ft.value].links.inputs.Some? && x.block.Some? {
      var n, names, b := |s[ft.value].links.inputs.value|, x.data.paramNames, x.block.value;
      AssociatedCount(s, b, n);
      if names.Some? && |names.value| == n == |Associated(s, b, n)| { NamesIff(s, b, Associated(s, b, n), names.value); }
    }
  }

  function TypeVerdict(s: Store, c: Context, x: Entity): Verdict
    requires x.links.typeOf.None?
  {
    var k, d := x.links, x.data;
    if x.block.None? && k.returnType.None? && k.pointer.None? then Thrown
    else if d.param.Some? || k.alias.Some? || d.number.Some? || d.text.Some? || k.call.Some? then Thrown
    else if k.inputs.Some? && d.paramNames.Some? && |d.paramNames.value| != |k.inputs.value| then Thrown
    else if k.pointer.Some? && !IsType(s, c, k.pointer.value.base) then Thrown
    else if Valueless in d.flags || Namespace in d.flags then Thrown
    else Valid
  }

  predicate IsType(s: Store, c: Context, e: Id) {
    e < |s| && (s[e].data.typeDef.Some? || s[e].links.typeOf == Some(c.typeName))
  }

  function NamespaceVerdict(x: Entity): Verdict {
    var k, d := x.links, x.data;
    if x.block.None? || !(d.flags - {Namespace} <= {Export}) then Thrown
    else if k.pointer.Some? || k.returnType.Some? || k.inputs.Some? || d.param.Some? || k.alias.Some?
            || d.number.Some? || d.text.Some? || k.call.Some? then Thrown
    else Valid
  }

  // As the code has it: an alias passes all its rules and is still not valid.
  function AliasVerdict(x: Entity): Verdict {
    var k, d := x.links, x.data;
    if k.pointer.Some? || k.returnType.Some? || k.inputs.Some? || d.param.Some? || x.block.Some?
       || d.number.Some? || d.text.Some? || k.call.Some? then Thrown
    else if !(d.flags == {} || d.flags == {Export} || d.flags == {Comptime}) then Thrown
    else Invalid
  }

  function KindVerdict(s: Store, c: Context, e: Id, topLevel: bool): Verdict {
    if e >= |s| then Invalid
    else
      var x := s[e];
      if x.links.typeOf.Some? then TypedVerdict(s, c, x)
      else if x.data.typeDef.Some? then TypeVerdict(s, c, x)
      else if Namespace in x.data.flags then NamespaceVerdict(x)
      else if x.links.alias.Some? then AliasVerdict(x)
      else if x.block.Some? then (if x.data.flags <= {Flatten} && topLevel then Valid else Thrown)
      else Invalid
  }

  // ---------- what the rules for values come to ----------

  /**
   What is accepted of an entity with a type: it is a value, a call with inputs, or a function, the only thing that can
   be two kinds at once, having a return type and a block.
   */
  lemma {:induction false} TypedIff(s: Store, c: Context, e: Id, topLevel: bool)
    requires e < |s| && s[e].links.typeOf.Some?
    ensures KindVerdict(s, c, e, topLevel) == Valid <==>
              var k, d := s[e].links, s[e].data;
              && k.typeOf.value <= |s| && k.pointer.None? && d.typeDef.None? && k.alias.None? && Constant !in d.flags
              && (Valueless in d.flags || d.number.Some? || d.text.Some? || k.call.Some? || k.returnType.Some? || s[e].block.Some?)
              && (k.call.Some? ==> k.inputs.Some? && Valueless !in d.flags && d.number.None? && d.text.None? && k.returnType.None? && s[e].block.None?)
              && (d.number.Some? ==> Valueless !in d.flags && d.text.None? && k.returnType.None? && s[e].block.None?)
              && (d.text.Some? ==> Valueless !in d.flags && k.returnType.None? && s[e].block.None?)
              && (Valueless in d.flags ==> k.returnType.None? && s[e].block.None?)
              && (k.call.None? && k.returnType.None? ==> d.flags !! {Flatten, Flag.Inline, Pure})
              && (k.returnType.Some? ==> FunctionVerdict(s, c, s[e]) == Valid)
  {
    hide FunctionVerdict;
    assert s[e].data.flags !! {Flatten, Flag.Inline, Pure} <==>
           Flatten !in s[e].data.flags && Flag.Inline !in s[e].data.flags && Pure !in s[e].data.flags;
  }

  /**
   What is accepted of an entity without a type: a type, which has a block, a return type or a pointer to a type; a
   namespace, which has a block; or, at the top level only, a block.  None of them has the components of a value.
   */
  lemma {:induction false} UntypedIff(s: Store, c: Context, e: Id, topLevel: bool)
    requires e < |s| && s[e].links.typeOf.None?
    ensures KindVerdict(s, c, e, topLevel) == Valid <==>
              var x, k, d := s[e], s[e].links, s[e].data;
              if d.typeDef.Some? then
                && (x.block.Some? || k.returnType.Some? || k.pointer.Some?)
                && d.param.None? && k.alias.None? && d.number.None? && d.text.None? && k.call.None?
                && (k.inputs.Some? && d.paramNames.Some? ==> |d.paramNames.value| == |k.inputs.value|)
                && (k.pointer.Some? ==>
                      var base := k.pointer.value.base; base < |s| && (s[base].data.typeDef.Some? || s[base].links.typeOf == Some(c.typeName)))
                && d.flags !! {Valueless, Namespace}
              else if Namespace in d.flags then
                && x.block.Some? && (d.flags == {Namespace} || d.flags == {Namespace, Export})
                && k.pointer.None? && k.returnType.None? && k.inputs.None? && d.param.None? && k.alias.None?
                && d.number.None? && d.text.None? && k.call.None?
              else k.alias.None? && x.block.Some? && topLevel && (d.flags == {} || d.flags == {Flatten})
  {
    var flags := s[e].data.flags;
    assert flags !! {Valueless, Namespace} <==> Valueless !in flags && Namespace !in flags;
    if Namespace in flags {
      WithinOne(flags - {Namespace}, Export);
      assert flags == (flags - {Namespace}) + {Namespace};
    }
    WithinOne(flags, Flatten);
  }

  lemma {:induction false} WithinOne(flags: set<Flag>, f: Flag)
    ensures flags <= {f} <==> flags == {} || flags == {f}
  {
    if flags <= {f} { if f in flags { assert flags == {f}; } else { assert flags == {}; } }
  }

  predicate NameOk(s: Store, c: Context, e: Id) {
    e < |s| && s[e].data.name.Some? ==> Identifier(s[e].data.name.value, e <= c.builtinEnd)
  }

  // A parent lists its child.
  predicate ParentOk(s: Store, e: Id) {
    e < |s| && s[e].parent.Some? ==> s[e].parent.value < |s| && s[s[e].parent.value].block.Some? && e in Children(s, s[e].parent.value)
  }

  // Every rule that is about one entity and its neighbours.
  ghost predicate Local(s: Store, c: Context, e: Id, topLevel: bool) {
    KindVerdict(s, c, e, topLevel) == Valid && NameOk(s, c, e) && ParentOk(s, e) && Distinct(Children(s, e))
  }

  ghost predicate AllLocal(s: Store, c: Context, f: Forest) {
    match f
    case Nil => true
    case Cons(id, kids, rest) => Local(s, c, id, false) && AllLocal(s, c, kids) && AllLocal(s, c, rest)
  }

  // What acceptance means: a tree, linked both ways, of entities that keep the rules.
  ghost predicate Sound(s: Store, c: Context, e: Id, kids: Forest, topLevel: bool) {
    && Rep(s, Cons(e, kids, Nil)) && NoDup(Cons(e, kids, Nil)) && Parents(s, kids, e)
    && Local(s, c, e, topLevel) && AllLocal(s, c, kids)
  }

  ghost predicate Unsound(s: Store, c: Context, e: Id, topLevel: bool) {
    forall kids {:trigger Sound(s, c, e, kids, topLevel)} :: !Sound(s, c, e, kids, topLevel)
  }

  // ---------- how far up the root is ----------

  // `d` steps of the parent link lead to a parentless entity.
  ghost predicate Rank(s: Store, e: Id, d: nat)
    decreases d
  {
    e < |s| && if d == 0 then s[e].parent.None? else s[e].parent.Some? && Rank(s, s[e].parent.value, d - 1)
  }

  lemma {:induction false} RankUnique(s: Store, e: Id, d: nat, d': nat)
    requires Rank(s, e, d) && Rank(s, e, d')
    ensures d == d'
    decreases d
  {
    if d > 0 && d' > 0 { RankUnique(s, s[e].parent.value, d - 1, d' - 1); }
  }

  ghost function Ancestors(s: Store, e: Id, d: nat): (r: set<Id>)
    requires Rank(s, e, d)
    ensures forall x :: x in r ==> x < |s|
    decreases d
  {
    if d == 0 then {e} else {e} + Ancestors(s, s[e].parent.value, d - 1)
  }

  lemma {:induction false} AncestorRank(s: Store, e: Id, d: nat, x: Id) returns (d': nat)
    requires Rank(s, e, d) && x in Ancestors(s, e, d)
    ensures d' <= d && Rank(s, x, d')
    decreases d
  {
    if x == e { d' := d; } else { d' := AncestorRank(s, s[e].parent.value, d - 1, x); }
  }

  lemma {:induction false} AncestorCount(s: Store, e: Id, d: nat)
    requires Rank(s, e, d)
    ensures |Ancestors(s, e, d)| == d + 1
    decreases d
  {
    if d > 0 {
      var p := s[e].parent.value;
      AncestorCount(s, p, d - 1);
      if e in Ancestors(s, p, d - 1) {
        var d' := AncestorRank(s, p, d - 1, e);
        RankUnique(s, e, d, d');
      }
    }
  }

  // The way to the root cannot be longer than there are entities: this bounds the recursion.
  lemma {:induction false} RankBound(s: Store, e: Id, d: nat)
    requires Rank(s, e, d)
    ensures d < |s|
  {
    AncestorCount(s, e, d);
    CardinalityMonotone(Ancestors(s, e, d), Below(|s|));
  }

  // `n` steps up.
  ghost function Up(s: Store, e: Id, n: nat): Option<Id>
    decreases n
  {
    if n == 0 then Some(e)
    else if e < |s| && s[e].parent.Some? then Up(s, s[e].parent.value, n - 1)
    else None
  }

  // A member of a linked shape has a root of it above, at the rank of the roots.
  lemma {:induction false} RootAboveMember(s: Store, f: Forest, p: Id, d: nat, x: Id) returns (n: nat)
    requires Parents(s, f, p) && Rank(s, p, d) && x in Ids(f)
    ensures Rank(s, x, d + 1 + n) && Up(s, x, n).Some? && Up(s, x, n).value in Roots(f)
  {
    if x == f.id {
      n := 0;
    } else if x in Ids(f.kids) {
      var m := RootAboveMember(s, f.kids, f.id, d + 1, x);
      n := m + 1;
      var i :| 0 <= i < |Roots(f.kids)| && Roots(f.kids)[i] == Up(s, x, m).value;
      RootParent(s, f.kids, f.id, i);
      UpOnce(s, x, m);
    } else {
      n := RootAboveMember(s, f.rest, p, d, x);
    }
  }

  lemma {:induction false} UpOnce(s: Store, e: Id, n: nat)
    requires Up(s, e, n).Some? && Up(s, e, n).value < |s| && s[Up(s, e, n).value].parent.Some?
    ensures Up(s, e, n + 1) == s[Up(s, e, n).value].parent
    decreases n
  {
    if n > 0 { UpOnce(s, s[e].parent.value, n - 1); }
  }

  ghost predicate DistinctLists(s: Store, f: Forest) {
    match f
    case Nil => true
    case Cons(id, kids, rest) => Distinct(Children(s, id)) && DistinctLists(s, kids) && DistinctLists(s, rest)
  }

  /** Linked both ways, no list repeating: nothing occurs twice, so the shape is a tree. */
  lemma {:induction false} LinkedIsTree(s: Store, f: Forest, p: Id, d: nat)
    requires Rep(s, f) && Parents(s, f, p) && Rank(s, p, d) && Distinct(Roots(f)) && DistinctLists(s, f)
    ensures NoDup(f) && p !in Ids(f)
  {
    if p in Ids(f) { NotAbove(s, f, p, d); }
    if f.Cons? {
      assert Roots(f)[1..] == Roots(f.rest);
      LinkedIsTree(s, f.kids, f.id, d + 1);
      LinkedIsTree(s, f.rest, p, d);
      forall x | x in Ids(f.kids) || x == f.id ensures x !in Ids(f.rest) {
        if x in Ids(f.rest) { Apart(s, f, p, d, x); }
      }
    }
  }

  lemma {:induction false} NotAbove(s: Store, f: Forest, p: Id, d: nat)
    requires Parents(s, f, p) && Rank(s, p, d)
    ensures p !in Ids(f)
  {
    if p in Ids(f) {
      var n := RootAboveMember(s, f, p, d, p);
      RankUnique(s, p, d, d + 1 + n);
    }
  }

  lemma {:induction false} Apart(s: Store, f: Forest, p: Id, d: nat, x: Id)
    requires f.Cons? && Parents(s, f, p) && Rank(s, p, d) && Distinct(Roots(f)) && x in Ids(f.kids) + {f.id}
    ensures x !in Ids(f.rest)
  {
    assert f.id !in Roots(f.rest) by {
      forall i | 0 <= i < |Roots(f.rest)| ensures Roots(f.rest)[i] != f.id { assert Roots(f)[0] != Roots(f)[i + 1]; }
    }
    if x in Ids(f.rest) {
      var one := Cons(f.id, f.kids, Nil);
      RootsOne(f.id, f.kids);
      var n := RootAboveMember(s, one, p, d, x);
      var m := RootAboveMember(s, f.rest, p, d, x);
      RankUnique(s, x, d + 1 + n, d + 1 + m);
    }
  }

  // ---------- the check ----------

  // Below the root every listed child is there and has a parent component.
  ghost predicate Parented(s: Store, ids: set<Id>) {
    forall e, c {:trigger e in ids, c in Children(s, e)} :: e in ids && c in Children(s, e) ==>
      c in ids && c < |s| && s[c].parent.Some?
  }

  // The part of a block that has been checked and found sound.
  ghost predicate Passed(s: Store, c: Context, e: Id, done: Forest) {
    Rep(s, done) && Parents(s, done, e) && AllLocal(s, c, done) && DistinctLists(s, done)
  }

  /**
   The recursive check.  It ends, whatever the links are, and returns true exactly for sound trees: the
   checks about one entity and its neighbours are enough to rule out sharing and cycles.
   */
  method Structure(s: Store, c: Context, subtree: Id, topLevel: bool, ghost rank: nat, ghost ids: set<Id>)
    returns (v: Verdict, ghost kids: Forest)
    requires Rank(s, subtree, rank) && Parented(s, ids) && subtree in ids
    ensures v.Valid? ==> Sound(s, c, subtree, kids, topLevel)
    ensures !v.Valid? ==> Unsound(s, c, subtree, topLevel)
    // what has a type has one kind of value, a call with its inputs, or is a function
    ensures v.Valid? ==> forall x {:trigger x in Ids(Cons(subtree, kids, Nil))} :: x in Ids(Cons(subtree, kids, Nil)) ==> x < |s| && (s[x].links.typeOf.Some? ==>
              var k, d := s[x].links, s[x].data;
              && (Valueless in d.flags || d.number.Some? || d.text.Some? || k.call.Some? || k.returnType.Some? || s[x].block.Some?)
              && (k.call.Some? ==> k.inputs.Some? && Valueless !in d.flags && d.number.None? && d.text.None? && k.returnType.None? && s[x].block.None?)
              && (d.number.Some? ==> Valueless !in d.flags && d.text.None? && k.returnType.None? && s[x].block.None?)
              && (d.text.Some? ==> Valueless !in d.flags && k.returnType.None? && s[x].block.None?)
              && (Valueless in d.flags ==> k.returnType.None? && s[x].block.None?))
    // a function has the inputs of its type: as many names, and for every index a child, the first with the name given for it
    ensures v.Valid? ==> forall x {:trigger x in Ids(Cons(subtree, kids, Nil))} :: x in Ids(Cons(subtree, kids, Nil)) ==> x < |s| && (s[x].links.typeOf.Some? && s[x].links.returnType.Some? ==>
              var ft, names := Unmodified(s, c.modifiers, s[x].links.typeOf.value, |s|), s[x].data.paramNames;
              && ft.Some? && ft.value < |s| && s[ft.value].links.inputs.Some?
              && (names.Some? ==> |names.value| == |s[ft.value].links.inputs.value|)
              && (s[x].block.Some? ==>
                    var b, n := s[x].block.value, |s[ft.value].links.inputs.value|;
                    var ps := Indices(s, b);
                    (forall i :: 0 <= i < n ==> Some(i) in ps)
                    && (names.Some? ==> forall j :: 0 <= j < |b| && ps[j].Some? && ps[j].value < n && ps[j] !in ps[..j] ==>
                          s[b[j]].data.name.Some? ==> s[b[j]].data.name.value == names.value[ps[j].value])))
    decreases |s| - rank
  {
    hide KindVerdict, Identifier, Distinct, Rank, Parented, Passed, Sound, Unsound, Roots, Append;
    RankFacts(s, subtree, rank);
    kids := Nil;
    v := KindVerdict(s, c, subtree, topLevel);
    if v != Valid { LocalFails(s, c, subtree, topLevel); }
    if v.Thrown? { return; }
    if s[subtree].data.name.Some? {
      var ok := IdentifierStructure(s[subtree].data.name.value, subtree <= c.builtinEnd);
      if !ok {
        NameFails(s, c, subtree, topLevel);
        v := Invalid;
      }
    }
    if s[subtree].parent.Some? {
      var parent := s[subtree].parent.value;
      if parent >= |s| || s[parent].block.None? || subtree !in s[parent].block.value {
        ParentFails(s, c, subtree, topLevel);
        return Thrown, Nil;
      }
    }
    if s[subtree].block.Some? {
      var related := s[subtree].block.value;
      var distinct := NoRepetition(related);
      if !distinct {
        RepetitionFails(s, c, subtree, topLevel);
        return Thrown, Nil;
      }
      PassedStart(s, c, subtree);
      for i := 0 to |related|
        invariant v == Valid || v == Invalid
        invariant v.Valid? ==> Local(s, c, subtree, topLevel) && Passed(s, c, subtree, kids) && Roots(kids) == related[..i]
        invariant v.Invalid? ==> Unsound(s, c, subtree, topLevel)
      {
        var e := related[i];
        ChildParented(s, ids, subtree, related, i);
        if s[e].parent.Some? && s[e].parent.value != subtree {
          StrangerFails(s, c, subtree, topLevel, i);
          return Thrown, Nil;
        }
        ChildRank(s, subtree, e, rank);
        RankBound(s, e, rank + 1);
        ghost var below: Forest;
        var w: Verdict;
        w, below := Structure(s, c, e, false, rank + 1, ids);
        if !w.Valid? { ChildFails(s, c, subtree, topLevel, i); }
        if w.Thrown? { return Thrown, Nil; }
        if w.Invalid? { v := Invalid; }
        if v.Valid? {
          PassedNext(s, c, subtree, kids, related, i, below);
          kids := Append(kids, Cons(e, below, Nil));
        }
      }
    } else {
      PassedStart(s, c, subtree);
      NoneDistinct();
    }
    if v.Valid? {
      SoundIntro(s, c, subtree, kids, topLevel, rank);
      forall x {:trigger x in Ids(Cons(subtree, kids, Nil))} | x in Ids(Cons(subtree, kids, Nil)) {
        MemberMeans(s, c, subtree, kids, topLevel, x);
      }
    }
  }

  lemma {:induction false} MemberMeans(s: Store, c: Context, e: Id, kids: Forest, topLevel: bool, x: Id)
    requires Sound(s, c, e, kids, topLevel) && x in Ids(Cons(e, kids, Nil))
    // what has a type has one kind of value, a call with its inputs, or is a function
    ensures x < |s| && (s[x].links.typeOf.Some? ==>
              var k, d := s[x].links, s[x].data;
              && (Valueless in d.flags || d.number.Some? || d.text.Some? || k.call.Some? || k.returnType.Some? || s[x].block.Some?)
              && (k.call.Some? ==> k.inputs.Some? && Valueless !in d.flags && d.number.None? && d.text.None? && k.returnType.None? && s[x].block.None?)
              && (d.number.Some? ==> Valueless !in d.flags && d.text.None? && k.returnType.None? && s[x].block.None?)
              && (d.text.Some? ==> Valueless !in d.flags && k.returnType.None? && s[x].block.None?)
              && (Valueless in d.flags ==> k.returnType.None? && s[x].block.None?))
    // a function has the inputs of its type: as many names, and for every index a child, the first with the name given for it
    ensures x < |s| && (s[x].links.typeOf.Some? && s[x].links.returnType.Some? ==>
              var ft, names := Unmodified(s, c.modifiers, s[x].links.typeOf.value, |s|), s[x].data.paramNames;
              && ft.Some? && ft.value < |s| && s[ft.value].links.inputs.Some?
              && (names.Some? ==> |names.value| == |s[ft.value].links.inputs.value|)
              && (s[x].block.Some? ==>
                    var b, n := s[x].block.value, |s[ft.value].links.inputs.value|;
                    var ps := Indices(s, b);
                    (forall i :: 0 <= i < n ==> Some(i) in ps)
                    && (names.Some? ==> forall j :: 0 <= j < |b| && ps[j].Some? && ps[j].value < n && ps[j] !in ps[..j] ==>
                          s[b[j]].data.name.Some? ==> s[b[j]].data.name.value == names.value[ps[j].value])))
  {
    assert Ids(Cons(e, kids, Nil)) == {e} + Ids(kids);
    SoundParts(s, c, e, kids, topLevel);
    hide *;
    if x == e { LocalKind(s, c, e, topLevel); } else { LocalMember(s, c, kids, x); RepInStore(s, kids, x); LocalKind(s, c, x, false); }
    if s[x].links.typeOf.Some? {
      TypedIff(s, c, x, topLevel && x == e);
      DefinitionIff(s, c, s[x]);
    }
  }

  lemma {:induction false} LocalKind(s: Store, c: Context, e: Id, topLevel: bool)
    requires Local(s, c, e, topLevel)
    ensures KindVerdict(s, c, e, topLevel) == Valid
  {
    hide KindVerdict;
  }

  lemma {:induction false} LocalMember(s: Store, c: Context, f: Forest, x: Id)
    requires AllLocal(s, c, f) && x in Ids(f)
    ensures Local(s, c, x, false)
  {
    hide Local;
    if x == f.id {} else if x in Ids(f.kids) { LocalMember(s, c, f.kids, x); } else { LocalMember(s, c, f.rest, x); }
  }

  lemma {:induction false} RankFacts(s: Store, e: Id, rank: nat)
    requires Rank(s, e, rank)
    ensures e < |s|
  {}

  lemma {:induction false} ChildRank(s: Store, e: Id, child: Id, rank: nat)
    requires Rank(s, e, rank) && child < |s| && s[child].parent == Some(e)
    ensures Rank(s, child, rank + 1)
  {}

  lemma {:induction false} NoneDistinct()
    ensures Distinct([])
  {}

  method NoRepetition(xs: seq<Id>) returns (ok: bool)
    ensures ok <==> Distinct(xs)
  {
    var seen: set<Id> := {};
    ok := true;
    for i := 0 to |xs|
      invariant ok ==> Distinct(xs[..i]) && forall x :: x in seen <==> x in xs[..i]
      invariant !ok ==> !Distinct(xs)
    {
      assert xs[..i + 1] == xs[..i] + [xs[i]];
      if ok && xs[i] in seen {
        var j :| 0 <= j < i && xs[j] == xs[i];
        ok := false;
      }
      seen := seen + {xs[i]};
    }
    assert xs[..|xs|] == xs;
  }

  // ---------- why a failed step means there is no sound tree ----------

  lemma {:induction false} LocalFails(s: Store, c: Context, e: Id, topLevel: bool)
    requires KindVerdict(s, c, e, topLevel) != Valid
    ensures Unsound(s, c, e, topLevel)
  {
    hide KindVerdict, Rep, NoDup, Parents, AllLocal;
  }

  lemma {:induction false} NameFails(s: Store, c: Context, e: Id, topLevel: bool)
    requires e < |s| && s[e].data.name.Some? && !Identifier(s[e].data.name.value, e <= c.builtinEnd)
    ensures Unsound(s, c, e, topLevel)
  {
    hide KindVerdict, Rep, NoDup, Parents, AllLocal, Identifier;
  }

  lemma {:induction false} ParentFails(s: Store, c: Context, e: Id, topLevel: bool)
    requires e < |s| && s[e].parent.Some?
    requires var p := s[e].parent.value; p >= |s| || s[p].block.None? || e !in s[p].block.value
    ensures Unsound(s, c, e, topLevel)
  {
    hide KindVerdict, Rep, NoDup, Parents, AllLocal, NameOk;
  }

  lemma {:induction false} RepetitionFails(s: Store, c: Context, e: Id, topLevel: bool)
    requires e < |s| && s[e].block.Some? && !Distinct(s[e].block.value)
    ensures Unsound(s, c, e, topLevel)
  {
    hide KindVerdict, Rep, NoDup, Parents, AllLocal, NameOk, ParentOk, Distinct;
  }

  lemma {:induction false} StrangerFails(s: Store, c: Context, e: Id, topLevel: bool, i: nat)
    requires e < |s| && s[e].block.Some? && i < |s[e].block.value|
    requires var x := s[e].block.value[i]; x < |s| && s[x].parent.Some? && s[x].parent.value != e
    ensures Unsound(s, c, e, topLevel)
  {
    forall kids {:trigger Sound(s, c, e, kids, topLevel)} ensures !Sound(s, c, e, kids, topLevel) {
      if Sound(s, c, e, kids, topLevel) {
        assert Roots(kids) == s[e].block.value;
        RootParent(s, kids, e, i);
      }
    }
  }

  lemma {:induction false} ChildFails(s: Store, c: Context, e: Id, topLevel: bool, i: nat)
    requires e < |s| && s[e].block.Some? && i < |s[e].block.value| && Unsound(s, c, s[e].block.value[i], false)
    ensures Unsound(s, c, e, topLevel)
  {
    forall kids {:trigger Sound(s, c, e, kids, topLevel)} ensures !Sound(s, c, e, kids, topLevel) {
      if Sound(s, c, e, kids, topLevel) {
        SoundParts(s, c, e, kids, topLevel);
        hide Local, Rep, NoDup, Parents, AllLocal;
        var below := SoundChild(s, c, kids, e, i);
      }
    }
  }

  lemma {:induction false} SoundParts(s: Store, c: Context, e: Id, kids: Forest, topLevel: bool)
    requires Sound(s, c, e, kids, topLevel)
    ensures e < |s| && Children(s, e) == Roots(kids) && Rep(s, kids) && NoDup(kids) && Parents(s, kids, e) && AllLocal(s, c, kids)
    ensures Local(s, c, e, topLevel) && e !in Ids(kids)
  {
    hide Local;
  }

  lemma {:induction false} SoundChild(s: Store, c: Context, f: Forest, p: Id, i: nat) returns (below: Forest)
    requires Rep(s, f) && NoDup(f) && Parents(s, f, p) && AllLocal(s, c, f) && i < |Roots(f)|
    ensures Sound(s, c, Roots(f)[i], below, false)
    decreases f
  {
    hide Local;
    if i == 0 {
      below := f.kids;
      TreeIntro(s, f.id, f.kids);
    } else { below := SoundChild(s, c, f.rest, p, i - 1); }
  }

  // ---------- why passing means there is one ----------

  lemma {:induction false} PassedStart(s: Store, c: Context, e: Id)
    ensures Passed(s, c, e, Nil) && Roots(Nil) == []
  {}

  lemma {:induction false} ChildParented(s: Store, ids: set<Id>, e: Id, related: seq<Id>, i: nat)
    requires Parented(s, ids) && e in ids && e < |s| && s[e].block == Some(related) && i < |related|
    ensures related[i] in ids && related[i] < |s| && s[related[i]].parent.Some?
  {
    assert related[i] in Children(s, e);
  }

  lemma {:induction false} PassedNext(s: Store, c: Context, e: Id, done: Forest, related: seq<Id>, i: nat, below: Forest)
    requires Passed(s, c, e, done) && i < |related| && Roots(done) == related[..i]
    requires related[i] < |s| && s[related[i]].parent == Some(e) && Sound(s, c, related[i], below, false)
    ensures Passed(s, c, e, Append(done, Cons(related[i], below, Nil)))
    ensures Roots(Append(done, Cons(related[i], below, Nil))) == related[..i + 1]
  {
    hide *;
    var one := Cons(related[i], below, Nil);
    SoundOne(s, c, e, related[i], below);
    PassedElim(s, c, e, done);
    RepAppend(s, done, one);
    ParentsAppend(s, done, one, e);
    AllLocalAppend(s, c, done, one);
    PassedIntro(s, c, e, Append(done, one));
    RootsOne(related[i], below);
    NextSlice(related, i);
  }

  lemma {:induction false} NextSlice(xs: seq<Id>, i: nat)
    requires i < |xs|
    ensures xs[..i] + [xs[i]] == xs[..i + 1]
  {}

  lemma {:induction false} PassedElim(s: Store, c: Context, e: Id, done: Forest)
    requires Passed(s, c, e, done)
    ensures Rep(s, done) && Parents(s, done, e) && AllLocal(s, c, done) && DistinctLists(s, done)
  {}

  lemma {:induction false} PassedIntro(s: Store, c: Context, e: Id, done: Forest)
    requires Rep(s, done) && Parents(s, done, e) && AllLocal(s, c, done) && DistinctLists(s, done)
    ensures Passed(s, c, e, done)
  {}

  lemma {:induction false} SoundOne(s: Store, c: Context, e: Id, x: Id, below: Forest)
    requires x < |s| && s[x].parent == Some(e) && Sound(s, c, x, below, false)
    ensures var one := Cons(x, below, Nil); Rep(s, one) && Parents(s, one, e) && AllLocal(s, c, one) && DistinctLists(s, one)
  {
    SoundParts(s, c, x, below, false);
    LocalLists(s, c, below);
    hide KindVerdict, NameOk, ParentOk, Distinct;
  }

  lemma {:induction false} AllLocalAppend(s: Store, c: Context, f: Forest, g: Forest)
    requires AllLocal(s, c, f) && AllLocal(s, c, g) && DistinctLists(s, f) && DistinctLists(s, g)
    ensures AllLocal(s, c, Append(f, g)) && DistinctLists(s, Append(f, g))
  {
    hide Local;
    if f.Cons? { AllLocalAppend(s, c, f.rest, g); }
  }

  lemma {:induction false} LocalLists(s: Store, c: Context, f: Forest)
    requires AllLocal(s, c, f)
    ensures DistinctLists(s, f)
  {
    hide KindVerdict;
    if f.Cons? {
      LocalLists(s, c, f.kids);
      LocalLists(s, c, f.rest);
    }
  }

  lemma {:induction false} SoundIntro(s: Store, c: Context, e: Id, kids: Forest, topLevel: bool, rank: nat)
    requires e < |s| && Local(s, c, e, topLevel) && Rank(s, e, rank) && Passed(s, c, e, kids) && Roots(kids) == Children(s, e)
    ensures Sound(s, c, e, kids, topLevel)
  {
    hide KindVerdict, NameOk, ParentOk, Distinct;
    LinkedIsTree(s, kids, e, rank);
    TreeIntro(s, e, kids);
  }

  // ---------- what acceptance says about one entity ----------

  /** The check never returns true where there is an alias: the branch for aliases leaves its result false. */
  lemma {:induction false} AliasesAreRejected(s: Store, c: Context, f: Forest, x: Id)
    requires AllLocal(s, c, f) && x in Ids(f)
    ensures x < |s| && s[x].links.alias.None?
  {
    if x == f.id { hide FunctionVerdict, ValueCount, IsType, NameOk, ParentOk, Distinct; }
    else if x in Ids(f.kids) { AliasesAreRejected(s, c, f.kids, x); }
    else { AliasesAreRejected(s, c, f.rest, x); }
  }

  // Copying passes over these components, each where it looks at the kind of the entity.
  predicate NothingToLose(x: Entity) {
    var k, d := x.links, x.data;
    && k.printAs.None? && d.register.None?
    && if k.typeOf.Some? then k.call.Some? || k.returnType.Some? || (k.inputs.None? && d.paramNames.None?)
       else if d.typeDef.Some? then d.paramNames.None? && if k.inputs.Some? then k.pointer.None? else k.returnType.None?
       else if Namespace in d.flags then d.paramNames.None?
       else k.pointer.None? && k.returnType.None? && k.inputs.None? && k.call.None?
            && d.param.None? && d.paramNames.None? && d.number.None? && d.text.None?
  }

  /** For an accepted entity the copy is the renamed original exactly when it has none of the components copying drops. */
  lemma {:induction false} CopyIsComplete(s: Store, c: Context, e: Id, topLevel: bool, m: Renaming, parent: Id)
    requires KindVerdict(s, c, e, topLevel) == Valid
    ensures e < |s| && (CopyOf(s[e], m, parent) == MapRefs(m, s[e]).(parent := Some(parent)) <==> NothingToLose(s[e]))
  {
    hide FunctionVerdict, IsType, SubIds;
    CompleteLinks(s, c, e, topLevel, m);
  }

  lemma {:induction false} CompleteLinks(s: Store, c: Context, e: Id, topLevel: bool, m: Renaming)
    requires KindVerdict(s, c, e, topLevel) == Valid
    ensures e < |s|
    ensures CopyLinks(s[e], m) == MapLinks(m, s[e].links) && CopyData(s[e]) == s[e].data <==> NothingToLose(s[e])
  {
    hide FunctionVerdict, IsType, SubIds;
  }

  // A number with a register.
  const PINNED: Store := [
    BLANK, BLANK.(data := NO_DATA.(typeDef := Some(TypeDefinition(8, 8, 0)))),
    BLANK.(links := NO_LINKS.(typeOf := Some(1)), data := NO_DATA.(number := Some(7), register := Some(3)))]

  /** An accepted entity that loses something: the copy of a number with a register has no register. */
  lemma {:induction false} CopyLosesRegister(c: Context, m: Renaming, parent: Id)
    ensures KindVerdict(PINNED, c, 2, false) == Valid && !NothingToLose(PINNED[2])
    ensures CopyOf(PINNED[2], m, parent).data.register == None && PINNED[2].data.register == Some(3)
    ensures CopyOf(PINNED[2], m, parent) != MapRefs(m, PINNED[2]).(parent := Some(parent))
  {
    assert ValueCount(PINNED[2]) == 1;
    assert KindVerdict(PINNED, c, 2, false) == Valid;
    CopyIsComplete(PINNED, c, 2, false, m, parent);
  }
}
