/**
 The entity store every compiler pass edits in place.  An entity is a record of
 optional components; its id is its index.  Id 0 is the invalid entity.
 */
module Store {
  import opened Wrappers

  type Id = nat
  type byte = x: int | 0 <= x < 256

  const INVALID: Id := 0

  // `Tail` shares the bit of `Flatten` (interface.hpp:57-58), so it is the same flag.
  datatype Flag =
    | Valueless | Namespace | Export | Comptime | AlwaysComptime | NoComptime
    | Constant | Union | Pure | Inline | Flatten

  datatype Pointer = Pointer(base: Id, size: nat)
  datatype TypeDefinition = TypeDefinition(size: nat, align: nat, unique: nat)

  // References are in their resolved form: one id each.
  datatype Links = Links(
    returnType: Option<Id>,
    inputs: Option<seq<Id>>,
    pointer: Option<Pointer>,
    alias: Option<Id>,
    typeOf: Option<Id>,
    call: Option<Id>,
    printAs: Option<Id>
  )

  datatype Data = Data(
    name: Option<string>,
    flags: set<Flag>,
    param: Option<nat>,
    paramNames: Option<seq<string>>,
    typeDef: Option<TypeDefinition>,
    number: Option<nat>,
    text: Option<seq<byte>>,
    register: Option<nat>
  )

  // An entity: its child list, the cached block that lists it, its references, its own data.
  datatype Entity = Entity(block: Option<seq<Id>>, parent: Option<Id>, links: Links, data: Data)

  const NO_LINKS: Links := Links(None, None, None, None, None, None, None)
  const NO_DATA: Data := Data(None, {}, None, None, None, None, None, None)
  const BLANK: Entity := Entity(None, None, NO_LINKS, NO_DATA)

  type Store = seq<Entity>

  function Children(s: Store, e: Id): seq<Id> {
    if e < |s| && s[e].block.Some? then s[e].block.value else []
  }

  predicate HasBlock(s: Store, e: Id) {
    e < |s| && s[e].block.Some?
  }

  predicate FlagSet(s: Store, e: Id, f: Flag) {
    e < |s| && f in s[e].data.flags
  }

  function Range(lo: Id, n: nat): (r: seq<Id>)
    ensures |r| == n && forall i :: 0 <= i < n ==> r[i] == lo + i
  {
    seq(n, i => lo + i)
  }

  // ---------- renamings: a table indexed by id, the identity beyond its end ----------

  type Renaming = seq<Id>

  function Sub(m: Renaming, r: Id): Id {
    if r < |m| then m[r] else r
  }

  lemma {:induction false} SubAt(m: Renaming, r: Id)
    requires r < |m|
    ensures Sub(m, r) == m[r]
  {}

  function Identity(n: nat): (m: Renaming)
    ensures |m| == n && forall i :: 0 <= i < n ==> m[i] == i
  {
    seq(n, i => i)
  }

  function SubIds(m: Renaming, xs: seq<Id>): (ys: seq<Id>)
    ensures |ys| == |xs|
    ensures forall i :: 0 <= i < |xs| ==> ys[i] == Sub(m, xs[i])
  {
    seq(|xs|, i requires 0 <= i < |xs| => Sub(m, xs[i]))
  }

  function SubOpt(m: Renaming, o: Option<Id>): Option<Id> {
    if o.Some? then Some(Sub(m, o.value)) else None
  }

  function SubOptIds(m: Renaming, o: Option<seq<Id>>): Option<seq<Id>> {
    if o.Some? then Some(SubIds(m, o.value)) else None
  }

  function SubPointer(m: Renaming, p: Option<Pointer>): Option<Pointer> {
    if p.Some? then Some(p.value.(base := Sub(m, p.value.base))) else None
  }

  // Every reference component, as the renumbering of sort.cpp:137-141 lists them.
  function MapLinks(m: Renaming, k: Links): Links {
    Links(SubOpt(m, k.returnType), SubOptIds(m, k.inputs), SubPointer(m, k.pointer), SubOpt(m, k.alias),
          SubOpt(m, k.typeOf), SubOpt(m, k.call), SubOpt(m, k.printAs))
  }

  function MapRefs(m: Renaming, x: Entity): Entity {
    Entity(SubOptIds(m, x.block), SubOpt(m, x.parent), MapLinks(m, x.links), x.data)
  }

  // The references `substitute_entities` rewrites: neither pointers nor print records.
  function SubstLinks(m: Renaming, k: Links): Links {
    Links(SubOpt(m, k.returnType), SubOptIds(m, k.inputs), k.pointer, SubOpt(m, k.alias),
          SubOpt(m, k.typeOf), SubOpt(m, k.call), k.printAs)
  }

  function SubstRefs(m: Renaming, x: Entity): Entity {
    Entity(SubOptIds(m, x.block), SubOpt(m, x.parent), SubstLinks(m, x.links), x.data)
  }

  // ---------- alias resolution ----------

  // The entity reached from `e` in at most `fuel` alias steps, if the chain ends by then.
  function ResolveIn(s: Store, e: Id, fuel: nat): Option<Id>
    decreases fuel
  {
    if e >= |s| || s[e].links.alias.None? then Some(e)
    else if fuel == 0 then None
    else ResolveIn(s, s[e].links.alias.value, fuel - 1)
  }

  // `None` exactly when following the aliases never ends: see ResolveNone.
  function Resolve(s: Store, e: Id): Option<Id> {
    ResolveIn(s, e, |s|)
  }

  lemma {:induction false} ResolveMore(s: Store, e: Id, fuel: nat, more: nat)
    requires ResolveIn(s, e, fuel).Some? && fuel <= more
    ensures ResolveIn(s, e, more) == ResolveIn(s, e, fuel)
    decreases fuel
  {
    if e < |s| && s[e].links.alias.Some? {
      ResolveMore(s, s[e].links.alias.value, fuel - 1, more - 1);
    }
  }

  lemma {:induction false} ResolveSame(s: Store, t: Store, e: Id, fuel: nat)
    requires |t| == |s| && forall y {:trigger t[y]} :: 0 <= y < |s| ==> t[y].links == s[y].links
    ensures ResolveIn(t, e, fuel) == ResolveIn(s, e, fuel)
    decreases fuel
  {
    if e < |s| && s[e].links.alias.Some? && fuel > 0 { ResolveSame(s, t, s[e].links.alias.value, fuel - 1); }
  }

  // The aliases that a given number of steps is enough to resolve.
  ghost function ResolvedAliases(s: Store, fuel: nat): set<Id> {
    set x: Id | x < |s| && s[x].links.alias.Some? && ResolveIn(s, x, fuel).Some?
  }

  lemma {:induction false} LongChainsVisitManyAliases(s: Store, e: Id, fuel: nat)
    requires ResolveIn(s, e, fuel).Some?
    requires fuel > 0 ==> ResolveIn(s, e, fuel - 1).None?
    ensures |ResolvedAliases(s, fuel)| >= fuel
    decreases fuel
  {
    if fuel > 0 {
      LongChainsVisitManyAliases(s, s[e].links.alias.value, fuel - 1);
      var small, big := ResolvedAliases(s, fuel - 1), ResolvedAliases(s, fuel);
      forall x | x in small ensures x in big { ResolveMore(s, x, fuel - 1, fuel); }
      assert small <= big - {e};
      CardinalityMonotone(small, big - {e});
    }
  }

  lemma {:induction false} CardinalityMonotone<T>(a: set<T>, b: set<T>)
    requires a <= b
    ensures |a| <= |b|
    decreases a
  {
    if a != {} {
      var x :| x in a;
      CardinalityMonotone(a - {x}, b - {x});
    }
  }

  ghost function Below(n: nat): (r: set<Id>)
    ensures forall x: Id :: x in r <==> x < n
    ensures |r| == n
  {
    if n == 0 then {} else Below(n - 1) + {n - 1}
  }

  // The step bound loses nothing: a chain that ends at all ends within it.
  lemma {:induction false} ResolveNone(s: Store, e: Id, fuel: nat)
    requires Resolve(s, e).None?
    ensures ResolveIn(s, e, fuel).None?
  {
    if ResolveIn(s, e, fuel).Some? {
      if fuel <= |s| { ResolveMore(s, e, fuel, |s|); assert false; }
      var least := |s|;
      while ResolveIn(s, e, least).None?
        invariant least <= fuel
        invariant least >= |s|
        invariant least == |s| || ResolveIn(s, e, least - 1).None?
        decreases fuel - least
      {
        least := least + 1;
      }
      LongChainsVisitManyAliases(s, e, least);
      CardinalityMonotone(ResolvedAliases(s, least), Below(|s|));
    }
  }

  /** The mutable module: one growing table of entities. */
  class Module {
    var ents: Store

    constructor ()
      ensures ents == [BLANK]
    {
      ents := [BLANK];
    }

    method AddEntity() returns (e: Id)
      modifies this
      ensures e == |old(ents)|
      ensures ents == old(ents) + [BLANK]
    {
      e := |ents|;
      ents := ents + [BLANK];
    }

    method ResolveAlias(e: Id) returns (r: Id)
      requires Resolve(ents, e).Some?
      ensures Some(r) == Resolve(ents, e)
    {
      r := FollowAliases(ents, e);
    }
  }

  // The loop of `alias::resolve`.
  method FollowAliases(s: Store, e: Id) returns (r: Id)
    requires Resolve(s, e).Some?
    ensures Some(r) == Resolve(s, e)
    ensures r < |s| ==> s[r].links.alias.None?
    ensures e >= |s| || s[e].links.alias.None? ==> r == e
  {
    r := e;
    ghost var fuel: nat := |s|;
    while r < |s| && s[r].links.alias.Some?
      invariant ResolveIn(s, r, fuel) == Resolve(s, e)
      invariant e >= |s| || s[e].links.alias.None? ==> r == e
      decreases fuel
    {
      r := s[r].links.alias.value;
      fuel := fuel - 1;
    }
  }
}
