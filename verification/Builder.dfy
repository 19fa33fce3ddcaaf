/** Growing a block: the builder operations of interface.cpp. */
module Builder {
  import opened Wrappers
  import opened Store
  import opened Shapes

  // A fresh entity `x` becomes the last, or the first, child of `b`.
  function Pushed(s: Store, b: Id, x: Entity, append: bool): (t: Store)
    requires b < |s| && s[b].block.Some?
    ensures |t| == |s| + 1 && t[|s|] == x
    ensures t[b] == s[b].(block := Some(if append then s[b].block.value + [|s|] else [|s|] + s[b].block.value))
    ensures forall y {:trigger t[y]} :: 0 <= y < |s| && y != b ==> t[y] == s[y]
  {
    (s + [x])[b := s[b].(block := Some(if append then s[b].block.value + [|s|] else [|s|] + s[b].block.value))]
  }

  // "_" stands for an anonymous entity.
  function NameOf(name: string): Option<string> {
    if name == "_" then None else Some(name)
  }

  function Fresh(b: Id, name: string): Entity {
    BLANK.(parent := Some(b), data := NO_DATA.(name := NameOf(name)))
  }

  method PushCommon(mod: Module, b: Id, name: string, append: bool) returns (out: Id)
    requires b < |mod.ents| && mod.ents[b].block.Some?
    modifies mod
    ensures out == |old(mod.ents)| && mod.ents == Pushed(old(mod.ents), b, Fresh(b, name), append)
    ensures var s, x := old(mod.ents), mod.ents[out];
            && x.parent == Some(b) && x.data.name == (if name == "_" then None else Some(name)) && x.links == NO_LINKS && x.block == None
            && mod.ents[b].block == Some(if append then s[b].block.value + [out] else [out] + s[b].block.value)
  {
    out := mod.AddEntity();
    if name != "_" {
      mod.ents := mod.ents[out := mod.ents[out].(data := mod.ents[out].data.(name := Some(name)))];
    }
    mod.ents := mod.ents[out := mod.ents[out].(parent := Some(b))];
    var related := mod.ents[b].block.value;
    mod.ents := mod.ents[b := mod.ents[b].(block := Some(if append then related + [out] else [out] + related))];
  }

  function AliasEntity(b: Id, name: string, ref: Id): Entity {
    Fresh(b, name).(links := NO_LINKS.(alias := Some(ref)))
  }

  method PushAlias(mod: Module, b: Id, name: string, ref: Id) returns (out: Id)
    requires b < |mod.ents| && mod.ents[b].block.Some?
    modifies mod
    ensures out == |old(mod.ents)| && mod.ents == Pushed(old(mod.ents), b, AliasEntity(b, name, ref), true)
    ensures mod.ents[out].links == NO_LINKS.(alias := Some(ref)) && mod.ents[out].data.name == if name == "_" then None else Some(name)
  {
    out := PushCommon(mod, b, name, true);
    mod.ents := mod.ents[out := mod.ents[out].(links := mod.ents[out].links.(alias := Some(ref)))];
  }

  function NumberEntity(b: Id, name: string, type_: Id, value: nat): Entity {
    var x := Fresh(b, name);
    x.(links := NO_LINKS.(typeOf := Some(type_)), data := x.data.(number := Some(value), flags := {Comptime}))
  }

  method PushNumber(mod: Module, b: Id, name: string, type_: Id, value: nat) returns (out: Id)
    requires b < |mod.ents| && mod.ents[b].block.Some?
    modifies mod
    ensures out == |old(mod.ents)| && mod.ents == Pushed(old(mod.ents), b, NumberEntity(b, name, type_, value), true)
    ensures mod.ents[out].links == NO_LINKS.(typeOf := Some(type_))
    ensures mod.ents[out].data.number == Some(value) && mod.ents[out].data.flags == {Comptime}
  {
    out := PushCommon(mod, b, name, true);
    var x := mod.ents[out];
    assert x.data.flags + {Comptime} == {Comptime};
    mod.ents := mod.ents[out := x.(links := x.links.(typeOf := Some(type_)),
                                   data := x.data.(number := Some(value), flags := x.data.flags + {Comptime}))];
  }

  function CallEntity(b: Id, name: string, type_: Id, function_: Id, arguments: seq<Id>): Entity {
    Fresh(b, name).(links := NO_LINKS.(typeOf := Some(type_), call := Some(function_), inputs := Some(arguments)))
  }

  method PushCall(mod: Module, b: Id, name: string, type_: Id, function_: Id, arguments: seq<Id>) returns (out: Id)
    requires b < |mod.ents| && mod.ents[b].block.Some?
    modifies mod
    ensures out == |old(mod.ents)| && mod.ents == Pushed(old(mod.ents), b, CallEntity(b, name, type_, function_, arguments), true)
    ensures mod.ents[out].links == NO_LINKS.(typeOf := Some(type_), call := Some(function_), inputs := Some(arguments))
  {
    out := PushCommon(mod, b, name, true);
    var x := mod.ents[out];
    mod.ents := mod.ents[out := x.(links := x.links.(typeOf := Some(type_), call := Some(function_), inputs := Some(arguments)))];
  }
}
