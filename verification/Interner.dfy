/** The string interner: an arena of blocks, string_helpers.hpp:41-108. */
module Interner {
  import opened Wrappers
  import opened Store

  type Bytes = seq<byte>

  // A string as the interner hands it out: where its bytes begin, and how many there are.
  datatype View = View(block: nat, start: nat, length: nat)

  // The data pointers of two views are the same.
  predicate SamePointer(a: View, b: View) {
    a.block == b.block && a.start == b.start
  }

  // Views with their terminators do not overlap.
  predicate Apart(a: View, b: View) {
    a.block != b.block || a.start + a.length < b.start || b.start + b.length < a.start
  }

  // `v` is a view of the table, and it shows `s`.
  ghost predicate HandedOut(table: seq<View>, shown: seq<Bytes>, v: View, s: Bytes) {
    |table| == |shown| && exists k {:trigger table[k]} :: 0 <= k < |table| && table[k] == v && shown[k] == s
  }

  ghost predicate Once(xs: seq<Bytes>) {
    forall i, j :: 0 <= i < j < |xs| ==> xs[i] != xs[j]
  }

  class StringInterner {
    const blockSize: nat
    var offset: nat
    var blocks: seq<array<byte>>
    var table: seq<View>

    ghost predicate InBounds(v: View)
      reads this
    {
      && v.block < |blocks| && v.start + v.length < blocks[v.block].Length
      && (v.block == |blocks| - 1 ==> v.start + v.length < offset)
    }

    ghost predicate Shaped()
      reads this
    {
      && blockSize > 0 && blocks != [] && offset <= blocks[|blocks| - 1].Length
      && (forall i :: 0 <= i < |blocks| ==> blocks[i].Length >= blockSize)
      && (forall i, j :: 0 <= i < j < |blocks| ==> blocks[i] != blocks[j])
      && (forall i :: 0 <= i < |table| ==> InBounds(table[i]))
      && (forall i, j :: 0 <= i < j < |table| ==> Apart(table[i], table[j]))
    }

    // What a view shows.
    function Contents(v: View): (r: Bytes)
      requires v.block < |blocks| && v.start + v.length < blocks[v.block].Length
      reads this, blocks
    {
      blocks[v.block][v.start..v.start + v.length]
    }

    // What the first `n` views have in memory, terminators included.
    ghost function StoredFirst(n: nat): (r: seq<Bytes>)
      requires Shaped() && n <= |table|
      reads this, blocks
      ensures |r| == n && forall i :: 0 <= i < n ==> r[i] == Stored(table[i])
    {
      if n == 0 then [] else StoredFirst(n - 1) + [Stored(table[n - 1])]
    }

    // What all the views show, in the order in which they were handed out first.
    ghost function Shown(): (r: seq<Bytes>)
      requires Shaped()
      reads this, blocks
      ensures |r| == |table| && forall i :: 0 <= i < |table| ==> r[i] == Contents(table[i])
    {
      ShownFirst(|table|)
    }

    ghost function ShownFirst(n: nat): (r: seq<Bytes>)
      requires Shaped() && n <= |table|
      reads this, blocks
      ensures |r| == n && forall i :: 0 <= i < n ==> r[i] == Contents(table[i])
    {
      if n == 0 then [] else ShownFirst(n - 1) + [Contents(table[n - 1])]
    }

    // No string is there twice.
    ghost predicate Valid()
      reads this, blocks
    {
      && Shaped()
      && (forall i :: 0 <= i < |table| ==> blocks[table[i].block][table[i].start + table[i].length] == 0)
      && Once(Shown())
    }

    constructor (size: nat)
      requires size > 0
      ensures Valid() && table == [] && fresh(blocks) && blockSize == size
    {
      blockSize := size;
      var first := new byte[size](_ => 0);
      blocks := [first];
      offset := 0;
      table := [];
    }

    // A block size of zero is refused.
    static method Create(size: nat) returns (r: Option<StringInterner>)
      ensures r.None? <==> size == 0
      ensures r.Some? ==> fresh(r.value) && r.value.Valid() && r.value.table == [] && fresh(r.value.blocks)
    {
      if size == 0 { return None; }
      var interner := new StringInterner(size);
      r := Some(interner);
    }

    method Find(s: Bytes) returns (r: Option<View>)
      requires Valid()
      ensures r.Some? <==> s in Shown()
      ensures r.Some? ==> HandedOut(table, Shown(), r.value, s)
    {
      for i := 0 to |table|
        invariant forall j :: 0 <= j < i ==> Shown()[j] != s
      {
        if Contents(table[i]) == s {
          assert Shown()[i] == s;
          return Some(table[i]);
        }
      }
      r := None;
    }

    method AddBlock(size: nat)
      requires Shaped()
      modifies this`blocks, this`offset
      ensures offset == 0 && |blocks| == |old(blocks)| + 1 && blocks[..|old(blocks)|] == old(blocks)
      ensures fresh(blocks[|old(blocks)|]) && blocks[|old(blocks)|].Length == (if size != 0 then size else blockSize)
    {
      var n := if size != 0 then size else blockSize;
      var block := new byte[n](_ => 0);
      blocks := blocks + [block];
      offset := 0;
    }

    // Room for `s` and its terminator: in the last block, or in a new one.
    method Reserve(n: nat)
      requires Shaped() && n > 0
      modifies this`blocks, this`offset
      ensures Shaped() && offset + n <= blocks[|blocks| - 1].Length && old(blocks) <= blocks
      ensures forall i :: |old(blocks)| <= i < |blocks| ==> fresh(blocks[i])
      ensures Arena()[..|old(blocks)|] == old(Arena())
    {
      if offset + n > blockSize {
        AddBlock(if n > blockSize then n else blockSize);
        assert forall i :: 0 <= i < |old(blocks)| ==> blocks[i] == old(blocks)[i] && blocks[i][..] == old(blocks[i][..]);
      }
    }

    // Everything handed out lies before `start`, as far as it is in the last block.
    ghost predicate Roomy(start: nat)
      reads this`blocks, this`table
    {
      && blockSize > 0 && blocks != [] && start <= blocks[|blocks| - 1].Length
      && (forall i :: 0 <= i < |blocks| ==> blocks[i].Length >= blockSize)
      && (forall i, j :: 0 <= i < j < |blocks| ==> blocks[i] != blocks[j])
      && (forall i :: 0 <= i < |table| ==> Before(table[i], start))
      && (forall i, j :: 0 <= i < j < |table| ==> Apart(table[i], table[j]))
    }

    ghost predicate Before(v: View, start: nat)
      reads this`blocks
    {
      && v.block < |blocks| && v.start + v.length < blocks[v.block].Length
      && (v.block == |blocks| - 1 ==> v.start + v.length < start)
    }

    lemma ShapedIsRoomy()
      ensures Shaped() <==> Roomy(offset)
      ensures forall i {:trigger table[i]} :: 0 <= i < |table| ==> (InBounds(table[i]) <==> Before(table[i], offset))
    {}

    // The arena before a place in the last block is as it was in `arena`.
    ghost predicate Preserved(arena: seq<Bytes>, start: nat)
      reads this`blocks, blocks
    {
      && blocks != [] && |arena| <= |blocks|
      && (forall j :: 0 <= j < |arena| ==> |arena[j]| == blocks[j].Length)
      && (forall j :: 0 <= j < |arena| && j < |blocks| - 1 ==> blocks[j][..] == arena[j])
      && (|arena| == |blocks| ==> start <= |arena[|arena| - 1]| && blocks[|blocks| - 1][..start] == arena[|arena| - 1][..start])
    }

    // The bytes a view shows and the terminator after them.
    ghost function Stored(v: View): (r: Bytes)
      requires v.block < |blocks| && v.start + v.length < blocks[v.block].Length
      reads this`blocks, blocks
    {
      blocks[v.block][v.start..v.start + v.length + 1]
    }

    lemma StoredContents(v: View)
      requires v.block < |blocks| && v.start + v.length < blocks[v.block].Length
      ensures Stored(v) == Contents(v) + [blocks[v.block][v.start + v.length]]
    {}

    /** Copies a string into the arena: in bounds and apart from the others, which keep their bytes. */
    method Allocate(s: Bytes) returns (v: View)
      requires Shaped()
      modifies this`blocks, this`offset, blocks
      ensures Shaped() && InBounds(v) && Stored(v) == s + [0]
      ensures old(blocks) <= blocks && forall i :: |old(blocks)| <= i < |blocks| ==> fresh(blocks[i])
      ensures forall i :: 0 <= i < |table| ==> InBounds(table[i]) && Stored(table[i]) == old(Stored(table[i])) && Apart(table[i], v)
    {
      hide *;
      ghost var arena := Arena();
      AllStored(arena);
      Reserve(|s| + 1);
      ShapedIsRoomy();
      var last, start := |blocks| - 1, offset;
      AllPreserved(arena, start);
      Write(start, s, arena);
      offset := offset + |s| + 1;
      v := View(last, start, |s|);
      Allocated(v, s, arena);
    }

    // The bytes of `s` and a zero into the last block.
    method Write(start: nat, s: Bytes, ghost arena: seq<Bytes>)
      requires Roomy(start) && Preserved(arena, start) && start + |s| < blocks[|blocks| - 1].Length
      modifies blocks
      ensures Preserved(arena, start) && Stored(View(|blocks| - 1, start, |s|)) == s + [0]
    {
      var last := |blocks| - 1;
      Copy(blocks[last], start, s);
      assert forall j :: 0 <= j < last ==> blocks[j][..] == old(blocks[j][..]);
      assert Stored(View(last, start, |s|)) == blocks[last][start..start + |s|] + [blocks[last][start + |s|]];
    }

    lemma AllStored(arena: seq<Bytes>)
      requires Shaped() && arena == Arena()
      ensures |arena| == |blocks| && forall i {:trigger table[i]} :: 0 <= i < |table| ==> table[i].block < |arena| && Stored(table[i]) == Shows(arena, table[i])
    {
      forall i | 0 <= i < |table| ensures Stored(table[i]) == Shows(arena, table[i]) { StoredIn(table[i], arena); }
    }

    lemma AllPreserved(arena: seq<Bytes>, start: nat)
      requires Roomy(start) && |arena| <= |blocks| && Arena()[..|arena|] == arena
      ensures Preserved(arena, start)
    {
      forall j | 0 <= j < |arena| ensures blocks[j][..] == arena[j] { assert Arena()[..|arena|][j] == Arena()[j]; }
      if |arena| == |blocks| {
        assert blocks[|blocks| - 1][..start] == blocks[|blocks| - 1][..][..start];
      }
    }

    lemma Allocated(v: View, s: Bytes, arena: seq<Bytes>)
      requires Roomy(v.start) && Preserved(arena, v.start) && v.block == |blocks| - 1 && v.length == |s|
      requires v.start + |s| < blocks[v.block].Length && offset == v.start + |s| + 1 && Stored(v) == s + [0]
      requires forall i {:trigger table[i]} :: 0 <= i < |table| ==> table[i].block < |arena|
      ensures Shaped() && InBounds(v)
      ensures forall i {:trigger table[i]} :: 0 <= i < |table| ==> InBounds(table[i]) && Stored(table[i]) == Shows(arena, table[i]) && Apart(table[i], v)
    {
      assert forall i :: 0 <= i < |table| ==> Before(table[i], v.start);
      ShapedIsRoomy();
      hide Stored, Shows, Preserved;
      forall i | 0 <= i < |table| ensures Stored(table[i]) == Shows(arena, table[i]) { Unmoved(table[i], arena, v.start); }
    }

    // All the bytes there are.
    ghost function Arena(): (r: seq<Bytes>)
      reads this, blocks
      ensures |r| == |blocks| && forall i :: 0 <= i < |blocks| ==> r[i] == blocks[i][..]
    {
      seq(|blocks|, i requires 0 <= i < |blocks| reads this, blocks => blocks[i][..])
    }

    static ghost function Shows(arena: seq<Bytes>, v: View): Bytes {
      if v.block < |arena| && v.start + v.length < |arena[v.block]| then arena[v.block][v.start..v.start + v.length + 1] else []
    }

    lemma StoredIn(v: View, arena: seq<Bytes>)
      requires v.block < |blocks| && v.start + v.length < blocks[v.block].Length
      requires v.block < |arena| && arena[v.block] == blocks[v.block][..]
      ensures Stored(v) == Shows(arena, v)
    {}

    // What lies in another block, or before the bytes written, is as it was.
    lemma Unmoved(v: View, arena: seq<Bytes>, start: nat)
      requires Before(v, start) && v.block < |arena| && Preserved(arena, start)
      ensures Stored(v) == Shows(arena, v)
    {
      var last := |blocks| - 1;
      if v.block == last {
        var from, to := v.start, v.start + v.length + 1;
        assert Shows(arena, v) == arena[last][..start][from..to];
        assert Stored(v) == blocks[last][..start][from..to];
      } else {
        StoredIn(v, arena);
      }
    }

    /**
     Interns a string.  A string that is there already is handed out again and nothing changes; a new one is
     copied into the arena, in bounds and apart from all others, and those keep their bytes.
     */
    method Intern(s: Bytes) returns (v: View)
      requires Valid()
      modifies this, blocks
      ensures Valid() && HandedOut(table, Shown(), v, s)
      ensures s in old(Shown()) ==> table == old(table) && Shown() == old(Shown())
      ensures s !in old(Shown()) ==> table == old(table) + [v] && Shown() == old(Shown()) + [s]
      ensures old(blocks) <= blocks && forall i :: |old(blocks)| <= i < |blocks| ==> fresh(blocks[i])
    {
      hide HandedOut, Once, Shown, StoredFirst;
      var found := Find(s);
      if found.Some? { return found.value; }
      ghost var stored, shown := StoredFirst(|table|), Shown();
      StoredShown(stored, shown);
      v := Allocate(s);
      Extended(v, s, stored, shown);
      Enter(v, s, shown);
    }

    // The new view joins the table.
    method Enter(v: View, ghost s: Bytes, ghost shown: seq<Bytes>)
      requires Shaped() && InBounds(v) && Contents(v) == s && blocks[v.block][v.start + v.length] == 0
      requires |shown| == |table| && Once(shown) && s !in shown
      requires forall i :: 0 <= i < |table| ==>
                 Contents(table[i]) == shown[i] && blocks[table[i].block][table[i].start + table[i].length] == 0 && Apart(table[i], v)
      modifies this`table
      ensures Valid() && table == old(table) + [v] && Shown() == shown + [s] && HandedOut(table, Shown(), v, s)
    {
      ghost var before := table;
      table := table + [v];
      EnteredShape(before, v);
      Entered(before, v, s, shown);
    }

    lemma EnteredShape(before: seq<View>, v: View)
      requires table == before + [v] && InBounds(v) && blockSize > 0 && blocks != [] && offset <= blocks[|blocks| - 1].Length
      requires forall i :: 0 <= i < |blocks| ==> blocks[i].Length >= blockSize
      requires forall i, j :: 0 <= i < j < |blocks| ==> blocks[i] != blocks[j]
      requires forall i :: 0 <= i < |before| ==> InBounds(before[i]) && Apart(before[i], v)
      requires forall i, j :: 0 <= i < j < |before| ==> Apart(before[i], before[j])
      ensures Shaped()
    {}

    lemma Entered(before: seq<View>, v: View, s: Bytes, shown: seq<Bytes>)
      requires Shaped() && table == before + [v] && |shown| == |before| && Once(shown) && s !in shown
      requires forall i :: 0 <= i < |before| ==>
                 InBounds(before[i]) && Contents(before[i]) == shown[i] && blocks[before[i].block][before[i].start + before[i].length] == 0
      requires InBounds(v) && Contents(v) == s && blocks[v.block][v.start + v.length] == 0
      ensures Valid() && Shown() == shown + [s] && HandedOut(table, Shown(), v, s)
    {
      hide Shaped, InBounds, Contents;
      assert forall i {:trigger table[i]} :: 0 <= i < |before| ==> table[i] == before[i];
      assert table[|before|] == v;
      assert Shown() == shown + [s];
      assert Shown()[|before|] == s;
    }

    // What is stored is what is shown and a zero.
    lemma StoredShown(stored: seq<Bytes>, shown: seq<Bytes>)
      requires Valid() && stored == StoredFirst(|table|) && shown == Shown()
      ensures Once(shown) && forall i :: 0 <= i < |table| ==> Stored(table[i]) == stored[i]
      ensures |stored| == |shown| == |table| && forall i :: 0 <= i < |shown| ==> stored[i] == shown[i] + [0]
    {
      forall i | 0 <= i < |shown| ensures stored[i] == shown[i] + [0] { StoredContents(table[i]); }
    }

    // After an allocation the views there were show what they did.
    lemma Extended(v: View, s: Bytes, stored: seq<Bytes>, shown: seq<Bytes>)
      requires Shaped() && InBounds(v) && Stored(v) == s + [0]
      requires |stored| == |shown| == |table| && forall i :: 0 <= i < |shown| ==> stored[i] == shown[i] + [0]
      requires forall i :: 0 <= i < |table| ==> Stored(table[i]) == stored[i]
      ensures forall i :: 0 <= i < |table| ==> Contents(table[i]) == shown[i] && blocks[table[i].block][table[i].start + table[i].length] == 0
      ensures Contents(v) == s && blocks[v.block][v.start + v.length] == 0
    {
      forall i | 0 <= i < |table|
        ensures Contents(table[i]) == shown[i] && blocks[table[i].block][table[i].start + table[i].length] == 0
      {
        StoredContents(table[i]);
        LastOf(Contents(table[i]), blocks[table[i].block][table[i].start + table[i].length], shown[i], 0);
      }
      StoredContents(v);
      LastOf(Contents(v), blocks[v.block][v.start + v.length], s, 0);
    }

    static lemma LastOf(a: Bytes, x: byte, b: Bytes, y: byte)
      requires a + [x] == b + [y]
      ensures a == b && x == y
    {
      assert |a + [x]| == |b + [y]|;
      assert (a + [x])[..|a|] == a && (b + [y])[..|b|] == b;
      assert (a + [x])[|a|] == x && (b + [y])[|b|] == y;
    }

    // The bytes of `s` and a zero; the rest of the block stays.
    static method Copy(block: array<byte>, start: nat, s: Bytes)
      requires start + |s| < block.Length
      modifies block
      ensures block[..start] == old(block[..start]) && block[start..start + |s|] == s && block[start + |s|] == 0
    {
      for i := 0 to |s|
        invariant block[..start] == old(block[..start]) && block[start..start + i] == s[..i]
      {
        block[start + i] := s[i];
        assert block[start..start + i + 1] == block[start..start + i] + [s[i]];
      }
      assert s[..|s|] == s;
      block[start + |s|] := 0;
    }

    ghost function ShownNow(): seq<Bytes>
      reads this, blocks
    {
      if Shaped() then Shown() else []
    }

    lemma NowIs()
      requires Valid()
      ensures Shaped() && ShownNow() == Shown()
    {}

    lemma Results(a: View, s: Bytes, b: View, t: Bytes)
      requires Valid() && HandedOut(table, Shown(), a, s) && HandedOut(table, Shown(), b, t)
      ensures InBounds(a) && Contents(a) == s && (SamePointer(a, b) <==> s == t) && (s != t ==> Apart(a, b))
    {
      var i :| 0 <= i < |table| && table[i] == a && Shown()[i] == s;
      var j :| 0 <= j < |table| && table[j] == b && Shown()[j] == t;
      PointersAreContents(i, j);
    }

    /** In a valid interner two views have the same data pointer exactly when they show the same bytes. */
    lemma PointersAreContents(i: nat, j: nat)
      requires Valid() && i < |table| && j < |table|
      ensures SamePointer(table[i], table[j]) <==> Shown()[i] == Shown()[j]
      ensures Shown()[i] != Shown()[j] ==> Apart(table[i], table[j])
    {
      if i < j { assert Apart(table[i], table[j]); }
      if j < i { assert Apart(table[j], table[i]); }
    }
  }

  lemma {:induction false} StillHandedOut(table: seq<View>, shown: seq<Bytes>, table': seq<View>, shown': seq<Bytes>, v: View, s: Bytes)
    requires HandedOut(table, shown, v, s) && table <= table' && shown <= shown' && |table'| == |shown'|
    ensures HandedOut(table', shown', v, s)
  {
    var k :| 0 <= k < |table| && table[k] == v && shown[k] == s;
    assert table'[k] == v && shown'[k] == s;
  }

  /**
   Any sequence of strings: afterwards two results have the same data pointer exactly when the strings were
   equal, every result still shows its string, and no two different ones overlap.
   */
  method InternAll(interner: StringInterner, strings: seq<Bytes>) returns (views: seq<View>)
    requires interner.Valid()
    modifies interner, interner.blocks
    ensures interner.Valid() && |views| == |strings|
    ensures forall i :: 0 <= i < |views| ==> interner.InBounds(views[i]) && interner.Contents(views[i]) == strings[i]
    ensures forall i, j :: 0 <= i < |views| && 0 <= j < |views| ==> (SamePointer(views[i], views[j]) <==> strings[i] == strings[j])
    ensures forall i, j :: 0 <= i < |views| && 0 <= j < |views| && strings[i] != strings[j] ==> Apart(views[i], views[j])
  {
    hide StringInterner.Valid, StringInterner.Shown, AllHandedOut, HandedOut;
    views := [];
    ghost var known := interner.blocks;
    AllStart(interner.table, interner.ShownNow());
    for n := 0 to |strings|
      invariant interner.Valid() && |views| == n
      invariant known <= interner.blocks && forall i :: |known| <= i < |interner.blocks| ==> fresh(interner.blocks[i])
      invariant AllHandedOut(interner.table, interner.ShownNow(), views, strings[..n])
    {
      ghost var table, shown := interner.table, interner.ShownNow();
      interner.NowIs();
      var v := interner.Intern(strings[n]);
      interner.NowIs();
      AllNext(table, shown, interner.table, interner.ShownNow(), views, strings, n, v);
      views := views + [v];
    }
    assert strings[..|strings|] == strings;
    forall i, j | 0 <= i < |views| && 0 <= j < |views|
      ensures interner.InBounds(views[i]) && interner.Contents(views[i]) == strings[i]
      ensures SamePointer(views[i], views[j]) <==> strings[i] == strings[j]
      ensures strings[i] != strings[j] ==> Apart(views[i], views[j])
    {
      interner.NowIs();
      AllAt(interner.table, interner.ShownNow(), views, strings, i);
      AllAt(interner.table, interner.ShownNow(), views, strings, j);
      interner.Results(views[i], strings[i], views[j], strings[j]);
    }
  }

  ghost predicate AllHandedOut(table: seq<View>, shown: seq<Bytes>, views: seq<View>, strings: seq<Bytes>) {
    |views| == |strings| && forall i {:trigger views[i]} :: 0 <= i < |views| ==> HandedOut(table, shown, views[i], strings[i])
  }

  lemma {:induction false} AllStart(table: seq<View>, shown: seq<Bytes>)
    ensures forall strings: seq<Bytes> :: AllHandedOut(table, shown, [], strings[..0])
  {}

  lemma {:induction false} AllAt(table: seq<View>, shown: seq<Bytes>, views: seq<View>, strings: seq<Bytes>, i: nat)
    requires AllHandedOut(table, shown, views, strings) && i < |views|
    ensures i < |strings| && HandedOut(table, shown, views[i], strings[i])
  {}

  lemma {:induction false} AllNext(table: seq<View>, shown: seq<Bytes>, table': seq<View>, shown': seq<Bytes>,
                                   views: seq<View>, strings: seq<Bytes>, n: nat, v: View)
    requires n < |strings| && AllHandedOut(table, shown, views, strings[..n]) && HandedOut(table', shown', v, strings[n])
    requires table <= table' && shown <= shown'
    ensures AllHandedOut(table', shown', views + [v], strings[..n + 1])
  {
    forall i | 0 <= i < n ensures HandedOut(table', shown', views[i], strings[i]) {
      assert HandedOut(table, shown, views[i], strings[..n][i]);
      StillHandedOut(table, shown, table', shown', views[i], strings[i]);
    }
  }
}
