/** Which registers the allocate pass gives out, and when they differ: opt/allocate_registers.hpp:12-46. */
module Registers {
  import opened Wrappers
  import opened Store
  import opened Allocate

  // The state before visit `i`, and the register given out by it.
  function StateAt(s: Store, names: Names, a: State, order: seq<Id>, i: nat): State
    requires i <= |order|
  {
    if i == 0 then a else Visited(s, names, StateAt(s, names, a, order, i - 1), order[i - 1]).0
  }

  function RegisterAt(s: Store, names: Names, a: State, order: seq<Id>, i: nat): Option<nat>
    requires i < |order|
  {
    Visited(s, names, StateAt(s, names, a, order, i), order[i]).1
  }

  predicate Low(order: seq<Id>, i: nat) {
    i < |order| && order[i] < LOW
  }

  predicate Given(s: Store, names: Names, a: State, order: seq<Id>, i: nat) {
    i < |order| && RegisterAt(s, names, a, order, i).Some?
  }

  lemma {:induction false} StateAtStep(s: Store, names: Names, a: State, order: seq<Id>, i: nat)
    requires i < |order|
    ensures StateAt(s, names, a, order, i + 1) == Visited(s, names, StateAt(s, names, a, order, i), order[i]).0
  {}

  lemma {:induction false} StateAtTail(s: Store, names: Names, a: State, order: seq<Id>, i: nat)
    requires 0 < i <= |order|
    ensures StateAt(s, names, a, order, i) == StateAt(s, names, Visited(s, names, a, order[0]).0, order[1..], i - 1)
  {
    hide Visited;
    if i > 1 { StateAtTail(s, names, a, order, i - 1); }
  }

  /** The register an entity gets is the one its visit gives out. */
  lemma {:induction false} AssignedAt(s: Store, names: Names, a: State, order: seq<Id>, i: nat)
    requires i < |order| && order[i] !in order[..i]
    ensures Assigned(s, names, a, order, order[i]) == RegisterAt(s, names, a, order, i)
    decreases |order|
  {
    hide Visited;
    if i > 0 {
      assert order[0] == order[..i][0];
      assert order[1..][..i - 1] == order[..i][1..];
      AssignedAt(s, names, Visited(s, names, a, order[0]).0, order[1..], i - 1);
      StateAtTail(s, names, a, order, i);
    }
  }

  // ---------- who gets a register ----------

  // Allocation has begun before visit `i`, and no low id has ended it.
  ghost predicate Begun(s: Store, names: Names, a: State, order: seq<Id>, i: nat) {
    || (a.allocating && forall j :: 0 <= j < i ==> !Low(order, j))
    || exists b: nat :: b < i && BeginsAt(s, names, order, b) && forall j :: b < j < i ==> !Low(order, j)
  }

  predicate BeginsAt(s: Store, names: Names, order: seq<Id>, b: nat) {
    b < |order| && Begins(s, names, order[b])
  }

  lemma {:induction false} AllocatingIff(s: Store, names: Names, a: State, order: seq<Id>, i: nat)
    requires i <= |order|
    ensures StateAt(s, names, a, order, i).allocating <==> Begun(s, names, a, order, i)
  {
    if i > 0 {
      AllocatingIff(s, names, a, order, i - 1);
      StateAtStep(s, names, a, order, i - 1);
      var before, after := Begun(s, names, a, order, i - 1), Begun(s, names, a, order, i);
      var low, begins := Low(order, i - 1), BeginsAt(s, names, order, i - 1);
      assert StateAt(s, names, a, order, i).allocating <==> (!low && before) || begins;
      hide StateAt, Visited, Begins, Low, BeginsAt;
      BegunStep(s, names, a, order, i);
    }
  }

  lemma {:induction false} BegunStep(s: Store, names: Names, a: State, order: seq<Id>, i: nat)
    requires 0 < i <= |order|
    ensures Begun(s, names, a, order, i) <==> (!Low(order, i - 1) && Begun(s, names, a, order, i - 1)) || BeginsAt(s, names, order, i - 1)
  {
    hide Low, BeginsAt;
    if !Low(order, i - 1) && Begun(s, names, a, order, i - 1) {
      if b: nat :| b < i - 1 && BeginsAt(s, names, order, b) && forall j :: b < j < i - 1 ==> !Low(order, j) {
        assert forall j :: b < j < i ==> !Low(order, j);
      }
    }
    if Begun(s, names, a, order, i) && !BeginsAt(s, names, order, i - 1) {
      if b: nat :| b < i && BeginsAt(s, names, order, b) && forall j :: b < j < i ==> !Low(order, j) {
        assert b < i - 1;
      }
    }
  }

  /**
   Exactly those visits give out a register that come to an unpinned number, text or call with an id that is
   not low, after a call that begins allocation, with no low id in between.
   */
  lemma {:induction false} GivenIff(s: Store, names: Names, a: State, order: seq<Id>, i: nat)
    requires i < |order|
    ensures Given(s, names, a, order, i) <==>
              var e := order[i];
              && 5 <= e < |s| && (s[e].data.number.Some? || s[e].data.text.Some? || s[e].links.call.Some?) && s[e].data.register.None?
              && (|| (a.allocating && forall j :: 0 <= j < i ==> order[j] >= 5)
                  || exists b :: 0 <= b < i && order[b] < |s| && s[order[b]].links.call == Some(names.begin) && forall j :: b < j < i ==> order[j] >= 5)
  {
    AllocatingIff(s, names, a, order, i);
    BegunIff(s, names, a, order, i);
    hide Begun, StateAt;
  }

  lemma {:induction false} BegunIff(s: Store, names: Names, a: State, order: seq<Id>, i: nat)
    requires i <= |order|
    ensures Begun(s, names, a, order, i) <==>
              || (a.allocating && forall j :: 0 <= j < i ==> order[j] >= 5)
              || exists b :: 0 <= b < i && order[b] < |s| && s[order[b]].links.call == Some(names.begin) && forall j :: b < j < i ==> order[j] >= 5
  {
    assert forall j :: 0 <= j < i ==> (Low(order, j) <==> order[j] < 5);
    assert forall b :: 0 <= b < i ==> (BeginsAt(s, names, order, b) <==> order[b] < |s| && s[order[b]].links.call == Some(names.begin));
    hide Low, BeginsAt;
    if b: nat :| b < i && BeginsAt(s, names, order, b) && forall j :: b < j < i ==> !Low(order, j) {
      assert forall j :: b < j < i ==> order[j] >= 5;
    }
    if b :| 0 <= b < i && order[b] < |s| && s[order[b]].links.call == Some(names.begin) && forall j :: b < j < i ==> order[j] >= 5 {
      assert BeginsAt(s, names, order, b);
      assert forall j :: b < j < i ==> !Low(order, j);
    }
  }

  // ---------- when registers differ ----------

  ghost predicate Differ(s: Store, names: Names, a: State, order: seq<Id>) {
    forall i: nat, k: nat {:trigger Given(s, names, a, order, i), Given(s, names, a, order, k)} ::
      i < k && Given(s, names, a, order, i) && Given(s, names, a, order, k) ==>
        RegisterAt(s, names, a, order, i) != RegisterAt(s, names, a, order, k)
  }

  // How many of the visits from `lo` on, before `hi`, give out a register.
  function GivenCount(s: Store, names: Names, a: State, order: seq<Id>, lo: nat, hi: nat): nat {
    if hi <= lo then 0 else GivenCount(s, names, a, order, lo, hi - 1) + (if Given(s, names, a, order, hi - 1) then 1 else 0)
  }

  ghost predicate NoLow(order: seq<Id>, lo: nat, hi: nat) {
    forall z: nat {:trigger Low(order, z)} :: lo <= z < hi ==> !Low(order, z)
  }

  // `z` is the last low visit before `k`.
  ghost predicate LastLow(order: seq<Id>, z: nat, k: nat) {
    z < k && Low(order, z) && NoLow(order, z + 1, k)
  }

  /**
   Low ids do no harm.  A register given out before a low visit and one given out after it are apart for
   one of two reasons.  The first is the very first one and the numbers began at 0; or what was given out
   after the low visit has not come up to where the numbers began.  No low visit comes before both.
   */
  ghost predicate LowApart(s: Store, names: Names, a: State, order: seq<Id>) {
    forall i: nat, z: nat, k: nat {:trigger Given(s, names, a, order, i), LastLow(order, z, k)} ::
      i < z && LastLow(order, z, k) && Given(s, names, a, order, i) && Given(s, names, a, order, k) ==>
        NoLow(order, 0, i) && (a.next + GivenCount(s, names, a, order, 0, i) == 0 || 1 + GivenCount(s, names, a, order, z, k) < a.next)
  }

  lemma {:induction false} GivenIsNext(s: Store, names: Names, a: State, order: seq<Id>, i: nat)
    requires Given(s, names, a, order, i)
    ensures !Low(order, i) && RegisterAt(s, names, a, order, i) == Some(StateAt(s, names, a, order, i).next)
  {
    hide StateAt;
  }

  lemma {:induction false} NextStep(s: Store, names: Names, a: State, order: seq<Id>, i: nat)
    requires i < |order| && !Low(order, i)
    ensures StateAt(s, names, a, order, i + 1).next == StateAt(s, names, a, order, i).next + (if Given(s, names, a, order, i) then 1 else 0)
  {
    StateAtStep(s, names, a, order, i);
    hide StateAt;
  }

  lemma {:induction false} NextAfterLow(s: Store, names: Names, a: State, order: seq<Id>, z: nat)
    requires Low(order, z)
    ensures StateAt(s, names, a, order, z + 1).next == 1 && !Given(s, names, a, order, z)
  {
    StateAtStep(s, names, a, order, z);
    hide StateAt;
  }

  // Away from low ids the numbers go up by one for every register given out.
  lemma {:induction false} NextCounts(s: Store, names: Names, a: State, order: seq<Id>, lo: nat, hi: nat)
    requires lo <= hi <= |order| && NoLow(order, lo, hi)
    ensures StateAt(s, names, a, order, hi).next == StateAt(s, names, a, order, lo).next + GivenCount(s, names, a, order, lo, hi)
    decreases hi
  {
    hide StateAt, Given, Low;
    if lo < hi {
      NextCounts(s, names, a, order, lo, hi - 1);
      assert !Low(order, hi - 1);
      NextStep(s, names, a, order, hi - 1);
    }
  }

  // Every number passed is given out on the way.
  lemma {:induction false} NextReaches(s: Store, names: Names, a: State, order: seq<Id>, lo: nat, hi: nat, v: nat) returns (m: nat)
    requires lo <= hi <= |order| && NoLow(order, lo, hi)
    requires StateAt(s, names, a, order, lo).next <= v < StateAt(s, names, a, order, hi).next
    ensures lo <= m < hi && Given(s, names, a, order, m) && RegisterAt(s, names, a, order, m) == Some(v)
    decreases hi
  {
    hide StateAt, Given, Low, RegisterAt;
    assert lo < hi;
    assert !Low(order, hi - 1);
    NextStep(s, names, a, order, hi - 1);
    if v < StateAt(s, names, a, order, hi - 1).next {
      m := NextReaches(s, names, a, order, lo, hi - 1, v);
    } else {
      m := hi - 1;
      GivenIsNext(s, names, a, order, m);
    }
  }

  lemma {:induction false} FindLastLow(order: seq<Id>, z: nat, k: nat) returns (last: nat)
    requires z < k && Low(order, z)
    ensures z <= last && LastLow(order, last, k)
    decreases k - z
  {
    hide Low;
    if z': nat :| z < z' < k && Low(order, z') {
      last := FindLastLow(order, z', k);
    } else {
      last := z;
    }
  }

  lemma {:induction false} CountFromLow(s: Store, names: Names, a: State, order: seq<Id>, z: nat, k: nat)
    requires z < k && !Given(s, names, a, order, z)
    ensures GivenCount(s, names, a, order, z, k) == GivenCount(s, names, a, order, z + 1, k)
    decreases k
  {
    hide Given;
    if z + 1 < k { CountFromLow(s, names, a, order, z, k - 1); }
  }

  // What a register after a low id is.
  lemma {:induction false} RegisterAfterLow(s: Store, names: Names, a: State, order: seq<Id>, z: nat, k: nat)
    requires LastLow(order, z, k) && Given(s, names, a, order, k)
    ensures RegisterAt(s, names, a, order, k) == Some(1 + GivenCount(s, names, a, order, z, k))
  {
    hide StateAt, Given, Low, RegisterAt;
    GivenInOrder(s, names, a, order, k);
    NextAfterLow(s, names, a, order, z);
    NextCounts(s, names, a, order, z + 1, k);
    CountFromLow(s, names, a, order, z, k);
    GivenIsNext(s, names, a, order, k);
  }

  // What a register before every low id is.
  lemma {:induction false} RegisterBeforeLow(s: Store, names: Names, a: State, order: seq<Id>, i: nat)
    requires NoLow(order, 0, i) && Given(s, names, a, order, i)
    ensures RegisterAt(s, names, a, order, i) == Some(a.next + GivenCount(s, names, a, order, 0, i))
  {
    hide Given, Low, RegisterAt;
    GivenInOrder(s, names, a, order, i);
    NextCounts(s, names, a, order, 0, i);
    GivenIsNext(s, names, a, order, i);
  }

  lemma {:induction false} GivenInOrder(s: Store, names: Names, a: State, order: seq<Id>, i: nat)
    requires Given(s, names, a, order, i)
    ensures i < |order| && !Low(order, i)
  {
    GivenIsNext(s, names, a, order, i);
  }

  // The registers of a stretch after a low id begin with 1.
  lemma {:induction false} UpFromOne(s: Store, names: Names, a: State, order: seq<Id>, z: nat, k: nat, v: nat) returns (m: nat)
    requires LastLow(order, z, k) && Given(s, names, a, order, k) && 1 <= v <= 1 + GivenCount(s, names, a, order, z, k)
    ensures z < m <= k && Given(s, names, a, order, m) && RegisterAt(s, names, a, order, m) == Some(v)
  {
    hide StateAt, Given, Low, RegisterAt, GivenCount;
    GivenInOrder(s, names, a, order, k);
    NextAfterLow(s, names, a, order, z);
    RegisterAfterLow(s, names, a, order, z, k);
    GivenIsNext(s, names, a, order, k);
    NextStep(s, names, a, order, k);
    m := NextReaches(s, names, a, order, z + 1, k + 1, v);
  }

  // The registers of the stretch before every low id begin where the numbers did.
  lemma {:induction false} UpFromStart(s: Store, names: Names, a: State, order: seq<Id>, i: nat, v: nat) returns (m: nat)
    requires NoLow(order, 0, i) && Given(s, names, a, order, i) && a.next <= v <= a.next + GivenCount(s, names, a, order, 0, i)
    ensures m <= i && Given(s, names, a, order, m) && RegisterAt(s, names, a, order, m) == Some(v)
  {
    hide Given, Low, RegisterAt, GivenCount;
    GivenInOrder(s, names, a, order, i);
    RegisterBeforeLow(s, names, a, order, i);
    GivenIsNext(s, names, a, order, i);
    NextStep(s, names, a, order, i);
    assert StateAt(s, names, a, order, 0) == a;
    m := NextReaches(s, names, a, order, 0, i + 1, v);
  }

  lemma {:induction false} ApartDiffers(s: Store, names: Names, a: State, order: seq<Id>, i: nat, k: nat)
    requires LowApart(s, names, a, order) && i < k && Given(s, names, a, order, i) && Given(s, names, a, order, k)
    ensures RegisterAt(s, names, a, order, i) != RegisterAt(s, names, a, order, k)
  {
    hide StateAt, Given, Low, RegisterAt, GivenCount;
    GivenInOrder(s, names, a, order, i);
    GivenInOrder(s, names, a, order, k);
    if z: nat :| i < z < k && Low(order, z) {
      var last := FindLastLow(order, z, k);
      RegisterAfterLow(s, names, a, order, last, k);
      RegisterBeforeLow(s, names, a, order, i);
    } else {
      GivenIsNext(s, names, a, order, i);
      GivenIsNext(s, names, a, order, k);
      NextStep(s, names, a, order, i);
      NextCounts(s, names, a, order, i + 1, k);
    }
  }

  lemma {:induction false} DifferApart(s: Store, names: Names, a: State, order: seq<Id>, i: nat, z: nat, k: nat)
    requires Differ(s, names, a, order) && i < z && LastLow(order, z, k) && Given(s, names, a, order, i) && Given(s, names, a, order, k)
    ensures NoLow(order, 0, i) && (a.next + GivenCount(s, names, a, order, 0, i) == 0 || 1 + GivenCount(s, names, a, order, z, k) < a.next)
  {
    hide StateAt, Given, Low, RegisterAt, GivenCount;
    if z': nat :| z' < i && Low(order, z') {
      var last := FindLastLow(order, z', i);
      var m := UpFromOne(s, names, a, order, last, i, 1);
      var n := UpFromOne(s, names, a, order, z, k, 1);
      assert false;
    }
    assert NoLow(order, 0, i);
    if a.next + GivenCount(s, names, a, order, 0, i) > 0 && 1 + GivenCount(s, names, a, order, z, k) >= a.next {
      var v := if a.next == 0 then 1 else a.next;
      var m := UpFromStart(s, names, a, order, i, v);
      var n := UpFromOne(s, names, a, order, z, k, v);
      assert false;
    }
  }

  /**
   Whatever state the pass begins in, the registers it gives out are pairwise different if and only if low
   ids do no harm.
   */
  lemma {:induction false} RegistersDifferIff(s: Store, names: Names, a: State, order: seq<Id>)
    ensures Differ(s, names, a, order) <==> LowApart(s, names, a, order)
  {
    hide RegisterAt, LastLow, NoLow, GivenCount;
    if LowApart(s, names, a, order) {
      forall i: nat, k: nat | i < k && Given(s, names, a, order, i) && Given(s, names, a, order, k)
        ensures RegisterAt(s, names, a, order, i) != RegisterAt(s, names, a, order, k)
      {
        ApartDiffers(s, names, a, order, i, k);
      }
    }
    if Differ(s, names, a, order) {
      forall i: nat, z: nat, k: nat | i < z && LastLow(order, z, k) && Given(s, names, a, order, i) && Given(s, names, a, order, k)
        ensures NoLow(order, 0, i) && (a.next + GivenCount(s, names, a, order, 0, i) == 0 || 1 + GivenCount(s, names, a, order, z, k) < a.next)
      {
        DifferApart(s, names, a, order, i, z, k);
      }
    }
  }

  /** In particular they differ when no low id is visited at all. */
  lemma {:induction false} NoLowNoClash(s: Store, names: Names, a: State, order: seq<Id>)
    requires forall i :: 0 <= i < |order| ==> order[i] >= LOW
    ensures Differ(s, names, a, order)
  {
    RegistersDifferIff(s, names, a, order);
  }
}
