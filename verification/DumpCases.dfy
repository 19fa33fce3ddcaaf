/** What is emitted and what is not, on one block: temp_byte_dumper.hpp:28-68. */
module DumpCases {
  import opened Wrappers
  import opened Store
  import opened Shapes
  import opened FunctionScope
  import opened Dump

  const NAMES: Emitters := Emitters(10, 11, 12, 13)

  function Value(ty: Id, data: Data): Entity {
    BLANK.(links := NO_LINKS.(typeOf := Some(ty)), data := data)
  }

  function Call(fn: Id, operand: Id): Entity {
    BLANK.(links := NO_LINKS.(typeOf := Some(10), call := Some(fn), inputs := Some([operand])))
  }

  // In the block 1 a function 2 emits 9; outside of it 263 and a text are emitted, the text also by its first byte.
  const EMITTING: Store := [
    BLANK, BLANK.(block := Some([2, 5, 6, 7, 8, 9])),
    BLANK.(block := Some([3, 4]), links := NO_LINKS.(returnType := Some(10))), Value(10, NO_DATA.(number := Some(9))), Call(12, 3),
    Value(10, NO_DATA.(number := Some(263))), Call(12, 5),
    Value(11, NO_DATA.(text := Some([1, 2, 3]))), Call(13, 7), Call(12, 7),
    BLANK, BLANK, BLANK, BLANK]

  lemma {:induction false} NotFunctions(e: Id)
    requires 1 <= e < 10 && e != 2
    ensures !FunctionLike(EMITTING, {}, e)
  {
    assert ResolveIn(EMITTING, 10, 14) == Some(10) && ResolveIn(EMITTING, 11, 14) == Some(11);
    assert Unmodified(EMITTING, {}, 10, 14) == Some(10) && Unmodified(EMITTING, {}, 11, 14) == Some(11);
  }

  function Leaf(e: Id, rest: Forest): Forest {
    Cons(e, Nil, rest)
  }

  const OUTSIDE: Forest := Leaf(5, Leaf(6, Leaf(7, Leaf(8, Leaf(9, Nil)))))
  const INSIDE: Forest := Leaf(3, Leaf(4, Nil))

  // `f` is there, and dumping it from the table `v` gives `bytes`, and the table `w` on the way out.
  ghost predicate Gives(f: Forest, inside: bool, v: Values, bytes: Bytes, w: Values) {
    Rep(EMITTING, f) && INVALID !in Ids(f) && Dumped(EMITTING, NAMES, {}, f, inside, v) == Ok((w, bytes))
  }

  lemma {:induction false} NothingGiven(inside: bool, v: Values)
    ensures Gives(Nil, inside, v, [], v)
  {}

  lemma {:induction false} LeafGives(e: Id, rest: Forest, inside: bool, v: Values, first: Bytes, u: Values, bytes: Bytes, w: Values)
    requires 3 <= e < 10 && EMITTING[e].block.None? && !FunctionLike(EMITTING, {}, e)
    requires Visited(EMITTING, NAMES, e, inside, v) == Ok((u, first)) && Gives(rest, inside, u, bytes, w)
    ensures Gives(Leaf(e, rest), inside, v, first + bytes, w)
  {
    assert Children(EMITTING, e) == [] && e < |EMITTING| && INVALID == 0;
    hide EMITTING, Visited, FunctionLike, Children;
    LeafDumped(EMITTING, NAMES, e, rest, inside, v, first, u, bytes, w);
  }

  lemma {:induction false} LeafDumped(s: Store, k: Emitters, e: Id, rest: Forest, inside: bool, v: Values, first: Bytes, u: Values, bytes: Bytes, w: Values)
    requires e != INVALID && e < |s| && s[e].block.None? && Children(s, e) == [] && !FunctionLike(s, {}, e)
    requires Rep(s, rest) && INVALID !in Ids(rest) && Dumped(s, k, {}, rest, inside, u) == Ok((w, bytes))
    requires Visited(s, k, e, inside, v) == Ok((u, first))
    ensures Rep(s, Cons(e, Nil, rest)) && INVALID !in Ids(Cons(e, Nil, rest))
    ensures Dumped(s, k, {}, Cons(e, Nil, rest), inside, v) == Ok((w, first + bytes))
  {
    hide Visited, FunctionLike;
  }

  lemma {:induction false} ValueVisited(v: Values)
    ensures Visited(EMITTING, NAMES, 3, true, v) == Ok((Put(v, 3, [9]), []))
    ensures Visited(EMITTING, NAMES, 5, false, v) == Ok((Put(v, 5, [7]), []))
    ensures Visited(EMITTING, NAMES, 7, false, v) == Ok((Put(v, 7, [1, 2, 3]), []))
  {}

  lemma {:induction false} CallVisited(v: Values)
    ensures Visited(EMITTING, NAMES, 4, true, v) == Ok((v, []))
    ensures |v| > 5 && v[5] == [7] ==> Visited(EMITTING, NAMES, 6, false, v) == Ok((v, [7]))
    ensures |v| > 7 && v[7] == [1, 2, 3] ==>
              Visited(EMITTING, NAMES, 8, false, v) == Ok((v, [1, 2, 3])) && Visited(EMITTING, NAMES, 9, false, v) == Ok((v, [1]))
  {}

  lemma {:induction false} Leaves(e: Id)
    requires 3 <= e < 10
    ensures EMITTING[e].block.None? && !FunctionLike(EMITTING, {}, e)
  {
    NotFunctions(e);
    hide FunctionLike;
  }

  lemma {:induction false} InsideGives(v: Values)
    ensures Gives(INSIDE, true, v, [], Put(v, 3, [9]))
  {
    var w := Put(v, 3, [9]);
    forall e | 3 <= e < 10 ensures EMITTING[e].block.None? && !FunctionLike(EMITTING, {}, e) { Leaves(e); }
    ValueVisited(v);
    CallVisited(w);
    NothingGiven(true, w);
    hide Gives, Visited, EMITTING, Put, FunctionLike;
    var none: Bytes := [];
    assert none + none == none;
    LeafGives(4, Nil, true, w, [], w, [], w);
    LeafGives(3, Leaf(4, Nil), true, v, [], w, [], w);
  }

  // The text and the two calls that emit it.
  lemma {:induction false} TextGives(v: Values)
    ensures Gives(Leaf(7, Leaf(8, Leaf(9, Nil))), false, v, [1, 2, 3, 1], Put(v, 7, [1, 2, 3]))
  {
    var w := Put(v, 7, [1, 2, 3]);
    forall e | 3 <= e < 10 ensures EMITTING[e].block.None? && !FunctionLike(EMITTING, {}, e) { Leaves(e); }
    ValueVisited(v);
    CallVisited(w);
    NothingGiven(false, w);
    hide Gives, Visited, EMITTING, Put, FunctionLike;
    LeafGives(9, Nil, false, w, [1], w, [], w);
    assert [1] + [] == [1];
    LeafGives(8, Leaf(9, Nil), false, w, [1, 2, 3], w, [1], w);
    assert [1, 2, 3] + [1] == [1, 2, 3, 1];
    LeafGives(7, Leaf(8, Leaf(9, Nil)), false, v, [], w, [1, 2, 3, 1], w);
    assert [] + [1, 2, 3, 1] == [1, 2, 3, 1];
  }

  lemma {:induction false} OutsideGives(v: Values)
    ensures Gives(OUTSIDE, false, v, [7, 1, 2, 3, 1], Put(Put(v, 5, [7]), 7, [1, 2, 3]))
  {
    var u := Put(v, 5, [7]);
    var w := Put(u, 7, [1, 2, 3]);
    Leaves(5);
    Leaves(6);
    ValueVisited(v);
    CallVisited(u);
    TextGives(u);
    hide Gives, Visited, EMITTING, Put, FunctionLike;
    var text := Leaf(7, Leaf(8, Leaf(9, Nil)));
    LeafGives(6, text, false, u, [7], u, [1, 2, 3, 1], w);
    assert [7] + [1, 2, 3, 1] == [7, 1, 2, 3, 1];
    LeafGives(5, Leaf(6, text), false, v, [], u, [7, 1, 2, 3, 1], w);
    assert [] + [7, 1, 2, 3, 1] == [7, 1, 2, 3, 1];
  }

  /**
   Nothing is emitted inside of a function; outside, a number by its low byte, a text by its first byte or, by the
   other call, whole.
   */
  lemma {:induction false} FunctionsAreSilent()
    ensures var f := Cons(2, INSIDE, OUTSIDE);
            Rep(EMITTING, f) && INVALID !in Ids(f) && Dumped(EMITTING, NAMES, {}, f, false, []).Ok?
            && Dumped(EMITTING, NAMES, {}, f, false, []).value.1 == [7, 1, 2, 3, 1]
  {
    var v := Put([], 3, [9]);
    InsideGives([]);
    OutsideGives(v);
    assert FunctionLike(EMITTING, {}, 2) && EMITTING[2].block.Some? && Children(EMITTING, 2) == [3, 4] && |EMITTING| == 14;
    assert Roots(INSIDE) == [3, 4] by { assert Roots(Leaf(4, Nil)) == [4]; }
    hide EMITTING, FunctionLike, Visited, Put, OUTSIDE, INSIDE, Children;
    assert [] + [7, 1, 2, 3, 1] == [7, 1, 2, 3, 1];
  }
}
