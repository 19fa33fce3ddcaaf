/** Finding a parameter in the text of a call: `parse_parameter_range` of diagnostics.cpp:65-127. */
module ParameterRange {
  import opened Wrappers

  datatype Range = Range(begin: nat, end: nat)

  predicate Opens(c: char) {
    c == '(' || c == '[' || c == '{' || c == '<'
  }

  predicate Closes(c: char) {
    c == ')' || c == ']' || c == '}' || c == '>'
  }

  // The depth after one character; closing what was not opened leaves it at zero.
  function Step(depth: nat, c: char): nat {
    if Opens(c) then depth + 1 else if Closes(c) && depth > 0 then depth - 1 else depth
  }

  // The depth before position `i`, the text starting at `from`.
  function DepthAt(text: string, from: nat, i: nat): nat
    requires from <= i <= |text|
    decreases i
  {
    if i == from then 0 else Step(DepthAt(text, from, i - 1), text[i - 1])
  }

  // A parameter ends at a comma or the closing parenthesis at depth zero.
  predicate Ends(text: string, from: nat, i: nat)
    requires from <= i < |text|
  {
    (text[i] == ',' || text[i] == ')') && DepthAt(text, from, i) == 0
  }

  // Where the parameter that is being read at `i` ends; the length of the text when it does not.
  function EndFrom(text: string, from: nat, i: nat): (e: nat)
    requires from <= i <= |text|
    ensures i <= e <= |text|
    ensures e < |text| ==> Ends(text, from, e)
    ensures forall j :: i <= j < e ==> !Ends(text, from, j)
    decreases |text| - i
  {
    if i == |text| || Ends(text, from, i) then i else EndFrom(text, from, i + 1)
  }

  /** The argument text from `from` on, split at its commas of depth zero, up to its closing parenthesis. */
  function Parameters(text: string, from: nat, begin: nat): (r: seq<Range>)
    requires from <= begin <= |text|
    decreases |text| - begin
  {
    var end := EndFrom(text, from, begin);
    if end == |text| then []
    else if text[end] == ')' then [Range(begin, end)]
    else [Range(begin, end)] + Parameters(text, from, end + 1)
  }

  function Open(text: string, i: nat): (r: Option<nat>)
    requires i <= |text|
    ensures r.Some? ==> i <= r.value < |text| && text[r.value] == '(' && forall j :: i <= j < r.value ==> text[j] != '('
    ensures r.None? ==> forall j :: i <= j < |text| ==> text[j] != '('
    decreases |text| - i
  {
    if i == |text| then None else if text[i] == '(' then Some(i) else Open(text, i + 1)
  }

  function Nth(ranges: seq<Range>, n: nat): Option<Range> {
    if n < |ranges| then Some(ranges[n]) else None
  }

  // What is found: the `n`-th of the parameters, if there is an opening parenthesis at all.
  function Found(text: string, n: nat): Option<Range> {
    var open := Open(text, 0);
    if open.None? then None else Nth(Parameters(text, open.value + 1, open.value + 1), n)
  }

  /** One pass with a depth counter finds what splitting the text would. */
  method ParseParameterRange(text: string, parameterIndex: nat) returns (r: Option<Range>)
    ensures r == Found(text, parameterIndex)
  {
    var open := Open(text, 0);
    FoundAfter(text, parameterIndex);
    hide EndFrom, Parameters, DepthAt, Found, Open, Nth, Opens, Closes, Step, Ends, Reading;
    if open.None? { return None; }
    var from := open.value + 1;
    var depth: nat := 0;
    var current: nat := 0;
    DepthStart(text, from);
    var begin := from;
    var i := from;
    while i < |text|
      invariant from <= begin <= i <= |text| && depth == DepthAt(text, from, i)
      invariant current <= parameterIndex && Reading(text, from, begin, i, parameterIndex, parameterIndex - current)
      decreases |text| - i
    {
      var c := text[i];
      ReadOn(text, from, begin, i, parameterIndex, parameterIndex - current);
      DepthStep(text, from, i);
      if Opens(c) {
        depth := depth + 1;
      } else if c == ')' {
        if depth == 0 {
          if current == parameterIndex { return Some(Range(begin, i)); }
          return None;
        }
        depth := depth - 1;
      } else if Closes(c) {
        if depth > 0 { depth := depth - 1; }
      } else if c == ',' {
        if depth == 0 {
          if current == parameterIndex { return Some(Range(begin, i)); }
          current := current + 1;
          begin := i + 1;
        }
      }
      i := i + 1;
    }
    ReadAll(text, from, begin, parameterIndex, parameterIndex - current);
    r := None;
  }

  // The parameter that began at `begin` is being read at `i`, and `left` more are to be passed over.
  ghost predicate Reading(text: string, from: nat, begin: nat, i: nat, index: nat, left: nat) {
    && from <= begin <= i <= |text| && EndFrom(text, from, begin) == EndFrom(text, from, i)
    && Found(text, index) == Nth(Parameters(text, from, begin), left)
  }

  lemma {:induction false} ReadOn(text: string, from: nat, begin: nat, i: nat, index: nat, left: nat)
    requires Reading(text, from, begin, i, index, left) && i < |text|
    ensures !Ends(text, from, i) ==> Reading(text, from, begin, i + 1, index, left)
    ensures Ends(text, from, i) && left == 0 ==> Found(text, index) == Some(Range(begin, i))
    ensures Ends(text, from, i) && text[i] == ')' && left > 0 ==> Found(text, index) == None
    ensures Ends(text, from, i) && text[i] == ',' && left > 0 ==> Reading(text, from, i + 1, i + 1, index, left - 1)
  {
    hide EndFrom, Parameters, Found, Nth, Ends;
    OneFurther(text, from, begin, i, left);
  }

  lemma {:induction false} ReadAll(text: string, from: nat, begin: nat, index: nat, left: nat)
    requires Reading(text, from, begin, |text|, index, left)
    ensures Found(text, index) == None
  {
    hide EndFrom, Parameters, Found, Nth;
    Unended(text, from, begin, left);
  }

  lemma {:induction false} FoundAfter(text: string, n: nat)
    ensures Open(text, 0).None? ==> Found(text, n) == None
    ensures Open(text, 0).Some? ==>
              var from := Open(text, 0).value + 1; from <= |text| && Reading(text, from, from, from, n, n)
  {}

  lemma {:induction false} DepthStart(text: string, from: nat)
    requires from <= |text|
    ensures DepthAt(text, from, from) == 0
  {}

  // What one character does to the depth, and whether it ends the parameter.
  lemma {:induction false} DepthStep(text: string, from: nat, i: nat)
    requires from <= i < |text|
    ensures var c, d, d' := text[i], DepthAt(text, from, i), DepthAt(text, from, i + 1);
            && (Ends(text, from, i) <==> (c == ',' || c == ')') && d == 0)
            && (Opens(c) ==> d' == d + 1 && c != ',' && c != ')')
            && (c == ')' ==> Closes(c)) && (c == ',' ==> !Closes(c))
            && (!Opens(c) && Closes(c) ==> d' == if d > 0 then d - 1 else 0)
            && (!Opens(c) && !Closes(c) ==> d' == d)
  {}

  // One character more: either the parameter ends with it, or the search goes on.
  lemma {:induction false} OneFurther(text: string, from: nat, begin: nat, i: nat, n: nat)
    requires from <= begin <= i < |text| && EndFrom(text, from, begin) == EndFrom(text, from, i)
    ensures !Ends(text, from, i) ==> EndFrom(text, from, begin) == EndFrom(text, from, i + 1)
    ensures Ends(text, from, i) ==> Nth(Parameters(text, from, begin), 0) == Some(Range(begin, i))
    ensures Ends(text, from, i) && text[i] == ')' && n > 0 ==> Nth(Parameters(text, from, begin), n) == None
    ensures Ends(text, from, i) && text[i] == ',' && n > 0 ==>
              Nth(Parameters(text, from, begin), n) == Nth(Parameters(text, from, i + 1), n - 1)
  {
    if Ends(text, from, i) && text[i] == ',' && n > 0 { SkipFirst(text, from, begin, n); }
  }

  lemma {:induction false} Unended(text: string, from: nat, begin: nat, n: nat)
    requires from <= begin <= |text| && EndFrom(text, from, begin) == EndFrom(text, from, |text|)
    ensures Nth(Parameters(text, from, begin), n) == None
  {}

  lemma {:induction false} SkipFirst(text: string, from: nat, begin: nat, n: nat)
    requires from <= begin <= |text| && EndFrom(text, from, begin) < |text| && text[EndFrom(text, from, begin)] == ',' && n > 0
    ensures Nth(Parameters(text, from, begin), n) == Nth(Parameters(text, from, EndFrom(text, from, begin) + 1), n - 1)
  {}

  // ---------- what the parameters are ----------

  /**
   Successive parameters are ordered and one comma apart; the first begins where the text does, the last
   ends at a closing parenthesis or, if the text breaks off, at a comma.
   */
  lemma {:induction false} ParametersChain(text: string, from: nat, begin: nat, k: nat)
    requires from <= begin <= |text| && k < |Parameters(text, from, begin)|
    ensures var ps := Parameters(text, from, begin);
            && from <= ps[k].begin <= ps[k].end < |text| && Ends(text, from, ps[k].end)
            && ps[0].begin == begin
            && (k + 1 < |ps| ==> text[ps[k].end] == ',' && ps[k + 1].begin == ps[k].end + 1)
            && (forall j :: ps[k].begin <= j < ps[k].end ==> !Ends(text, from, j))
    decreases |text| - begin
  {
    var end := EndFrom(text, from, begin);
    if k > 0 { ParametersChain(text, from, end + 1, k - 1); }
    else if |Parameters(text, from, begin)| > 1 { ParametersChain(text, from, end + 1, 0); }
  }

  function Slice(text: string, r: Range): string {
    if r.begin <= r.end <= |text| then text[r.begin..r.end] else []
  }

  // The texts of the parameters with commas between them.
  function Joined(text: string, ps: seq<Range>): string {
    if ps == [] then []
    else if |ps| == 1 then Slice(text, ps[0])
    else Slice(text, ps[0]) + [','] + Joined(text, ps[1..])
  }

  lemma {:induction false} SliceSplit(text: string, begin: nat, end: nat, c: nat)
    requires begin <= end < c <= |text|
    ensures text[begin..c] == text[begin..end] + [text[end]] + text[end + 1..c]
  {}

  lemma {:induction false} JoinedMore(text: string, p: Range, ps: seq<Range>)
    requires ps != [] && p.begin <= p.end <= |text|
    ensures Joined(text, [p] + ps) == text[p.begin..p.end] + [','] + Joined(text, ps)
  {
    assert ([p] + ps)[1..] == ps;
  }

  // The text is closed: the last parameter ends at a parenthesis.
  predicate Closed(text: string, from: nat, begin: nat)
    requires from <= begin <= |text|
    decreases |text| - begin
  {
    var end := EndFrom(text, from, begin);
    end < |text| && (text[end] == ')' || Closed(text, from, end + 1))
  }

  // The closing parenthesis.
  function CloseAt(text: string, from: nat, begin: nat): (c: nat)
    requires from <= begin <= |text| && Closed(text, from, begin)
    ensures begin <= c < |text| && text[c] == ')' && DepthAt(text, from, c) == 0
    decreases |text| - begin
  {
    var end := EndFrom(text, from, begin);
    if text[end] == ')' then end else CloseAt(text, from, end + 1)
  }

  /** The parameters, joined by commas, are the whole text up to the closing parenthesis: nothing is lost or added. */
  lemma {:induction false} ParametersCover(text: string, from: nat, begin: nat)
    requires from <= begin <= |text| && Closed(text, from, begin)
    ensures Parameters(text, from, begin) != []
    ensures Joined(text, Parameters(text, from, begin)) == text[begin..CloseAt(text, from, begin)]
    decreases |text| - begin
  {
    var end := EndFrom(text, from, begin);
    if text[end] != ')' {
      assert text[end] == ',';
      ParametersCover(text, from, end + 1);
      hide EndFrom, Ends, Joined, DepthAt;
      var c := CloseAt(text, from, end + 1);
      var ps := Parameters(text, from, end + 1);
      assert Parameters(text, from, begin) == [Range(begin, end)] + ps;
      JoinedMore(text, Range(begin, end), ps);
      SliceSplit(text, begin, end, c);
    }
  }

  // ---------- the depth ----------

  // How many of the characters from `lo` on, before `hi`, are among `cs`.
  function Occurrences(text: string, lo: nat, hi: nat, cs: string): nat
    requires lo <= hi <= |text|
    decreases hi
  {
    if hi == lo then 0 else Occurrences(text, lo, hi - 1, cs) + if text[hi - 1] in cs then 1 else 0
  }

  lemma {:induction false} Brackets(c: char)
    ensures (Opens(c) <==> c in "([{<") && (Closes(c) <==> c in ")]}>")
  {}

  /** While nothing is closed that was not opened, the depth is the number of brackets that are open. */
  lemma {:induction false} DepthIsBalance(text: string, from: nat, i: nat)
    requires from <= i <= |text|
    requires forall j :: from <= j <= i ==> Occurrences(text, from, j, ")]}>") <= Occurrences(text, from, j, "([{<")
    ensures DepthAt(text, from, i) == Occurrences(text, from, i, "([{<") - Occurrences(text, from, i, ")]}>")
    decreases i
  {
    if i > from {
      DepthIsBalance(text, from, i - 1);
      Brackets(text[i - 1]);
    }
  }

  /**
   Between a bracket of any of the four kinds and the place where as many have been closed as opened since, nothing
   ends a parameter, whatever the depth outside is.
   */
  lemma {:induction false} InsideBrackets(text: string, from: nat, j: nat, i: nat)
    requires from <= j < i < |text| && text[j] in "([{<"
    requires forall k :: j < k <= i ==> Occurrences(text, j, k, ")]}>") < Occurrences(text, j, k, "([{<")
    ensures DepthAt(text, from, i) >= Occurrences(text, j, i, "([{<") - Occurrences(text, j, i, ")]}>")
    ensures !Ends(text, from, i)
    decreases i
  {
    Brackets(text[i - 1]);
    if i == j + 1 {
      assert Occurrences(text, j, j, "([{<") == 0 == Occurrences(text, j, j, ")]}>");
    } else {
      InsideBrackets(text, from, j, i - 1);
    }
  }

  /** Past the last parameter there is none, and an index below their number always finds one. */
  lemma {:induction false} FoundIff(text: string, n: nat)
    ensures Found(text, n).Some? <==> Open(text, 0).Some? && n < |Parameters(text, Open(text, 0).value + 1, Open(text, 0).value + 1)|
    ensures Found(text, n).Some? ==>
              var r := Found(text, n).value;
              Open(text, 0).value < r.begin <= r.end < |text| && (text[r.end] == ',' || text[r.end] == ')')
  {
    var open := Open(text, 0);
    if Found(text, n).Some? { ParametersChain(text, open.value + 1, open.value + 1, n); }
  }

  /** The comma in brackets of each kind is part of the parameter: the second one of `f(k(a,b),c)` is `c`. */
  method SecondParameter(open: char, close: char) returns (text: string, r: Option<Range>)
    requires (open, close) in {('(', ')'), ('[', ']'), ('{', '}'), ('<', '>')}
    ensures text == ['f', '(', 'k', open, 'a', ',', 'b', close, ',', 'c', ')'] && r == Some(Range(9, 10))
  {
    text := ['f', '(', 'k', open, 'a', ',', 'b', close, ',', 'c', ')'];
    r := ParseParameterRange(text, 1);
    SecondFound(text, open, close);
  }

  lemma {:induction false} SecondFound(text: string, open: char, close: char)
    requires (open, close) in {('(', ')'), ('[', ']'), ('{', '}'), ('<', '>')}
    requires text == ['f', '(', 'k', open, 'a', ',', 'b', close, ',', 'c', ')']
    ensures Found(text, 1) == Some(Range(9, 10))
  {
    assert Open(text, 1) == Some(1) && Open(text, 0) == Some(1);
    SecondDepths(text, open, close);
    hide DepthAt, Opens, Closes;
    assert EndFrom(text, 2, 8) == 8;
    assert EndFrom(text, 2, 6) == 8 by { assert EndFrom(text, 2, 7) == 8; }
    assert EndFrom(text, 2, 4) == 8 by { assert EndFrom(text, 2, 5) == 8; }
    assert EndFrom(text, 2, 2) == 8 by { assert EndFrom(text, 2, 3) == 8; }
    assert EndFrom(text, 2, 10) == 10;
    assert EndFrom(text, 2, 9) == 10;
    assert Parameters(text, 2, 9) == [Range(9, 10)];
    assert Parameters(text, 2, 2) == [Range(2, 8)] + [Range(9, 10)];
  }

  lemma {:induction false} SecondDepths(text: string, open: char, close: char)
    requires (open, close) in {('(', ')'), ('[', ']'), ('{', '}'), ('<', '>')}
    requires text == ['f', '(', 'k', open, 'a', ',', 'b', close, ',', 'c', ')']
    ensures DepthAt(text, 2, 2) == DepthAt(text, 2, 3) == 0 && DepthAt(text, 2, 4) == DepthAt(text, 2, 5) == DepthAt(text, 2, 6) == 1
    ensures DepthAt(text, 2, 7) == 1 && DepthAt(text, 2, 8) == DepthAt(text, 2, 9) == DepthAt(text, 2, 10) == 0
  {
    assert DepthAt(text, 2, 2) == 0;
    assert DepthAt(text, 2, 3) == 0;
    assert DepthAt(text, 2, 4) == 1;
    assert DepthAt(text, 2, 5) == 1;
    assert DepthAt(text, 2, 6) == 1;
    assert DepthAt(text, 2, 7) == 1;
    assert DepthAt(text, 2, 8) == 0;
    assert DepthAt(text, 2, 9) == 0;
  }
}
