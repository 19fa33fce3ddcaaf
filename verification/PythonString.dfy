/** Python escapes over UTF-8: `escape_python_string` and `unescape_python_string` of string_helpers.hpp. */
module PythonString {
  import opened Wrappers
  import opened Store
  import opened Utf8

  const BACKSLASH: byte := 0x5C
  const QUOTE: byte := 0x22

  // ---------- hexadecimal digits ----------

  function HexDigit(d: nat): byte
    requires d < 16
  {
    if d < 10 then 0x30 + d else 0x61 + (d - 10)
  }

  function HexValue(c: byte): (r: Option<nat>)
    ensures r.Some? ==> r.value < 16
  {
    if 0x30 <= c <= 0x39 then Some(c as int - 0x30)
    else if 0x61 <= c <= 0x66 then Some(c as int - 0x61 + 10)
    else if 0x41 <= c <= 0x46 then Some(c as int - 0x41 + 10)
    else None
  }

  // `x` shifted right by `k` digits.
  function Shifted(x: nat, k: nat): nat {
    if k == 0 then x else Shifted(x, k - 1) / 16
  }

  // The last `n` digits of `x`.
  function HexDigits(x: nat, n: nat): (r: Bytes)
    ensures |r| == n
  {
    if n == 0 then [] else HexDigits(x / 16, n - 1) + [HexDigit(x % 16)]
  }

  // The number `n` digits spell; `None` when one of them is no digit.
  function HexNumber(s: Bytes, n: nat): Option<nat>
    requires n <= |s|
  {
    if n == 0 then Some(0)
    else
      var high, low := HexNumber(s, n - 1), HexValue(s[n - 1]);
      if high.Some? && low.Some? then Some(high.value * 16 + low.value) else None
  }

  function Power16(n: nat): (r: nat)
    ensures r > 0
  {
    if n == 0 then 1 else 16 * Power16(n - 1)
  }

  lemma {:induction false} HexRoundTrip(x: nat, n: nat, rest: Bytes)
    requires x < Power16(n)
    ensures HexNumber(HexDigits(x, n) + rest, n) == Some(x)
  {
    if n > 0 {
      HexRoundTrip(x / 16, n - 1, [HexDigit(x % 16)] + rest);
      assert HexDigits(x, n) + rest == HexDigits(x / 16, n - 1) + ([HexDigit(x % 16)] + rest);
    }
  }

  lemma {:induction false} ShiftedMore(x: nat, k: nat)
    ensures Shifted(x / 16, k) == Shifted(x, k) / 16
  {
    if k > 0 { ShiftedMore(x, k - 1); }
  }

  // ---------- escaping ----------

  // The letter a control character is escaped by.
  function Letter(c: byte): Option<byte> {
    if c == 0x07 then Some(0x61) else if c == 0x08 then Some(0x62) else if c == 0x0C then Some(0x66)
    else if c == 0x0A then Some(0x6E) else if c == 0x0D then Some(0x72) else if c == 0x09 then Some(0x74)
    else if c == 0x0B then Some(0x76) else None
  }

  predicate Printable(c: byte) {
    0x20 <= c <= 0x7E
  }

  // What an ASCII byte is escaped as.
  function EscapeAscii(c: byte): Bytes
    requires c < 0x80
  {
    if c == BACKSLASH || c == 0x27 || c == QUOTE then [BACKSLASH, c]
    else if Letter(c).Some? then [BACKSLASH, Letter(c).value]
    else if Printable(c) then [c]
    else [BACKSLASH, 0x78] + HexDigits(c, 2)
  }

  function EscapeCodePoint(cp: nat): Bytes {
    if cp <= 0xFFFF then [BACKSLASH, 0x75] + HexDigits(cp, 4) else [BACKSLASH, 0x55] + HexDigits(cp, 8)
  }

  // What the unit at the start of well-formed text is escaped as.
  function EscapeUnit(s: Bytes): Bytes
    requires UnitLength(s) > 0
  {
    EncodeDecode(s);
    if s[0] < 0x80 then EscapeAscii(s[0]) else EscapeCodePoint(Decode(s))
  }

  function Escape(s: Bytes): Bytes
    requires WellFormed(s)
    decreases |s|
  {
    if s == [] then [] else EscapeUnit(s) + Escape(s[UnitLength(s)..])
  }

  method AppendHexDigits(out: Bytes, x: nat, n: nat) returns (r: Bytes)
    ensures r == out + HexDigits(x, n)
  {
    r := out;
    var shift := n;
    while shift > 0
      invariant 0 <= shift <= n && r == out + HexDigits(Shifted(x, shift), n - shift)
    {
      shift := shift - 1;
      r := r + [HexDigit(Shifted(x, shift) % 16)];
      assert Shifted(x, shift + 1) == Shifted(x, shift) / 16;
    }
  }

  method AppendUnicodeEscape(out: Bytes, cp: nat) returns (r: Bytes)
    ensures r == out + EscapeCodePoint(cp)
  {
    if cp <= 0xFFFF {
      r := AppendHexDigits(out + [BACKSLASH, 0x75], cp, 4);
    } else {
      r := AppendHexDigits(out + [BACKSLASH, 0x55], cp, 8);
    }
    assert r == out + EscapeCodePoint(cp);
  }

  method AppendAsciiEscape(out: Bytes, c: byte) returns (r: Bytes)
    requires c < 0x80
    ensures r == out + EscapeAscii(c)
  {
    if c == BACKSLASH || c == 0x27 || c == QUOTE {
      r := out + [BACKSLASH, c];
    } else if Letter(c).Some? {
      r := out + [BACKSLASH, Letter(c).value];
    } else if Printable(c) {
      r := out + [c];
    } else {
      r := AppendHexDigits(out + [BACKSLASH, 0x78], c, 2);
    }
    assert r == out + EscapeAscii(c);
  }

  method EscapePythonString(input: Bytes) returns (out: Bytes)
    requires WellFormed(input)
    ensures out == Escape(input)
  {
    hide *;
    out := [];
    var i := 0;
    EscapeStarts(input);
    while i < |input|
      invariant i <= |input| && WellFormed(input[i..]) && out + Escape(input[i..]) == Escape(input)
      decreases |input| - i
    {
      NextUnit(input, i);
      ghost var rest, n, before := input[i..], UnitLength(input[i..]), out;
      if input[i] < 0x80 {
        out := AppendAsciiEscape(out, input[i]);
        i := i + 1;
      } else {
        var cp, next := DecodeUtf8(input, i);
        out := AppendUnicodeEscape(out, cp);
        i := next;
      }
      BytesAssoc(before, EscapeUnit(rest), Escape(input[i..]));
    }
    EscapeEnds(input, out, i);
  }

  lemma {:induction false} EscapeStarts(input: Bytes)
    requires WellFormed(input)
    ensures WellFormed(input[0..]) && [] + Escape(input[0..]) == Escape(input)
  {
    assert input[0..] == input;
    assert [] + Escape(input) == Escape(input);
  }

  lemma {:induction false} EscapeEnds(input: Bytes, out: Bytes, i: nat)
    requires i == |input| && WellFormed(input) && WellFormed(input[i..]) && out + Escape(input[i..]) == Escape(input)
    ensures out == Escape(input)
  {
    assert input[i..] == [] && Escape([]) == [];
    hide Escape;
    assert out + [] == out;
  }

  lemma {:induction false} BytesAssoc(a: Bytes, b: Bytes, c: Bytes)
    ensures a + (b + c) == (a + b) + c
  {}

  // The unit at `i`, its escape, and what comes after it.
  lemma {:induction false} NextUnit(input: Bytes, i: nat)
    requires i < |input| && WellFormed(input[i..])
    ensures var s := input[i..];
            && s[0] == input[i] && UnitLength(s) > 0 && DecodeLength(input[i]) == UnitLength(s) && i + UnitLength(s) <= |input|
            && (input[i] < 0x80 ==> UnitLength(s) == 1 && EscapeUnit(s) == EscapeAscii(input[i]))
            && (input[i] >= 0x80 ==> DecodeLength(s[0]) <= |s| && EscapeUnit(s) == EscapeCodePoint(Decode(s)))
            && WellFormed(input[i + UnitLength(s)..]) && Escape(s) == EscapeUnit(s) + Escape(input[i + UnitLength(s)..])
  {
    var s := input[i..];
    assert s != [];
    LengthsAgree(s);
    assert s[UnitLength(s)..] == input[i + UnitLength(s)..];
    hide EscapeAscii, EscapeCodePoint, Decode;
  }

  // ---------- unescaping ----------

  // What one piece of a literal stands for, and how many bytes it takes.
  datatype Piece = Piece(bytes: Bytes, taken: nat)

  function Octal(c: byte): bool {
    0x30 <= c <= 0x37
  }

  // One to three octal digits.
  function OctalPiece(s: Bytes): (r: Piece)
    requires |s| > 1 && Octal(s[1])
    ensures 2 <= r.taken <= |s|
  {
    var a := s[1] as int - 0x30;
    if |s| > 2 && Octal(s[2]) then
      var b := a * 8 + (s[2] as int - 0x30);
      if |s| > 3 && Octal(s[3]) then Piece([(b * 8 + (s[3] as int - 0x30)) % 256], 4) else Piece([b], 3)
    else Piece([a], 2)
  }

  function LetterValue(c: byte): Option<byte> {
    if c == 0x61 then Some(0x07) else if c == 0x62 then Some(0x08) else if c == 0x66 then Some(0x0C)
    else if c == 0x6E then Some(0x0A) else if c == 0x72 then Some(0x0D) else if c == 0x74 then Some(0x09)
    else if c == 0x76 then Some(0x0B) else None
  }

  // `n` digits after the escape letter.
  function HexPiece(s: Bytes, n: nat): (r: Result<nat, TextError>)
    requires |s| > 1
    ensures r.Ok? ==> 2 + n <= |s|
  {
    if 2 + n > |s| then Err(TooShort)
    else
      var v := HexNumber(s[2..], n);
      if v.None? then Err(BadHexDigit) else Ok(v.value)
  }

  function CodePointPiece(s: Bytes, n: nat): (r: Result<Piece, TextError>)
    requires |s| > 1
    ensures r.Ok? ==> r.value.taken == 2 + n <= |s|
  {
    var v := HexPiece(s, n);
    if v.Err? then Err(v.error)
    else
      var u := Encode(v.value);
      if u.Err? then Err(u.error) else Ok(Piece(u.value, 2 + n))
  }

  function UnescapePiece(s: Bytes): (r: Result<Piece, TextError>)
    requires s != []
    ensures r.Ok? ==> 1 <= r.value.taken <= |s|
  {
    if s[0] != BACKSLASH then Ok(Piece([s[0]], 1))
    else if |s| == 1 then Err(TrailingBackslash)
    else if s[1] == 0x0A then Ok(Piece([], 2))
    else if s[1] == BACKSLASH || s[1] == 0x27 || s[1] == QUOTE then Ok(Piece([s[1]], 2))
    else if LetterValue(s[1]).Some? then Ok(Piece([LetterValue(s[1]).value], 2))
    else if s[1] == 0x78 then
      var v := HexPiece(s, 2);
      if v.Err? then Err(v.error) else Ok(Piece([v.value % 256], 4))
    else if s[1] == 0x75 then CodePointPiece(s, 4)
    else if s[1] == 0x55 then CodePointPiece(s, 8)
    else if Octal(s[1]) then Ok(OctalPiece(s))
    else Err(BadEscape)
  }

  function Unescape(s: Bytes): Result<Bytes, TextError>
    decreases |s|
  {
    if s == [] then Ok([])
    else
      var p := UnescapePiece(s);
      if p.Err? then Err(p.error)
      else
        var rest := Unescape(s[p.value.taken..]);
        if rest.Err? then rest else Ok(p.value.bytes + rest.value)
  }

  // The digits are read one by one; a character that is no digit stops at once.
  method ReadHex(s: Bytes, start: nat, n: nat) returns (v: Option<nat>)
    requires start + n <= |s|
    ensures v == HexNumber(s[start..], n)
  {
    var x: nat := 0;
    var k := 0;
    while k < n
      invariant 0 <= k <= n && HexNumber(s[start..], k) == Some(x)
    {
      var d := HexValue(s[start + k]);
      if d.None? {
        NotHex(s[start..], k + 1, n);
        return None;
      }
      x := x * 16 + d.value;
      k := k + 1;
    }
    v := Some(x);
  }

  lemma {:induction false} NotHex(s: Bytes, k: nat, n: nat)
    requires k <= n <= |s| && HexNumber(s, k).None?
    ensures HexNumber(s, n).None?
    decreases n
  {
    if k < n { NotHex(s, k, n - 1); }
  }

  method UnescapePythonString(literal: Bytes) returns (r: Result<Bytes, TextError>)
    ensures r == Unescape(literal)
  {
    hide UnescapePiece;
    var out: Bytes := [];
    var i := 0;
    assert literal[0..] == literal;
    if Unescape(literal).Ok? { assert [] + Unescape(literal).value == Unescape(literal).value; }
    while i < |literal|
      invariant 0 <= i <= |literal|
      invariant Unescape(literal) == Prefixed(out, Unescape(literal[i..]))
      decreases |literal| - i
    {
      var piece := ReadPiece(literal, i);
      PieceStep(literal, i, out);
      if piece.Err? { return Err(piece.error); }
      out := out + piece.value.bytes;
      i := i + piece.value.taken;
    }
    assert Unescape(literal[i..]) == Ok([]) && out + [] == out;
    r := Ok(out);
  }

  function Prefixed(out: Bytes, r: Result<Bytes, TextError>): Result<Bytes, TextError> {
    if r.Ok? then Ok(out + r.value) else r
  }

  lemma {:induction false} PieceStep(s: Bytes, i: nat, out: Bytes)
    requires i < |s|
    ensures var p := UnescapePiece(s[i..]);
            && (p.Err? ==> Unescape(s[i..]) == Err(p.error))
            && (p.Ok? ==> i + p.value.taken <= |s|)
            && (p.Ok? ==> Prefixed(out, Unescape(s[i..])) == Prefixed(out + p.value.bytes, Unescape(s[i + p.value.taken..])))
  {
    hide UnescapePiece;
    var p := UnescapePiece(s[i..]);
    if p.Ok? {
      assert s[i..][p.value.taken..] == s[i + p.value.taken..];
      var rest := Unescape(s[i + p.value.taken..]);
      if rest.Ok? { assert out + (p.value.bytes + rest.value) == (out + p.value.bytes) + rest.value; }
    }
  }

  method ReadPiece(s: Bytes, i: nat) returns (p: Result<Piece, TextError>)
    requires i < |s|
    ensures p == UnescapePiece(s[i..])
  {
    if s[i] != BACKSLASH { return Ok(Piece([s[i]], 1)); }
    if i + 1 >= |s| { return Err(TrailingBackslash); }
    var esc := s[i + 1];
    if esc == 0x0A { return Ok(Piece([], 2)); }
    if esc == BACKSLASH || esc == 0x27 || esc == QUOTE { return Ok(Piece([esc], 2)); }
    if LetterValue(esc).Some? { return Ok(Piece([LetterValue(esc).value], 2)); }
    if esc == 0x78 || esc == 0x75 || esc == 0x55 {
      var n := if esc == 0x78 then 2 else if esc == 0x75 then 4 else 8;
      assert s[i..][2..] == s[i + 2..];
      if i + 2 + n > |s| { return Err(TooShort); }
      var v := ReadHex(s, i + 2, n);
      if v.None? { return Err(BadHexDigit); }
      if esc == 0x78 { return Ok(Piece([v.value % 256], 4)); }
      var u := AppendUtf8([], v.value);
      if u.Err? { return Err(u.error); }
      assert [] + Encode(v.value).value == Encode(v.value).value;
      return Ok(Piece(u.value, 2 + n));
    }
    if Octal(esc) {
      var v: nat := esc as int - 0x30;
      var k: nat := 0;
      while k < 2 && i + 2 + k < |s| && Octal(s[i + 2 + k])
        invariant k <= 2 && i + 2 + k <= |s|
        invariant k == 0 ==> v == esc as int - 0x30
        invariant k == 1 ==> Octal(s[i + 2]) && v == (esc as int - 0x30) * 8 + (s[i + 2] as int - 0x30)
        invariant k == 2 ==> Octal(s[i + 2]) && Octal(s[i + 3]) && v == ((esc as int - 0x30) * 8 + (s[i + 2] as int - 0x30)) * 8 + (s[i + 3] as int - 0x30)
      {
        v := v * 8 + (s[i + 2 + k] as int - 0x30);
        k := k + 1;
      }
      return Ok(Piece([v % 256], 2 + k));
    }
    p := Err(BadEscape);
  }

  // ---------- the round trip ----------

  // `piece` stands for `bytes`, whatever follows it.
  predicate StandsFor(piece: Bytes, bytes: Bytes, rest: Bytes) {
    piece != [] && UnescapePiece(piece + rest) == Ok(Piece(bytes, |piece|))
  }

  lemma {:induction false} AsciiStandsFor(c: byte, rest: Bytes)
    requires c < 0x80
    ensures StandsFor(EscapeAscii(c), [c], rest)
  {
    var piece := EscapeAscii(c);
    var s := piece + rest;
    assert forall i :: 0 <= i < |piece| ==> s[i] == piece[i];
    if piece == [BACKSLASH, 0x78] + HexDigits(c, 2) {
      HexRoundTrip(c, 2, rest) by { assert Power16(2) == 256 by { assert Power16(1) == 16; } }
      assert s[2..] == HexDigits(c, 2) + rest;
    }
  }

  lemma {:induction false} CodePointStandsFor(cp: nat, rest: Bytes)
    requires Scalar(cp)
    ensures StandsFor(EscapeCodePoint(cp), Encode(cp).value, rest)
  {
    var n := if cp <= 0xFFFF then 4 else 8;
    var s := EscapeCodePoint(cp) + rest;
    assert s[0] == BACKSLASH && s[1] == if cp <= 0xFFFF then 0x75 else 0x55;
    assert s[2..] == HexDigits(cp, n) + rest;
    Powers();
    HexRoundTrip(cp, n, rest);
    hide HexDigits, Encode, HexNumber;
    assert HexPiece(s, n) == Ok(cp);
  }

  lemma {:induction false} Powers()
    ensures Power16(4) == 0x1_0000 && Power16(8) == 0x1_0000_0000
  {
    assert Power16(2) == 256 by { assert Power16(1) == 16; }
    assert Power16(3) == 4096;
    assert Power16(4) == 65536;
    assert Power16(5) == 1048576;
    assert Power16(6) == 16777216;
    assert Power16(7) == 268435456;
  }

  lemma {:induction false} UnitStandsFor(s: Bytes, rest: Bytes)
    requires UnitLength(s) > 0
    ensures StandsFor(EscapeUnit(s), s[..UnitLength(s)], rest)
  {
    EncodeDecode(s);
    if s[0] < 0x80 {
      AsciiStandsFor(s[0], rest);
      assert s[..1] == [s[0]];
    } else {
      hide Encode, UnescapePiece, EscapeCodePoint;
      CodePointStandsFor(Decode(s), rest);
    }
  }

  lemma {:induction false} UnescapeFirst(piece: Bytes, bytes: Bytes, escaped: Bytes, rest: Bytes)
    requires StandsFor(piece, bytes, escaped) && Unescape(escaped) == Ok(rest)
    ensures Unescape(piece + escaped) == Ok(bytes + rest)
  {
    hide UnescapePiece;
    assert (piece + escaped)[|piece|..] == escaped;
  }

  // Well-formed text is one unit and well-formed text after it, and so is its escape.
  lemma {:induction false} EscapeSplit(s: Bytes)
    requires WellFormed(s) && s != []
    ensures 0 < UnitLength(s) <= |s| && WellFormed(s[UnitLength(s)..])
    ensures Escape(s) == EscapeUnit(s) + Escape(s[UnitLength(s)..]) && s[..UnitLength(s)] + s[UnitLength(s)..] == s
  {
    hide EscapeUnit, UnitLength;
  }

  lemma {:induction false} NothingEscaped()
    ensures Unescape(Escape([])) == Ok([])
  {}

  /** Unescaping undoes escaping, for every well-formed UTF-8 text. */
  lemma {:induction false} UnescapeEscape(s: Bytes)
    requires WellFormed(s)
    ensures Unescape(Escape(s)) == Ok(s)
    decreases |s|
  {
    hide *;
    if s == [] {
      NothingEscaped();
    } else {
      EscapeSplit(s);
      var n := UnitLength(s);
      var rest := s[n..];
      UnescapeEscape(rest);
      UnitStandsFor(s, Escape(rest));
      UnescapeFirst(EscapeUnit(s), s[..n], Escape(rest), rest);
    }
  }

  // ---------- what escaped text looks like ----------

  lemma {:induction false} HexIsPrintable(x: nat, n: nat)
    ensures forall i :: 0 <= i < n ==> HexValue(HexDigits(x, n)[i]).Some? && Printable(HexDigits(x, n)[i])
  {
    if n > 0 { HexIsPrintable(x / 16, n - 1); }
  }

  predicate AllPrintable(s: Bytes) {
    forall i :: 0 <= i < |s| ==> Printable(s[i])
  }

  lemma {:induction false} UnitIsPrintable(s: Bytes)
    requires UnitLength(s) > 0
    ensures AllPrintable(EscapeUnit(s))
  {
    EncodeDecode(s);
    if s[0] < 0x80 {
      HexIsPrintable(s[0], 2);
      hide HexDigits;
    } else {
      var cp := Decode(s);
      HexIsPrintable(cp, 4);
      HexIsPrintable(cp, 8);
      hide HexDigits, Decode;
    }
  }

  /** Escaped text is printable ASCII throughout. */
  lemma {:induction false} EscapeIsPrintable(s: Bytes)
    requires WellFormed(s)
    ensures AllPrintable(Escape(s))
    decreases |s|
  {
    if s != [] {
      EscapeSplit(s);
      hide EscapeUnit, UnitLength, Escape, WellFormed, Printable;
      UnitIsPrintable(s);
      EscapeIsPrintable(s[UnitLength(s)..]);
    } else {
      assert Escape(s) == [];
    }
  }

  // ---------- the grammar's StringChar (grammar.peg:28) ----------

  function HexRun(s: Bytes): (n: nat)
    ensures n <= |s|
  {
    if s != [] && HexValue(s[0]).Some? then 1 + HexRun(s[1..]) else 0
  }

  function OctalRun(s: Bytes): (n: nat)
    ensures n <= |s|
  {
    if s != [] && Octal(s[0]) then 1 + OctalRun(s[1..]) else 0
  }

  // The letters that may follow a backslash on their own: ' " ? \ % a b f n r t v.
  predicate Escapable(c: byte) {
    c == 0x27 || c == QUOTE || c == 0x3F || c == BACKSLASH || c == 0x25 || LetterValue(c).Some?
  }

  // How much the first `StringChar` of `s` takes, choices in order; 0 when there is none.
  function StringChar(s: Bytes): (n: nat)
    ensures n <= |s|
  {
    if s == [] then 0
    else if s[0] != 0x27 && s[0] != QUOTE && s[0] != 0x0A && s[0] != BACKSLASH then 1
    else if s[0] != BACKSLASH || |s| == 1 then 0
    else if Escapable(s[1]) then 2
    else if Octal(s[1]) then 1 + OctalRun(s[1..])
    else if s[1] == 0x78 && HexRun(s[2..]) > 0 then 2 + HexRun(s[2..])
    else if s[1] == 0x75 && |s| >= 6 && HexNumber(s[2..], 4).Some? then 6
    else if s[1] == 0x55 && |s| >= 10 && HexNumber(s[2..], 8).Some? then 10
    else 0
  }

  // How much `StringChar*` takes.
  function StringChars(s: Bytes): (n: nat)
    ensures n <= |s|
    decreases |s|
  {
    if StringChar(s) == 0 then 0 else StringChar(s) + StringChars(s[StringChar(s)..])
  }

  // A run of digits followed by something that does not go on with one.
  lemma {:induction false} RunThen(digits: Bytes, rest: Bytes)
    requires forall i :: 0 <= i < |digits| ==> HexValue(digits[i]).Some?
    ensures HexRun(digits + rest) == |digits| + HexRun(rest)
    decreases |digits|
  {
    if digits == [] {
      assert digits + rest == rest;
    } else {
      assert (digits + rest)[1..] == digits[1..] + rest;
      RunThen(digits[1..], rest);
    }
  }

  // What follows the digits of a hexadecimal escape: letters of the text that are digits too go with it.
  lemma {:induction false} RunOfOne(c: byte, rest: Bytes, after: Bytes)
    requires HexValue(c).Some? && HexRun(rest + after) <= |rest|
    ensures HexRun([c] + rest + after) == 1 + HexRun(rest + after)
    ensures ([c] + rest)[HexRun([c] + rest + after)..] == rest[HexRun(rest + after)..]
  {
    hide HexValue;
    assert ([c] + rest + after)[1..] == rest + after;
  }

  lemma {:induction false} RunOfEscape(s: Bytes, after: Bytes) returns (s': Bytes)
    requires WellFormed(s) && HexRun(after) == 0
    ensures WellFormed(s') && |s'| <= |s|
    ensures HexRun(Escape(s) + after) <= |Escape(s)| && Escape(s)[HexRun(Escape(s) + after)..] == Escape(s')
    decreases |s|
  {
    if s == [] {
      s' := s;
      assert [] + after == after;
    } else {
      var n := UnitLength(s);
      var rest := Escape(s[n..]);
      if s[0] < 0x80 && EscapeAscii(s[0]) == [s[0]] && HexValue(s[0]).Some? {
        s' := RunOfEscape(s[1..], after);
        assert Escape(s) == [s[0]] + rest;
        hide Escape, WellFormed, UnitLength, EscapeAscii;
        RunOfOne(s[0], rest, after);
      } else {
        s' := s;
        EscapeStart(s);
        assert (Escape(s) + after)[0] == Escape(s)[0];
      }
    }
  }

  lemma {:induction false} EscapeStart(s: Bytes)
    requires WellFormed(s) && s != []
    ensures Escape(s) != [] && (!(s[0] < 0x80 && EscapeAscii(s[0]) == [s[0]] && HexValue(s[0]).Some?) ==> HexValue(Escape(s)[0]).None?)
  {
    EncodeDecode(s);
    hide Decode, Encode, HexDigits;
    assert Escape(s)[0] == EscapeUnit(s)[0];
  }

  // One unit and the grammar: it is one character, or, as a hexadecimal escape, part of one.
  lemma {:induction false} UnitChar(s: Bytes, rest: Bytes)
    requires UnitLength(s) > 0
    ensures var piece := EscapeUnit(s);
            && piece != []
            && StringChar(piece + rest) == if s[0] < 0x80 && EscapeAscii(s[0]) == [BACKSLASH, 0x78] + HexDigits(s[0], 2)
                                           then |piece| + HexRun(rest) else |piece|
  {
    EncodeDecode(s);
    if s[0] < 0x80 { AsciiChar(s[0], rest); } else { CodePointChar(Decode(s), rest); }
  }

  lemma {:induction false} AsciiChar(c: byte, rest: Bytes)
    requires c < 0x80
    ensures var piece := EscapeAscii(c);
            StringChar(piece + rest) == if piece == [BACKSLASH, 0x78] + HexDigits(c, 2) then |piece| + HexRun(rest) else |piece|
  {
    var piece := EscapeAscii(c);
    var s := piece + rest;
    assert forall i :: 0 <= i < |piece| ==> s[i] == piece[i];
    if piece == [BACKSLASH, 0x78] + HexDigits(c, 2) {
      HexIsPrintable(c, 2);
      assert s[2..] == HexDigits(c, 2) + rest;
      RunThen(HexDigits(c, 2), rest);
    } else {
      assert |piece| <= 2;
    }
  }

  lemma {:induction false} CodePointChar(cp: nat, rest: Bytes)
    requires Scalar(cp)
    ensures StringChar(EscapeCodePoint(cp) + rest) == |EscapeCodePoint(cp)|
  {
    var n := if cp <= 0xFFFF then 4 else 8;
    var s := EscapeCodePoint(cp) + rest;
    assert s[0] == BACKSLASH && s[1] == if cp <= 0xFFFF then 0x75 else 0x55;
    assert s[2..] == HexDigits(cp, n) + rest;
    Powers();
    HexRoundTrip(cp, n, rest);
    hide HexDigits, HexNumber, HexRun, OctalRun;
  }

  /**
   The grammar reads a quoted literal back: on escaped text followed by a quote, `StringChar*` takes
   exactly the escaped text.  There is no quote in it that is not escaped.
   */
  lemma {:induction false} EscapeLexes(s: Bytes, after: Bytes)
    requires WellFormed(s)
    ensures StringChars(Escape(s) + ([QUOTE] + after)) == |Escape(s)|
    decreases |s|
  {
    var tail := [QUOTE] + after;
    if s == [] {
      assert [] + tail == tail;
    } else {
      var n := UnitLength(s);
      var piece, rest := EscapeUnit(s), Escape(s[n..]);
      var hex := s[0] < 0x80 && EscapeAscii(s[0]) == [BACKSLASH, 0x78] + HexDigits(s[0], 2);
      UnitChar(s, rest + tail);
      assert HexRun(tail) == 0 && Escape(s) == piece + rest;
      hide *;
      var m, s' := 0, s[n..];
      if hex {
        s' := RunOfEscape(s[n..], tail);
        m := HexRun(rest + tail);
      }
      EscapeLexes(s', after);
      LexStep(piece, rest, tail, m, Escape(s'));
    }
  }

  lemma {:induction false} LexStep(piece: Bytes, rest: Bytes, tail: Bytes, m: nat, rest': Bytes)
    requires piece != [] && StringChar(piece + (rest + tail)) == |piece| + m && m <= |rest| && rest' == rest[m..]
    requires StringChars(rest' + tail) == |rest'|
    ensures StringChars((piece + rest) + tail) == |piece + rest|
  {
    hide StringChar;
    var s := piece + (rest + tail);
    assert (piece + rest) + tail == s && s[|piece| + m..] == rest' + tail;
  }
}
