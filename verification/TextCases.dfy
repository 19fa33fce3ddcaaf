/** What the escapes of a literal and the units of UTF-8 stand for, said in numbers: string_helpers.hpp:129-339. */
module TextCases {
  import opened Wrappers
  import opened Store
  import opened Utf8
  import opened PythonString

  // Some bytes, then what the rest of the literal stands for.
  function Before(bytes: Bytes, rest: Result<Bytes, TextError>): Result<Bytes, TextError> {
    if rest.Ok? then Ok(bytes + rest.value) else rest
  }

  // A digit from '0' to '7'.
  predicate IsOctal(c: byte) {
    0x30 <= c < 0x38
  }

  lemma {:induction false} PieceFirst(s: Bytes, rest: Bytes, p: Piece)
    requires s != [] && UnescapePiece(s + rest) == Ok(p) && p.taken == |s|
    ensures Unescape(s + rest) == Before(p.bytes, Unescape(rest))
  {
    assert (s + rest)[|s|..] == rest;
    hide UnescapePiece;
  }

  /** Three octal digits stand for one byte, modulo 256; fewer for less, when no further digit follows. */
  lemma {:induction false} OctalEscape(a: byte, b: byte, c: byte, rest: Bytes)
    requires IsOctal(a) && IsOctal(b) && IsOctal(c)
    ensures Unescape([0x5C, a, b, c] + rest) == Before([(64 * (a - 0x30) + 8 * (b - 0x30) + (c - 0x30)) % 256], Unescape(rest))
    ensures rest == [] || !IsOctal(rest[0]) ==>
              && Unescape([0x5C, a, b] + rest) == Before([8 * (a - 0x30) + (b - 0x30)], Unescape(rest))
              && Unescape([0x5C, a] + rest) == Before([a - 0x30], Unescape(rest))
  {
    hide Unescape;
    OctalThree(a, b, c, rest);
    PieceFirst([0x5C, a, b, c], rest, Piece([(64 * (a - 0x30) + 8 * (b - 0x30) + (c - 0x30)) % 256], 4));
    if rest == [] || !IsOctal(rest[0]) {
      OctalShort(a, b, rest);
      PieceFirst([0x5C, a, b], rest, Piece([8 * (a - 0x30) + (b - 0x30)], 3));
      PieceFirst([0x5C, a], rest, Piece([a - 0x30], 2));
    }
  }

  lemma {:induction false} OctalThree(a: byte, b: byte, c: byte, rest: Bytes)
    requires IsOctal(a) && IsOctal(b) && IsOctal(c)
    ensures UnescapePiece([0x5C, a, b, c] + rest) == Ok(Piece([(64 * (a - 0x30) + 8 * (b - 0x30) + (c - 0x30)) % 256], 4))
  {
    var s := [0x5C, a, b, c] + rest;
    assert s[0] == 0x5C && s[1] == a && s[2] == b && s[3] == c;
  }

  lemma {:induction false} OctalShort(a: byte, b: byte, rest: Bytes)
    requires IsOctal(a) && IsOctal(b) && (rest == [] || !IsOctal(rest[0]))
    ensures UnescapePiece([0x5C, a, b] + rest) == Ok(Piece([8 * (a - 0x30) + (b - 0x30)], 3))
    ensures UnescapePiece([0x5C, a] + rest) == Ok(Piece([a - 0x30], 2))
  {
    var s, t := [0x5C, a, b] + rest, [0x5C, a] + rest;
    assert s[0] == 0x5C && s[1] == a && s[2] == b && (rest != [] ==> s[3] == rest[0]);
    assert t[0] == 0x5C && t[1] == a && (rest != [] ==> t[2] == rest[0]);
  }

  /** A backslash before a line break stands for nothing. */
  lemma {:induction false} LineContinuation(rest: Bytes)
    ensures Unescape([0x5C, 0x0A] + rest) == Unescape(rest)
  {
    var s := [0x5C, 0x0A] + rest;
    assert s[0] == 0x5C && s[1] == 0x0A;
    assert UnescapePiece(s) == Ok(Piece([], 2));
    hide Unescape;
    PieceFirst([0x5C, 0x0A], rest, Piece([], 2));
    if Unescape(rest).Ok? { assert [] + Unescape(rest).value == Unescape(rest).value; }
  }

  // The digits from 0 to 15 as they may be written, '0' to '9' and 'a' to 'f' or 'A' to 'F'.
  predicate Writes(c: byte, d: nat) {
    (d < 10 && c == 0x30 + d) || (10 <= d < 16 && (c == 0x41 + d - 10 || c == 0x61 + d - 10))
  }

  /** Two hexadecimal digits, in upper or lower case, stand for the byte they spell. */
  lemma {:induction false} HexEscape(h: byte, high: nat, l: byte, low: nat, rest: Bytes)
    requires Writes(h, high) && Writes(l, low)
    ensures Unescape([0x5C, 0x78, h, l] + rest) == Before([16 * high + low], Unescape(rest))
  {
    var s := [0x5C, 0x78, h, l] + rest;
    assert s[0] == 0x5C && s[1] == 0x78 && s[2..][0] == h && s[2..][1] == l;
    assert HexNumber(s[2..], 1) == Some(high);
    assert HexNumber(s[2..], 2) == Some(16 * high + low);
    assert UnescapePiece(s) == Ok(Piece([16 * high + low], 4));
    hide Unescape, UnescapePiece;
    PieceFirst([0x5C, 0x78, h, l], rest, Piece([16 * high + low], 4));
  }

  // The escape letter of each control character that has one: a, b, t, n, v, f, r.
  const LETTERS: seq<(byte, byte)> := [(0x61, 0x07), (0x62, 0x08), (0x74, 0x09), (0x6E, 0x0A), (0x76, 0x0B), (0x66, 0x0C), (0x72, 0x0D)]

  /** The letters, both ways; quotes and the backslash stand for themselves. */
  lemma {:induction false} LetterEscape(i: nat, q: byte, rest: Bytes)
    requires i < |LETTERS| && q in {0x22, 0x27, 0x5C}
    ensures Unescape([0x5C, LETTERS[i].0] + rest) == Before([LETTERS[i].1], Unescape(rest))
    ensures Unescape([0x5C, q] + rest) == Before([q], Unescape(rest))
    ensures EscapeAscii(LETTERS[i].1) == [0x5C, LETTERS[i].0] && EscapeAscii(q) == [0x5C, q]
  {
    var s, t := [0x5C, LETTERS[i].0] + rest, [0x5C, q] + rest;
    assert s[0] == 0x5C && s[1] == LETTERS[i].0 && t[0] == 0x5C && t[1] == q;
    assert UnescapePiece(s) == Ok(Piece([LETTERS[i].1], 2));
    assert UnescapePiece(t) == Ok(Piece([q], 2));
    hide Unescape, UnescapePiece;
    PieceFirst([0x5C, LETTERS[i].0], rest, Piece([LETTERS[i].1], 2));
    PieceFirst([0x5C, q], rest, Piece([q], 2));
  }

  /** Four hexadecimal digits stand for the code point they spell, in UTF-8. */
  lemma {:induction false} CodePointEscape(c: seq<byte>, d: seq<nat>, rest: Bytes)
    requires |c| == |d| == 4 && Writes(c[0], d[0]) && Writes(c[1], d[1]) && Writes(c[2], d[2]) && Writes(c[3], d[3])
    ensures var unit := Encode(4096 * d[0] + 256 * d[1] + 16 * d[2] + d[3]);
            Unescape([0x5C, 0x75] + c + rest) == if unit.Ok? then Before(unit.value, Unescape(rest)) else unit
  {
    var s, v := [0x5C, 0x75] + c + rest, 4096 * d[0] + 256 * d[1] + 16 * d[2] + d[3];
    var digits := s[2..];
    assert s[0] == 0x5C && s[1] == 0x75;
    assert digits[0] == c[0] && digits[1] == c[1] && digits[2] == c[2] && digits[3] == c[3];
    FourDigits(digits, d);
    assert UnescapePiece(s) == CodePointPiece(s, 4);
    hide Unescape, UnescapePiece, Encode, HexNumber;
    var unit := Encode(v);
    if unit.Ok? {
      PieceFirst([0x5C, 0x75] + c, rest, Piece(unit.value, 6));
    } else {
      PieceFails(s);
    }
  }

  lemma {:induction false} PieceFails(s: Bytes)
    requires s != [] && UnescapePiece(s).Err?
    ensures Unescape(s) == Err(UnescapePiece(s).error)
  {
    hide UnescapePiece;
  }

  lemma {:induction false} FourDigits(s: Bytes, d: seq<nat>)
    requires |s| >= 4 && |d| == 4 && Writes(s[0], d[0]) && Writes(s[1], d[1]) && Writes(s[2], d[2]) && Writes(s[3], d[3])
    ensures HexNumber(s, 4) == Some(4096 * d[0] + 256 * d[1] + 16 * d[2] + d[3])
  {
    assert HexNumber(s, 1) == Some(d[0]);
    assert HexNumber(s, 2) == Some(16 * d[0] + d[1]);
    assert HexNumber(s, 3) == Some(256 * d[0] + 16 * d[1] + d[2]);
  }

  /** One code point of each length, and three that have no encoding. */
  lemma {:induction false} UnitsOfEachLength()
    ensures Encode(0x41) == Ok([0x41]) && Encode(0xE9) == Ok([0xC3, 0xA9])
    ensures Encode(0x20AC) == Ok([0xE2, 0x82, 0xAC]) && Encode(0x1F600) == Ok([0xF0, 0x9F, 0x98, 0x80])
    ensures Encode(0xD800).Err? && Encode(0xDFFF).Err? && Encode(0x11_0000).Err?
  {}

  // The digits from 0 to 15 in lower case.
  function Lower(d: nat): byte
    requires d < 16
  {
    if d < 10 then 0x30 + d else 0x57 + d
  }

  /** Of the other characters those from the space to the tilde stay; the rest is spelled in two lower-case digits. */
  lemma {:induction false} OtherCharacters(c: byte)
    requires c < 0x80 && c !in {0x22, 0x27, 0x5C} && !(0x07 <= c <= 0x0D)
    ensures EscapeAscii(c) == if 0x20 <= c <= 0x7E then [c] else [0x5C, 0x78, Lower(c / 16), Lower(c % 16)]
  {
    assert HexDigits(c, 2) == HexDigits(c / 16, 1) + [HexDigit(c % 16)];
    assert HexDigits(c / 16, 1) == [] + [HexDigit(c / 16 % 16)];
  }
}
