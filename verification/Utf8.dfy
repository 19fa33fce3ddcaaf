/** UTF-8: `append_utf8` and `decode_utf8` of string_helpers.hpp, against section 4 of RFC 3629. */
module Utf8 {
  import opened Wrappers
  import opened Store

  type Bytes = seq<byte>

  datatype TextError = TrailingBackslash | TooShort | BadHexDigit | OutOfRange | Surrogate | BadEscape

  // ---------- well-formed UTF-8 (section 4 of RFC 3629) ----------

  predicate Tail(b: byte) {
    0x80 <= b <= 0xBF
  }

  // The length of the well-formed sequence `s` starts with; 0 when there is none.
  function UnitLength(s: Bytes): (n: nat)
    ensures n <= |s| && n <= 4
    ensures n > 0 ==> s != []
  {
    if s == [] then 0
    else if s[0] <= 0x7F then 1
    else if 0xC2 <= s[0] <= 0xDF && |s| >= 2 && Tail(s[1]) then 2
    else if |s| >= 3 && Tail(s[2])
      && ((s[0] == 0xE0 && 0xA0 <= s[1] <= 0xBF)
          || (0xE1 <= s[0] <= 0xEC && Tail(s[1]))
          || (s[0] == 0xED && 0x80 <= s[1] <= 0x9F)
          || (0xEE <= s[0] <= 0xEF && Tail(s[1]))) then 3
    else if |s| >= 4 && Tail(s[2]) && Tail(s[3])
      && ((s[0] == 0xF0 && 0x90 <= s[1] <= 0xBF)
          || (0xF1 <= s[0] <= 0xF3 && Tail(s[1]))
          || (s[0] == 0xF4 && 0x80 <= s[1] <= 0x8F)) then 4
    else 0
  }

  predicate WellFormed(s: Bytes) {
    s == [] || (UnitLength(s) > 0 && WellFormed(s[UnitLength(s)..]))
  }

  // ---------- code points ----------

  predicate Scalar(cp: nat) {
    cp <= 0x10FFFF && !(0xD800 <= cp <= 0xDFFF)
  }

  // The bytes of a code point; shifts and masks are written as the arithmetic they are.
  function Encode(cp: nat): (r: Result<Bytes, TextError>)
    ensures r.Ok? <==> Scalar(cp)
  {
    if cp > 0x10FFFF then Err(OutOfRange)
    else if 0xD800 <= cp <= 0xDFFF then Err(Surrogate)
    else if cp <= 0x7F then Ok([cp])
    else if cp <= 0x7FF then Ok([0xC0 + cp / 0x40, 0x80 + cp % 0x40])
    else if cp <= 0xFFFF then Ok([0xE0 + cp / 0x1000, 0x80 + cp / 0x40 % 0x40, 0x80 + cp % 0x40])
    else Ok([0xF0 + cp / 0x4_0000, 0x80 + cp / 0x1000 % 0x40, 0x80 + cp / 0x40 % 0x40, 0x80 + cp % 0x40])
  }

  /**
   Scalar values and nothing else can be appended.  What is appended is one well-formed unit, and
   decoding it gives the value back.
   */
  method AppendUtf8(out: Bytes, cp: nat) returns (r: Result<Bytes, TextError>)
    ensures r.Ok? <==> Scalar(cp)
    ensures r.Err? ==> r.error == if cp > 0x10FFFF then OutOfRange else Surrogate
    ensures r.Ok? ==> out < r.value && (var u := r.value[|out|..]; UnitLength(u) == |u| && DecodeLength(u[0]) <= |u| && Decode(u) == cp)
    ensures r == if Encode(cp).Ok? then Ok(out + Encode(cp).value) else Err(Encode(cp).error)
  {
    if cp > 0x10FFFF { return Err(OutOfRange); }
    if cp >= 0xD800 && cp <= 0xDFFF { return Err(Surrogate); }
    var bytes := out;
    if cp <= 0x7F {
      bytes := bytes + [cp];
    } else if cp <= 0x7FF {
      bytes := bytes + [0xC0 + cp / 0x40];
      bytes := bytes + [0x80 + cp % 0x40];
    } else if cp <= 0xFFFF {
      bytes := bytes + [0xE0 + cp / 0x1000];
      bytes := bytes + [0x80 + cp / 0x40 % 0x40];
      bytes := bytes + [0x80 + cp % 0x40];
    } else {
      bytes := bytes + [0xF0 + cp / 0x4_0000];
      bytes := bytes + [0x80 + cp / 0x1000 % 0x40];
      bytes := bytes + [0x80 + cp / 0x40 % 0x40];
      bytes := bytes + [0x80 + cp % 0x40];
    }
    assert bytes == out + Encode(cp).value;
    r := Ok(bytes);
    hide Decode, Encode, UnitLength, DecodeLength;
    DecodeEncode(cp, []);
    assert Encode(cp).value + [] == Encode(cp).value == bytes[|out|..];
  }

  // The low bits of a byte, `m` being a power of two.
  function Bits(b: byte, m: nat): nat
    requires m > 0
  {
    b as int % m
  }

  // How many bytes the decoder takes, from the first one alone.
  function DecodeLength(b: byte): nat {
    if b < 0x80 then 1 else if b / 32 == 0x6 then 2 else if b / 16 == 0xE then 3 else 4
  }

  // The decoder: it does not check what it is given.
  function Decode(s: Bytes): nat
    requires s != [] && DecodeLength(s[0]) <= |s|
  {
    if s[0] < 0x80 then s[0] as int
    else if s[0] / 32 == 0x6 then Bits(s[0], 0x20) * 0x40 + Bits(s[1], 0x40)
    else if s[0] / 16 == 0xE then Bits(s[0], 0x10) * 0x1000 + Bits(s[1], 0x40) * 0x40 + Bits(s[2], 0x40)
    else Bits(s[0], 0x08) * 0x4_0000 + Bits(s[1], 0x40) * 0x1000 + Bits(s[2], 0x40) * 0x40 + Bits(s[3], 0x40)
  }

  /** Where a well-formed unit begins, its scalar value is read and exactly that unit is stepped over. */
  method DecodeUtf8(s: Bytes, i: nat) returns (cp: nat, next: nat)
    requires i < |s| && i + DecodeLength(s[i]) <= |s|
    ensures UnitLength(s[i..]) > 0 ==> next == i + UnitLength(s[i..]) && Scalar(cp) && Encode(cp) == Ok(s[i..next])
    ensures cp == Decode(s[i..]) && next == i + DecodeLength(s[i])
  {
    var c := s[i];
    if c < 0x80 {
      cp, next := c as int, i + 1;
    } else if c / 32 == 0x6 {
      cp, next := Bits(c, 0x20) * 0x40 + Bits(s[i + 1], 0x40), i + 2;
    } else if c / 16 == 0xE {
      cp, next := Bits(c, 0x10) * 0x1000 + Bits(s[i + 1], 0x40) * 0x40 + Bits(s[i + 2], 0x40), i + 3;
    } else {
      cp, next := Bits(c, 0x08) * 0x4_0000 + Bits(s[i + 1], 0x40) * 0x1000 + Bits(s[i + 2], 0x40) * 0x40 + Bits(s[i + 3], 0x40), i + 4;
    }
    assert cp == Decode(s[i..]) && next == i + DecodeLength(s[i]) && s[i..][0] == s[i];
    hide Decode, Encode, Bits, UnitLength, DecodeLength;
    if UnitLength(s[i..]) > 0 {
      EncodeDecode(s[i..]);
      LengthsAgree(s[i..]);
      assert s[i..][..UnitLength(s[i..])] == s[i..next];
    }
  }

  // ---------- the two against each other ----------

  // The unchecked decoder takes exactly the well-formed unit.
  lemma {:induction false} LengthsAgree(s: Bytes)
    requires UnitLength(s) > 0
    ensures DecodeLength(s[0]) == UnitLength(s) <= |s|
  {}

  lemma {:induction false} TailParts(b: byte)
    requires Tail(b)
    ensures b == 0x80 + Bits(b, 0x40)
  {}

  lemma {:induction false} Digits2(a: nat, b: nat)
    requires b < 0x40
    ensures (a * 0x40 + b) / 0x40 == a && (a * 0x40 + b) % 0x40 == b
  {}

  /** A well-formed unit decodes to a scalar value, and encoding that gives the unit back. */
  lemma {:induction false} EncodeDecode(s: Bytes)
    requires UnitLength(s) > 0
    ensures DecodeLength(s[0]) <= |s| && Scalar(Decode(s)) && Encode(Decode(s)) == Ok(s[..UnitLength(s)])
  {
    LengthsAgree(s);
    var n := UnitLength(s);
    if n == 1 {
      assert s[..1] == [s[0]];
    } else if n == 2 {
      TailParts(s[1]);
      Digits2(Bits(s[0], 0x20), Bits(s[1], 0x40));
      assert s[..2] == [s[0], s[1]];
    } else if n == 3 {
      Three(s);
    } else {
      Four(s);
    }
  }

  lemma {:induction false} Three(s: Bytes)
    requires UnitLength(s) == 3
    ensures DecodeLength(s[0]) <= |s| && Scalar(Decode(s)) && Encode(Decode(s)) == Ok(s[..3])
  {
    TailParts(s[1]);
    TailParts(s[2]);
    var a, b, c := Bits(s[0], 0x10), Bits(s[1], 0x40), Bits(s[2], 0x40);
    var cp := a * 0x1000 + b * 0x40 + c;
    Digits2(a * 0x40 + b, c);
    Digits2(a, b);
    assert cp / 0x40 == a * 0x40 + b && cp / 0x1000 == a;
    assert s[..3] == [s[0], s[1], s[2]];
  }

  lemma {:induction false} Four(s: Bytes)
    requires UnitLength(s) == 4
    ensures DecodeLength(s[0]) <= |s| && Scalar(Decode(s)) && Encode(Decode(s)) == Ok(s[..4])
  {
    TailParts(s[1]);
    TailParts(s[2]);
    TailParts(s[3]);
    var a, b, c, d := Bits(s[0], 0x08), Bits(s[1], 0x40), Bits(s[2], 0x40), Bits(s[3], 0x40);
    var cp := a * 0x4_0000 + b * 0x1000 + c * 0x40 + d;
    Digits2((a * 0x40 + b) * 0x40 + c, d);
    Digits2(a * 0x40 + b, c);
    Digits2(a, b);
    assert cp / 0x40 == (a * 0x40 + b) * 0x40 + c && cp / 0x1000 == a * 0x40 + b && cp / 0x4_0000 == a;
    assert s[..4] == [s[0], s[1], s[2], s[3]];
  }

  /** Encoding a scalar value gives a well-formed unit that decodes to it, whatever follows. */
  lemma {:induction false} DecodeEncode(cp: nat, rest: Bytes)
    requires Scalar(cp)
    ensures var u := Encode(cp).value; UnitLength(u + rest) == |u| && DecodeLength((u + rest)[0]) <= |u + rest| && Decode(u + rest) == cp
  {
    var u := Encode(cp).value;
    var s := u + rest;
    assert forall i :: 0 <= i < |u| ==> s[i] == u[i];
    if cp > 0xFFFF {
      FromFour(cp, s);
    } else if cp > 0x7FF {
      FromThree(cp, s);
    }
  }

  lemma {:induction false} FromThree(cp: nat, s: Bytes)
    requires 0x7FF < cp <= 0xFFFF && Scalar(cp) && |s| >= 3
    requires s[0] == 0xE0 + cp / 0x1000 && s[1] == 0x80 + cp / 0x40 % 0x40 && s[2] == 0x80 + cp % 0x40
    ensures UnitLength(s) == 3 && DecodeLength(s[0]) == 3 && Decode(s) == cp
  {
    var a, b, c := cp / 0x1000, cp / 0x40 % 0x40, cp % 0x40;
    assert cp == 0x1000 * a + 0x40 * b + c by { assert cp / 0x40 / 0x40 == a; }
    assert Bits(s[0], 0x10) == a && Bits(s[1], 0x40) == b && Bits(s[2], 0x40) == c;
  }

  lemma {:induction false} FromFour(cp: nat, s: Bytes)
    requires 0xFFFF < cp <= 0x10FFFF && |s| >= 4
    requires s[0] == 0xF0 + cp / 0x4_0000 && s[1] == 0x80 + cp / 0x1000 % 0x40 && s[2] == 0x80 + cp / 0x40 % 0x40 && s[3] == 0x80 + cp % 0x40
    ensures UnitLength(s) == 4 && DecodeLength(s[0]) == 4 && Decode(s) == cp
  {
    var a, b, c, d := cp / 0x4_0000, cp / 0x1000 % 0x40, cp / 0x40 % 0x40, cp % 0x40;
    assert cp == 0x4_0000 * a + 0x1000 * b + 0x40 * c + d by {
      assert cp / 0x40 / 0x40 == cp / 0x1000 && cp / 0x1000 / 0x40 == a;
    }
    assert Bits(s[0], 0x08) == a && Bits(s[1], 0x40) == b && Bits(s[2], 0x40) == c && Bits(s[3], 0x40) == d;
  }
}
