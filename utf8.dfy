/**
 * Strict UTF-8, as Python's `bytes.decode("utf-8")` applies it to the lines a meter sends:
 * overlong forms, surrogates, code points above U+10FFFF and stray continuation bytes
 * are errors (None). The encoder is the partner the decoder is proved against.
 */
module Utf8 {
  import opened Wrappers
  import opened Common

  predicate IsCont(b: byte) { 0x80 <= b <= 0xBF }

  /** A Unicode scalar value: a code point that is not a surrogate. */
  predicate IsScalar(n: int) { 0 <= n < 0xD800 || 0xE000 <= n < 0x110000 }

  /** Number of bytes of the sequence a lead byte announces; 0 for a byte that cannot lead. */
  function SeqLength(b0: byte): nat {
    if b0 < 0x80 then 1
    else if 0xC2 <= b0 <= 0xDF then 2
    else if 0xE0 <= b0 <= 0xEF then 3
    else if 0xF0 <= b0 <= 0xF4 then 4
    else 0
  }

  /** The range allowed for the second byte, which excludes overlong forms, surrogates and too-large values. */
  function SecondLow(b0: byte): byte { if b0 == 0xE0 then 0xA0 else if b0 == 0xF0 then 0x90 else 0x80 }
  function SecondHigh(b0: byte): byte { if b0 == 0xED then 0x9F else if b0 == 0xF4 then 0x8F else 0xBF }

  /** The code point of one well-formed sequence at the front of `b`, with its length. */
  function DecodeScalar(b: seq<byte>): (r: Option<(int, nat)>)
    ensures r.Some? ==> IsScalar(r.value.0) && 1 <= r.value.1 <= |b|
  {
    if b == [] then None
    else
      var n := SeqLength(b[0]);
      if n == 0 || |b| < n then None
      else if n == 1 then Some((b[0] as int, 1))
      else if n == 2 then
        if !IsCont(b[1]) then None
        else Some(((b[0] as int - 0xC0) * 64 + (b[1] as int - 0x80), 2))
      else if !(SecondLow(b[0]) <= b[1] <= SecondHigh(b[0])) || !IsCont(b[2]) then None
      else if n == 3 then
        Some(((b[0] as int - 0xE0) * 4096 + (b[1] as int - 0x80) * 64 + (b[2] as int - 0x80), 3))
      else if !IsCont(b[3]) then None
      else
        Some(((b[0] as int - 0xF0) * 262144 + (b[1] as int - 0x80) * 4096 + (b[2] as int - 0x80) * 64
              + (b[3] as int - 0x80), 4))
  }

  /** `bytes.decode("utf-8")`: None where Python raises UnicodeDecodeError. */
  function Decode(b: seq<byte>): Option<string>
    decreases |b|
  {
    if b == [] then Some([])
    else
      match DecodeScalar(b)
      case None => None
      case Some((n, k)) =>
        match Decode(b[k..])
        case None => None
        case Some(rest) => Some([n as char] + rest)
  }

  /** `str.encode("utf-8")` of one character. */
  function EncodeChar(c: char): (r: seq<byte>)
    ensures 1 <= |r| <= 4
  {
    var n := c as int;
    if n < 0x80 then [n as byte]
    else if n < 0x800 then [(0xC0 + n / 64) as byte, (0x80 + n % 64) as byte]
    else if n < 0x10000 then [(0xE0 + n / 4096) as byte, (0x80 + n / 64 % 64) as byte, (0x80 + n % 64) as byte]
    else [(0xF0 + n / 262144) as byte, (0x80 + n / 4096 % 64) as byte, (0x80 + n / 64 % 64) as byte,
          (0x80 + n % 64) as byte]
  }

  function Encode(s: string): seq<byte> {
    if s == [] then [] else EncodeChar(s[0]) + Encode(s[1..])
  }

  /** The decoder reads back the encoding of one character, whatever follows it. */
  lemma DecodeScalarOfEncode(c: char, rest: seq<byte>)
    ensures DecodeScalar(EncodeChar(c) + rest) == Some((c as int, |EncodeChar(c)|))
  {
    var n := c as int;
    if n < 0x80 {
    } else if n < 0x800 {
      DecodeTwo(n, EncodeChar(c) + rest);
    } else if n < 0x10000 {
      DecodeThree(n, EncodeChar(c) + rest);
    } else {
      DecodeFour(n, EncodeChar(c) + rest);
    }
  }

  lemma DecodeTwo(n: int, b: seq<byte>)
    requires 0x80 <= n < 0x800 && |b| >= 2
    requires b[0] == (0xC0 + n / 64) as byte && b[1] == (0x80 + n % 64) as byte
    ensures DecodeScalar(b) == Some((n, 2))
  {
    assert b[0] as int == 0xC0 + n / 64 && b[1] as int == 0x80 + n % 64;
  }

  lemma DecodeThree(n: int, b: seq<byte>)
    requires 0x800 <= n < 0x10000 && IsScalar(n) && |b| >= 3
    requires b[0] == (0xE0 + n / 4096) as byte && b[1] == (0x80 + n / 64 % 64) as byte
    requires b[2] == (0x80 + n % 64) as byte
    ensures DecodeScalar(b) == Some((n, 3))
  {
    var d0, d1, d2 := n / 4096, n / 64 % 64, n % 64;
    assert n == d0 * 4096 + d1 * 64 + d2;
    assert b[0] as int == 0xE0 + d0 && b[1] as int == 0x80 + d1 && b[2] as int == 0x80 + d2;
    assert d0 == 0 ==> d1 >= 32;
    assert d0 == 13 ==> d1 < 32;
  }

  lemma DecodeFour(n: int, b: seq<byte>)
    requires 0x10000 <= n < 0x110000 && |b| >= 4
    requires b[0] == (0xF0 + n / 262144) as byte && b[1] == (0x80 + n / 4096 % 64) as byte
    requires b[2] == (0x80 + n / 64 % 64) as byte && b[3] == (0x80 + n % 64) as byte
    ensures DecodeScalar(b) == Some((n, 4))
  {
    FourDigits(n);
    DecodeFourDigits(n / 262144, n / 4096 % 64, n / 64 % 64, n % 64, b);
  }

  /** The four base-64 digits of a supplementary code point. */
  lemma FourDigits(n: int)
    requires 0x10000 <= n < 0x110000
    ensures n == n / 262144 * 262144 + n / 4096 % 64 * 4096 + n / 64 % 64 * 64 + n % 64
    ensures 0 <= n / 262144 <= 4 && 0 <= n / 4096 % 64 < 64 && 0 <= n / 64 % 64 < 64 && 0 <= n % 64 < 64
    ensures n / 262144 == 0 ==> n / 4096 % 64 >= 16
    ensures n / 262144 == 4 ==> n / 4096 % 64 < 16
  {
  }

  lemma DecodeFourDigits(d0: int, d1: int, d2: int, d3: int, b: seq<byte>)
    requires 0 <= d0 <= 4 && 0 <= d1 < 64 && 0 <= d2 < 64 && 0 <= d3 < 64 && |b| >= 4
    requires d0 == 0 ==> d1 >= 16
    requires d0 == 4 ==> d1 < 16
    requires b[0] == (0xF0 + d0) as byte && b[1] == (0x80 + d1) as byte
    requires b[2] == (0x80 + d2) as byte && b[3] == (0x80 + d3) as byte
    ensures DecodeScalar(b) == Some((d0 * 262144 + d1 * 4096 + d2 * 64 + d3, 4))
  {
    assert b[0] as int == 0xF0 + d0 && b[1] as int == 0x80 + d1;
    assert b[2] as int == 0x80 + d2 && b[3] as int == 0x80 + d3;
  }

  /** Decoding inverts encoding: `s.encode().decode() == s`. */
  lemma {:induction false} DecodeEncode(s: string)
    ensures Decode(Encode(s)) == Some(s)
  {
    if s != [] {
      var e := EncodeChar(s[0]);
      DecodeScalarOfEncode(s[0], Encode(s[1..]));
      assert (e + Encode(s[1..]))[|e|..] == Encode(s[1..]);
      DecodeEncode(s[1..]);
      assert [s[0]] + s[1..] == s;
    }
  }

  /** ASCII bytes decode to the characters with the same codes. */
  lemma {:induction false} DecodeAscii(b: seq<byte>)
    requires forall i :: 0 <= i < |b| ==> b[i] < 0x80
    ensures Decode(b).Some? && |Decode(b).value| == |b|
    ensures forall i :: 0 <= i < |b| ==> Decode(b).value[i] as int == b[i] as int
  {
    if b != [] {
      DecodeAscii(b[1..]);
    }
  }
}
