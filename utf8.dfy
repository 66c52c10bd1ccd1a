/**
 * UTF-8, as `Encoding.UTF8.GetBytes` produces it for a string of Unicode
 * scalar values, and a decoder that inverts it.
 */
module Utf8 {
  import opened Wrappers
  import opened Bytes

  predicate IsContinuation(b: byte) { 0x80 <= b < 0xC0 }

  /** The one to four bytes of one scalar value. */
  function EncodeChar(c: char): (r: seq<byte>)
    ensures 1 <= |r| <= 4
    ensures |r| == 1 <==> (c as int) < 0x80
    ensures |r| == 1 ==> r[0] == c as int
  {
    var n := c as int;
    if n < 0x80 then [n]
    else if n < 0x800 then [0xC0 + n / 64, 0x80 + n % 64]
    else if n < 0x1_0000 then
      var q := n / 64;
      [0xE0 + q / 64, 0x80 + q % 64, 0x80 + n % 64]
    else
      var q := n / 64;
      var q2 := q / 64;
      [0xF0 + q2 / 64, 0x80 + q2 % 64, 0x80 + q % 64, 0x80 + n % 64]
  }

  function Encode(s: string): (r: seq<byte>)
    ensures |r| >= |s|
  {
    if s == [] then [] else EncodeChar(s[0]) + Encode(s[1..])
  }

  /** The six value bits of a continuation byte. */
  function Payload(b: byte): int { b as int - 0x80 }

  function ToChar(n: int, k: nat): Option<(char, nat)>
  {
    if 0 <= n < 0xD800 || 0xE000 <= n < 0x11_0000 then Some((n as char, k)) else None
  }

  /** The scalar value at the head of b and the number of bytes it takes, if well-formed. */
  function DecodeChar(b: seq<byte>): (r: Option<(char, nat)>)
    requires |b| >= 1
    ensures r.Some? ==> 1 <= r.value.1 <= |b|
  {
    var b0: int := b[0];
    if b0 < 0x80 then Some((b0 as char, 1))
    else if 0xC0 <= b0 < 0xE0 && |b| >= 2 && IsContinuation(b[1]) then
      ToChar((b0 - 0xC0) * 64 + Payload(b[1]), 2)
    else if 0xE0 <= b0 < 0xF0 && |b| >= 3 && IsContinuation(b[1]) && IsContinuation(b[2]) then
      ToChar(((b0 - 0xE0) * 64 + Payload(b[1])) * 64 + Payload(b[2]), 3)
    else if 0xF0 <= b0 < 0xF8 && |b| >= 4 && IsContinuation(b[1]) && IsContinuation(b[2])
         && IsContinuation(b[3]) then
      ToChar((((b0 - 0xF0) * 64 + Payload(b[1])) * 64 + Payload(b[2])) * 64 + Payload(b[3]), 4)
    else None
  }

  function Decode(b: seq<byte>): Option<string>
    decreases |b|
  {
    if b == [] then Some([])
    else match DecodeChar(b)
      case None => None
      case Some((c, k)) =>
        match Decode(b[k..])
        case None => None
        case Some(rest) => Some([c] + rest)
  }

  lemma DecodeEncodeChar(c: char, rest: seq<byte>)
    ensures DecodeChar(EncodeChar(c) + rest) == Some((c, |EncodeChar(c)|))
  {
    var n := c as int;
    var b := EncodeChar(c) + rest;
    var b0: int := b[0];
    if n < 0x80 {
    } else if n < 0x800 {
      assert b0 == 0xC0 + n / 64 && Payload(b[1]) == n % 64;
      assert (b0 - 0xC0) * 64 + Payload(b[1]) == n;
    } else if n < 0x1_0000 {
      var q := n / 64;
      assert b0 == 0xE0 + q / 64 && Payload(b[1]) == q % 64 && Payload(b[2]) == n % 64;
      assert (b0 - 0xE0) * 64 + Payload(b[1]) == q;
      assert ((b0 - 0xE0) * 64 + Payload(b[1])) * 64 + Payload(b[2]) == n;
    } else {
      var q := n / 64;
      var q2 := q / 64;
      assert b0 == 0xF0 + q2 / 64 && Payload(b[1]) == q2 % 64;
      assert Payload(b[2]) == q % 64 && Payload(b[3]) == n % 64;
      assert (b0 - 0xF0) * 64 + Payload(b[1]) == q2;
      assert ((b0 - 0xF0) * 64 + Payload(b[1])) * 64 + Payload(b[2]) == q;
    }
  }

  /** Decoding inverts encoding. */
  lemma {:induction false} DecodeEncode(s: string)
    ensures Decode(Encode(s)) == Some(s)
  {
    if s != [] {
      var e := EncodeChar(s[0]);
      DecodeEncodeChar(s[0], Encode(s[1..]));
      assert Encode(s)[|e|..] == Encode(s[1..]);
      DecodeEncode(s[1..]);
      assert [s[0]] + s[1..] == s;
    }
  }

  /** Distinct strings have distinct encodings. */
  lemma EncodeInjective(s: string, t: string)
    requires Encode(s) == Encode(t)
    ensures s == t
  {
    DecodeEncode(s);
    DecodeEncode(t);
  }

  predicate IsAscii(s: string) { forall i :: 0 <= i < |s| ==> (s[i] as int) < 0x80 }

  /** An ASCII string encodes as one byte per character, the character's code. */
  lemma {:induction false} EncodeAscii(s: string)
    requires IsAscii(s)
    ensures |Encode(s)| == |s|
    ensures forall i :: 0 <= i < |s| ==> Encode(s)[i] == s[i] as int
  {
    if s != [] {
      EncodeAscii(s[1..]);
    }
  }

  lemma {:induction false} EncodeAppend(s: string, t: string)
    ensures Encode(s + t) == Encode(s) + Encode(t)
  {
    if s != [] {
      assert (s + t)[1..] == s[1..] + t;
      EncodeAppend(s[1..], t);
      assert (s + t)[0] == s[0];
    } else {
      assert s + t == t;
    }
  }
}
