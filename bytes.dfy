/**
 * Bytes and the fixed-width little-endian integers that .NET's BinaryWriter
 * writes: `int` (4 bytes, two's complement) and `long` (8 bytes).
 */
module Bytes {

  type byte = x: int | 0 <= x < 256

  const TWO_31: int := 0x8000_0000
  const TWO_32: int := 0x1_0000_0000
  const TWO_63: int := 0x8000_0000_0000_0000
  const TWO_64: int := 0x1_0000_0000_0000_0000

  function Pow256(n: nat): (r: nat)
    ensures r >= 1
  {
    if n == 0 then 1 else 256 * Pow256(n - 1)
  }

  /** The n low-order bytes of u, least significant first. */
  function LittleEndian(u: nat, n: nat): (r: seq<byte>)
    ensures |r| == n
  {
    if n == 0 then [] else [u % 256] + LittleEndian(u / 256, n - 1)
  }

  /** The unsigned value of a little-endian byte string. */
  function FromLittleEndian(b: seq<byte>): (r: nat)
    ensures r < Pow256(|b|)
  {
    if b == [] then 0 else b[0] + 256 * FromLittleEndian(b[1..])
  }

  lemma {:induction false} LittleEndianRoundTrip(u: nat, n: nat)
    requires u < Pow256(n)
    ensures FromLittleEndian(LittleEndian(u, n)) == u
  {
    if n > 0 {
      LittleEndianRoundTrip(u / 256, n - 1);
      assert LittleEndian(u, n)[1..] == LittleEndian(u / 256, n - 1);
    }
  }

  predicate IsInt32(x: int) { -TWO_31 <= x < TWO_31 }

  predicate IsInt64(x: int) { -TWO_63 <= x < TWO_63 }

  /** The C# conversion `(int) x` of an integer: keep the low 32 bits, read them as signed. */
  function Int32Wrap(x: int): (r: int)
    ensures IsInt32(r)
    ensures (x - r) % TWO_32 == 0
    ensures IsInt32(x) ==> r == x
  {
    var u := x % TWO_32;
    if u < TWO_31 then u else u - TWO_32
  }

  /** `BinaryWriter.Write(int)`. */
  function Int32Bytes(x: int): (r: seq<byte>)
    ensures |r| == 4
  {
    LittleEndian(x % TWO_32, 4)
  }

  /** `BinaryWriter.Write(long)`. */
  function Int64Bytes(x: int): (r: seq<byte>)
    ensures |r| == 8
  {
    LittleEndian(x % TWO_64, 8)
  }

  /** `BinaryReader.ReadInt32`. */
  function ReadInt32(b: seq<byte>): (r: int)
    requires |b| == 4
    ensures IsInt32(r)
  {
    assert Pow256(4) == TWO_32;
    var u := FromLittleEndian(b);
    if u < TWO_31 then u else u - TWO_32
  }

  /** `BinaryReader.ReadInt64`. */
  function ReadInt64(b: seq<byte>): (r: int)
    requires |b| == 8
    ensures IsInt64(r)
  {
    assert Pow256(8) == TWO_64;
    var u := FromLittleEndian(b);
    if u < TWO_63 then u else u - TWO_64
  }

  lemma Int32RoundTrip(x: int)
    requires IsInt32(x)
    ensures ReadInt32(Int32Bytes(x)) == x
  {
    assert Pow256(4) == TWO_32;
    LittleEndianRoundTrip(x % TWO_32, 4);
  }

  lemma Int64RoundTrip(x: int)
    requires IsInt64(x)
    ensures ReadInt64(Int64Bytes(x)) == x
  {
    assert Pow256(8) == TWO_64;
    LittleEndianRoundTrip(x % TWO_64, 8);
  }

  function Zeros(n: nat): (r: seq<byte>)
    ensures |r| == n && forall i :: 0 <= i < n ==> r[i] == 0
  {
    seq(n, _ => 0)
  }
}
