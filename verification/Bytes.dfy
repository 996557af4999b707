/** Bytes and little-endian 32-bit numbers. */
module Bytes {
  type byte = b: int | 0 <= b < 256

  const TWO_32: nat := 0x1_0000_0000

  /** Four bytes, least significant first; larger numbers lose their high part. */
  function Le32(v: nat): (r: seq<byte>)
    ensures |r| == 4
  {
    [v % 256, v / 256 % 256, v / 256 / 256 % 256, v / 256 / 256 / 256 % 256]
  }

  function ReadLe32(b: seq<byte>): nat
    requires |b| >= 4
  {
    var (b0: int, b1: int, b2: int, b3: int) := (b[0], b[1], b[2], b[3]);
    b0 + 256 * b1 + 0x1_0000 * b2 + 0x100_0000 * b3
  }

  lemma Le32RoundTrip(v: nat, rest: seq<byte>)
    ensures ReadLe32(Le32(v) + rest) == v % TWO_32
  {
    var b := Le32(v) + rest;
    var q1 := v / 256;
    var q2 := q1 / 256;
    var q3 := q2 / 256;
    assert b[0] == v % 256 && b[1] == q1 % 256 && b[2] == q2 % 256 && b[3] == q3 % 256;
    LowPart(v, q3 / 256, ReadLe32(b));
  }

  lemma LowPart(v: nat, q: nat, r: nat)
    requires r < TWO_32 && v == TWO_32 * q + r
    ensures v % TWO_32 == r
  {
  }
}
