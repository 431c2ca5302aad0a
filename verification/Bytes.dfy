/** Bytes and the little-endian integers packed into them. */
module Bytes {
  type Byte = b: int | 0 <= b < 0x100

  type U16 = v: int | 0 <= v < 0x1_0000

  type U32 = v: int | 0 <= v < 0x1_0000_0000

  function Le16(v: U16): (b: seq<Byte>)
    ensures |b| == 2 && U16At(b, 0) == v
  {
    [v % 0x100, v / 0x100]
  }

  function U16At(b: seq<Byte>, i: nat): U16
    requires i + 2 <= |b|
  {
    b[i] as int + 0x100 * b[i + 1] as int
  }

  function Le32(v: U32): (b: seq<Byte>)
    ensures |b| == 4 && U32At(b, 0) == v
  {
    [v % 0x100, v / 0x100 % 0x100, v / 0x1_0000 % 0x100, v / 0x100_0000]
  }

  function U32At(b: seq<Byte>, i: nat): U32
    requires i + 4 <= |b|
  {
    b[i] as int + 0x100 * b[i + 1] as int + 0x1_0000 * b[i + 2] as int + 0x100_0000 * b[i + 3] as int
  }

  /** Packing what was unpacked gives the same bytes back. */
  lemma Le32OfU32At(b: seq<Byte>, i: nat)
    requires i + 4 <= |b|
    ensures Le32(U32At(b, i)) == b[i..i + 4]
  {
    Digits(b[i], b[i + 1], b[i + 2], b[i + 3]);
  }

  lemma Digits(d0: Byte, d1: Byte, d2: Byte, d3: Byte)
    ensures var v := d0 as int + 0x100 * d1 as int + 0x1_0000 * d2 as int + 0x100_0000 * d3 as int;
            v % 0x100 == d0 && v / 0x100 % 0x100 == d1 && v / 0x1_0000 % 0x100 == d2 && v / 0x100_0000 == d3
  {
    var v := d0 as int + 0x100 * d1 as int + 0x1_0000 * d2 as int + 0x100_0000 * d3 as int;
    assert v / 0x100 == d1 as int + 0x100 * d2 as int + 0x1_0000 * d3 as int;
    assert v / 0x1_0000 == d2 as int + 0x100 * d3 as int;
  }
}
