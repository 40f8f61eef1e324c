/** Bytes, little-endian fields and the result types shared by every module.

    Bit operations of the source are written as arithmetic on unbounded
    integers: `v & 0xFF` is `v % 256`, `v >> 8` is `v / 256` (Dafny's Euclidean
    division agrees with Python's operators for positive divisors), and `|` of
    disjoint bits is addition. */
module Bytes {
  type byte = x: int | 0 <= x < 256

  datatype Option<+T> = None | Some(value: T)
  {
    predicate IsFailure() { None? }

    function PropagateFailure<U>(): Option<U>
      requires None?
    {
      None
    }

    function Extract(): T
      requires Some?
    {
      value
    }
  }

  datatype Result<+T, +E> = Ok(value: T) | Err(error: E)

  function U16(lo: byte, hi: byte): (v: nat)
    ensures v < 0x1_0000
  {
    lo + 256 * hi
  }

  function U32(b0: byte, b1: byte, b2: byte, b3: byte): (v: nat)
    ensures v < 0x1_0000_0000
  {
    U16(b0, b1) + 0x1_0000 * U16(b2, b3)
  }

  function Pack16(v: int): seq<byte> {
    [v % 256, v / 256 % 256]
  }

  function Pack32(v: int): seq<byte> {
    Pack16(v) + Pack16(v / 0x1_0000)
  }

  function Signed8(b: byte): int {
    if b < 0x80 then b else b - 0x100
  }

  function Signed16(v: nat): int
    requires v < 0x1_0000
  {
    if v < 0x8000 then v else v - 0x1_0000
  }

  function Zeros(n: nat): seq<byte> {
    seq(n, _ => 0)
  }

  lemma Unpack16(v: int)
    ensures U16(Pack16(v)[0], Pack16(v)[1]) == v % 0x1_0000
  {
    assert v == 256 * (v / 256) + v % 256;
    var q := v / 256;
    assert q == 256 * (q / 256) + q % 256;
    assert v == 0x1_0000 * (q / 256) + (256 * (q % 256) + v % 256);
  }

  lemma Unpack32(v: int)
    ensures (var p := Pack32(v); U32(p[0], p[1], p[2], p[3]) == v % 0x1_0000_0000)
  {
    Unpack16(v);
    Unpack16(v / 0x1_0000);
    Split32(v);
  }

  lemma Split32(v: int)
    ensures v % 0x1_0000_0000 == v % 0x1_0000 + 0x1_0000 * (v / 0x1_0000 % 0x1_0000)
  {
    var high := v / 0x1_0000;
    assert v == 0x1_0000 * high + v % 0x1_0000;
    assert high == 0x1_0000 * (high / 0x1_0000) + high % 0x1_0000;
  }
}
