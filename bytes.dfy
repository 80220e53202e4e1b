/** Fixed-width unsigned integers of the x86-64 target and their
    little-endian byte representation, shared by every other module. */
module Bytes {

  type uint8 = x: int | 0 <= x < 0x100
  type uint16 = x: int | 0 <= x < 0x1_0000
  type uint32 = x: int | 0 <= x < 0x1_0000_0000
  type uint64 = x: int | 0 <= x < 0x1_0000_0000_0000_0000

  const TWO_TO_THE_32: nat := 0x1_0000_0000
  const TWO_TO_THE_64: nat := 0x1_0000_0000_0000_0000

  /** Conversion to uint32_t: C++ keeps the value modulo 2^32. */
  function Wrap32(x: int): uint32 { x % TWO_TO_THE_32 }

  /** A value that already fits is kept as it is. */
  lemma Wrap32Fits(x: int)
    requires 0 <= x < TWO_TO_THE_32
    ensures Wrap32(x) == x
  {
  }

  /** Conversion to uint64_t / size_t: C++ keeps the value modulo 2^64. */
  function Wrap64(x: int): uint64 { x % TWO_TO_THE_64 }

  lemma Wrap64Fits(x: int)
    requires 0 <= x < TWO_TO_THE_64
    ensures Wrap64(x) == x
  {
  }

  /** The bytes of a literal narrow string. */
  function Ascii(s: string): (r: seq<uint8>)
    requires forall i | 0 <= i < |s| :: s[i] as int < 0x80
    ensures |r| == |s| && forall i | 0 <= i < |s| :: r[i] == s[i] as int
  {
    seq(|s|, i requires 0 <= i < |s| => s[i] as int)
  }

  function Pow256(n: nat): (r: nat)
    ensures r >= 1
  {
    if n == 0 then 1 else 256 * Pow256(n - 1)
  }

  /** The n-byte little-endian (x86) representation of v, least significant byte first. */
  function LittleEndian(v: nat, n: nat): (r: seq<uint8>)
    requires v < Pow256(n)
    ensures |r| == n
  {
    if n == 0 then [] else [v % 256] + LittleEndian(v / 256, n - 1)
  }

  /** The unsigned value that a little-endian byte sequence denotes. */
  function FromLittleEndian(bs: seq<uint8>): (v: nat)
    ensures v < Pow256(|bs|)
  {
    if bs == [] then 0 else bs[0] + 256 * FromLittleEndian(bs[1..])
  }

  /** Reading back a stored value gives the value. */
  lemma {:induction false} FromLittleEndianOfLittleEndian(v: nat, n: nat)
    requires v < Pow256(n)
    ensures FromLittleEndian(LittleEndian(v, n)) == v
  {
    if n > 0 {
      FromLittleEndianOfLittleEndian(v / 256, n - 1);
      assert LittleEndian(v, n)[1..] == LittleEndian(v / 256, n - 1);
    }
  }

  /** Storing a value read from bytes gives the same bytes back. */
  lemma {:induction false} LittleEndianOfFromLittleEndian(bs: seq<uint8>)
    ensures LittleEndian(FromLittleEndian(bs), |bs|) == bs
  {
    if bs != [] {
      LittleEndianOfFromLittleEndian(bs[1..]);
      var v := FromLittleEndian(bs);
      assert v % 256 == bs[0] && v / 256 == FromLittleEndian(bs[1..]);
    }
  }

  /** The two bytes of a uint16_t in memory. */
  function U16Bytes(v: uint16): (r: seq<uint8>)
    ensures |r| == 2 && FromLittleEndian(r) == v
  {
    Pow256Values();
    FromLittleEndianOfLittleEndian(v, 2);
    LittleEndian(v, 2)
  }

  /** The four bytes of a uint32_t in memory. */
  function U32Bytes(v: uint32): (r: seq<uint8>)
    ensures |r| == 4 && FromLittleEndian(r) == v
  {
    Pow256Values();
    FromLittleEndianOfLittleEndian(v, 4);
    LittleEndian(v, 4)
  }

  /** The eight bytes of a uint64_t in memory. */
  function U64Bytes(v: uint64): (r: seq<uint8>)
    ensures |r| == 8 && FromLittleEndian(r) == v
  {
    Pow256Values();
    FromLittleEndianOfLittleEndian(v, 8);
    LittleEndian(v, 8)
  }

  lemma Pow256Values()
    ensures Pow256(2) == 0x1_0000 && Pow256(4) == TWO_TO_THE_32 && Pow256(8) == TWO_TO_THE_64
  {
    assert Pow256(1) == 256;
    assert Pow256(4) == 256 * Pow256(3);
    assert Pow256(8) == 256 * Pow256(7);
  }
}
