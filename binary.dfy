/**
 * Fixed-width integers of the C# runtime and their little-endian byte
 * encodings, written out explicitly instead of relying on the host's
 * memory layout (the model assumes a little-endian host throughout).
 */
module Binary {

  type uint8 = x: int | 0 <= x < 0x100
  type uint16 = x: int | 0 <= x < 0x1_0000
  type uint32 = x: int | 0 <= x < 0x1_0000_0000
  type uint64 = x: int | 0 <= x < 0x1_0000_0000_0000_0000
  type int16 = x: int | -0x8000 <= x < 0x8000
  type int32 = x: int | -0x8000_0000 <= x < 0x8000_0000
  type int64 = x: int | -0x8000_0000_0000_0000 <= x < 0x8000_0000_0000_0000

  /** 256 to the power n: the number of distinct values of an n-byte field. */
  function Pow256(n: nat): (r: nat)
    ensures r >= 1
  {
    if n == 0 then 1 else 256 * Pow256(n - 1)
  }

  /** n zero bytes, as `new byte[n]` starts out. */
  function Zeros(n: nat): seq<uint8>
  {
    seq(n, _ => 0)
  }


  /** The n-byte little-endian encoding of v (bytes beyond v's width are zero). */
  function LE(v: nat, n: nat): (r: seq<uint8>)
    ensures |r| == n
  {
    if n == 0 then [] else [v % 256] + LE(v / 256, n - 1)
  }

  /** The unsigned value of a little-endian byte sequence. */
  function FromLE(s: seq<uint8>): nat
  {
    if s == [] then 0 else s[0] + 256 * FromLE(s[1..])
  }

  lemma {:induction false} FromLEBound(s: seq<uint8>)
    ensures FromLE(s) < Pow256(|s|)
  {
    if s != [] {
      FromLEBound(s[1..]);
    }
  }

  /** Reading back an encoding recovers the value, as long as it fits the width. */
  lemma {:induction false} FromLEOfLE(v: nat, n: nat)
    requires v < Pow256(n)
    ensures FromLE(LE(v, n)) == v
  {
    if n > 0 {
      assert v / 256 < Pow256(n - 1);
      FromLEOfLE(v / 256, n - 1);
      assert LE(v, n)[1..] == LE(v / 256, n - 1);
    }
  }

  /** Encoding the value of a byte sequence gives the same bytes back. */
  lemma {:induction false} LEOfFromLE(s: seq<uint8>)
    ensures LE(FromLE(s), |s|) == s
  {
    if s != [] {
      LEOfFromLE(s[1..]);
      ByteDivMod(s[0], FromLE(s[1..]));
      assert s == [s[0]] + s[1..];
    }
  }

  /** Splitting lo + 256 * hi back into its low byte and the rest. */
  lemma ByteDivMod(lo: uint8, hi: nat)
    ensures (lo + 256 * hi) % 256 == lo && (lo + 256 * hi) / 256 == hi
  {
  }

  /** 16-bit byte reversal (BinaryPrimitives.ReverseEndianness on ushort). */
  function Swap16(x: uint16): (r: uint16)
    ensures LE(r, 2) == [LE(x, 2)[1], LE(x, 2)[0]]
  {
    (x % 256) * 256 + x / 256
  }

  /** A 16-bit byte swap is an involution. */
  lemma SwapTwice(x: uint16)
    ensures Swap16(Swap16(x)) == x
  {
    var lo, hi := x % 256, x / 256;
    assert Swap16(x) == lo * 256 + hi;
    assert (lo * 256 + hi) % 256 == hi && (lo * 256 + hi) / 256 == lo;
  }

  /** Half the range of an n-byte field: the bound of the signed values it holds. */
  function Half(n: nat): (r: int)
    ensures 2 * r == Pow256(n) || n == 0
  {
    if n == 0 then 0 else 128 * Pow256(n - 1)
  }

  /** The ranges of 2-, 4- and 8-byte fields, and the signed bounds of 2- and 4-byte ones. */
  lemma Pow256Widths()
    ensures Pow256(2) == 0x1_0000 && Pow256(4) == 0x1_0000_0000 && Pow256(8) == 0x1_0000_0000_0000_0000
    ensures Half(2) == 0x8000 && Half(4) == 0x8000_0000
  {
  }

  /** Two's-complement bit pattern of a signed value of n bytes. */
  function ToUnsigned(x: int, n: nat): (r: nat)
    requires -Half(n) <= x < Half(n)
    ensures r < Pow256(n)
    ensures r == x || r == x + Pow256(n)
  {
    if x < 0 then x + Pow256(n) else x
  }

  /** Signed value of an n-byte two's-complement bit pattern. */
  function ToSigned(u: nat, n: nat): (r: int)
    requires u < Pow256(n)
    ensures 0 < n ==> -Half(n) <= r < Half(n)
    ensures r == u || r == u - Pow256(n)
  {
    if u < Half(n) then u else u - Pow256(n)
  }

  lemma SignedRoundTrip(x: int, n: nat)
    requires -Half(n) <= x < Half(n)
    ensures ToSigned(ToUnsigned(x, n), n) == x
  {
  }

  /** BitConverter.ToUInt32 of the 4 bytes starting at offset, on a little-endian host. */
  function ReadUInt32LE(s: seq<uint8>, offset: nat): uint32
    requires offset + 4 <= |s|
  {
    s[offset] as int + 0x100 * s[offset + 1] as int
      + 0x1_0000 * s[offset + 2] as int + 0x100_0000 * s[offset + 3] as int
  }

  /** The unsigned read takes exactly the four bytes at offset, least significant first. */
  lemma ReadUInt32LEBytes(s: seq<uint8>, offset: nat)
    requires offset + 4 <= |s|
    ensures ReadUInt32LE(s, offset) == FromLE(s[offset..offset + 4])
    ensures LE(ReadUInt32LE(s, offset), 4) == s[offset..offset + 4]
  {
    var w := s[offset..offset + 4];
    assert w[1..][1..][1..][1..] == [];
    assert FromLE(w[1..][1..][1..]) == w[3];
    assert FromLE(w[1..][1..]) == w[2] as int + 0x100 * w[3] as int;
    LEOfFromLE(w);
  }

  /** BitConverter.ToInt32 of the 4 bytes starting at offset, on a little-endian host. */
  function ReadInt32LE(s: seq<uint8>, offset: nat): int32
    requires offset + 4 <= |s|
  {
    var u := ReadUInt32LE(s, offset);
    if u < 0x8000_0000 then u else u - 0x1_0000_0000
  }

  /** The signed read is the two's-complement reading of the same four bytes. */
  lemma ReadInt32LEBytes(s: seq<uint8>, offset: nat)
    requires offset + 4 <= |s|
    ensures FromLE(s[offset..offset + 4]) < Pow256(4)
    ensures ReadInt32LE(s, offset) == ToSigned(FromLE(s[offset..offset + 4]), 4)
    ensures LE(ToUnsigned(ReadInt32LE(s, offset), 4), 4) == s[offset..offset + 4]
  {
    ReadUInt32LEBytes(s, offset);
  }

  /** BitConverter.GetBytes(int32) on a little-endian host. */
  function Int32Bytes(x: int32): (r: seq<uint8>)
    ensures |r| == 4
  {
    LE(ToUnsigned(x, 4), 4)
  }

  /** BitConverter.GetBytes(long) on a little-endian host. */
  function Int64Bytes(x: int64): (r: seq<uint8>)
    ensures |r| == 8
  {
    LE(ToUnsigned(x, 8), 8)
  }

  /** Reading an int32 back from its own bytes, wherever they sit, gives the value. */
  lemma Int32RoundTrip(x: int32, prefix: seq<uint8>, suffix: seq<uint8>)
    ensures ReadInt32LE(prefix + Int32Bytes(x) + suffix, |prefix|) == x
  {
    var s := prefix + Int32Bytes(x) + suffix;
    assert s[|prefix|..|prefix| + 4] == Int32Bytes(x);
    ReadInt32LEBytes(s, |prefix|);
    FromLEOfLE(ToUnsigned(x, 4), 4);
  }

  /** Every 64-bit tick count is recovered from its 8 bytes. */
  lemma Int64RoundTrip(x: int64)
    ensures FromLE(Int64Bytes(x)) < Pow256(8)
    ensures ToSigned(FromLE(Int64Bytes(x)), 8) == x
  {
    FromLEOfLE(ToUnsigned(x, 8), 8);
  }

  /** The low 32 bits of x read as a signed number: C# unchecked int arithmetic. */
  function WrapInt32(x: int): (r: int32)
    ensures -0x8000_0000 <= x < 0x8000_0000 ==> r == x
  {
    var u := x % 0x1_0000_0000;
    if u < 0x8000_0000 then u else u - 0x1_0000_0000
  }

  /** The wrapped value differs from x by a multiple of 2^32. */
  lemma WrapInt32Congruent(x: int)
    ensures (x - WrapInt32(x)) % 0x1_0000_0000 == 0
  {
  }
}
