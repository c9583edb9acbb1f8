/** Bytes, 16-bit PCM samples, and the little-endian layout that a DataView
    writes when its `littleEndian` argument is true. */
module Pcm {

  /** One byte of an ArrayBuffer. */
  type Byte = b: int | 0 <= b < 256

  /** One element of an Int16Array. */
  type Int16 = x: int | -32768 <= x < 32768

  const TWO_16: nat := 0x1_0000
  const TWO_32: nat := 0x1_0000_0000

  function Pow256(k: nat): (r: nat)
    ensures r > 0
  {
    if k == 0 then 1 else 256 * Pow256(k - 1)
  }

  lemma Pow256Widths()
    ensures Pow256(2) == TWO_16 && Pow256(4) == TWO_32
  {
  }

  /** The k low-order bytes of x, least significant first. */
  function LeBytes(x: nat, k: nat): (r: seq<Byte>)
    ensures |r| == k
  {
    if k == 0 then [] else [x % 256] + LeBytes(x / 256, k - 1)
  }

  /** The unsigned number that a little-endian byte string denotes. */
  function LeValue(bs: seq<Byte>): (r: nat)
    ensures r < Pow256(|bs|)
  {
    if bs == [] then 0 else bs[0] + 256 * LeValue(bs[1..])
  }

  /** Reading back k bytes written from x gives x, when x fits in k bytes. */
  lemma {:induction false} LeValueOfLeBytes(x: nat, k: nat)
    requires x < Pow256(k)
    ensures LeValue(LeBytes(x, k)) == x
  {
    if k > 0 {
      LeValueOfLeBytes(x / 256, k - 1);
      assert LeBytes(x, k)[1..] == LeBytes(x / 256, k - 1);
    }
  }

  /** Writing back the value of a byte string gives the same bytes. */
  lemma {:induction false} LeBytesOfLeValue(bs: seq<Byte>)
    ensures LeBytes(LeValue(bs), |bs|) == bs
  {
    if bs != [] {
      LeBytesOfLeValue(bs[1..]);
      var v := LeValue(bs);
      assert v % 256 == bs[0] && v / 256 == LeValue(bs[1..]);
    }
  }

  /** A little-endian 32-bit DataView store: the value wraps modulo 2^32. */
  function Le32(v: int): (r: seq<Byte>)
    ensures |r| == 4
  {
    LeBytes(v % TWO_32, 4)
  }

  /** A little-endian 16-bit DataView store, signed or unsigned: the value
      modulo 2^16, which is the two's-complement form of a negative Int16. */
  function Le16(v: int): (r: seq<Byte>)
    ensures |r| == 2
  {
    LeBytes(v % TWO_16, 2)
  }

  /** The signed 16-bit reading of the unsigned 16-bit value u. */
  function Int16Of(u: nat): Int16
    requires u < TWO_16
  {
    if u >= 0x8000 then u - TWO_16 else u
  }

  lemma Le32Value(v: int)
    ensures LeValue(Le32(v)) == v % TWO_32
  {
    Pow256Widths();
    LeValueOfLeBytes(v % TWO_32, 4);
  }

  lemma Le16Value(v: int)
    ensures LeValue(Le16(v)) == v % TWO_16
  {
    Pow256Widths();
    LeValueOfLeBytes(v % TWO_16, 2);
  }

  /** An Int16 stored with setInt16 reads back unchanged with getInt16. */
  lemma Int16RoundTrip(v: Int16)
    ensures LeValue(Le16(v)) < TWO_16 && Int16Of(LeValue(Le16(v))) == v
  {
    Le16Value(v);
  }

  /** Every two-byte string is the setInt16 encoding of the Int16 it reads as. */
  lemma Int16BytesRoundTrip(bs: seq<Byte>)
    requires |bs| == 2
    ensures LeValue(bs) < TWO_16 && Le16(Int16Of(LeValue(bs))) == bs
  {
    Pow256Widths();
    var u := LeValue(bs);
    assert Int16Of(u) % TWO_16 == u by {
      if u >= 0x8000 {
        assert Int16Of(u) + TWO_16 == u;
      }
    }
    LeBytesOfLeValue(bs);
  }

  /** Every four-byte string is the setUint32 encoding of the value it reads as. */
  lemma Uint32BytesRoundTrip(bs: seq<Byte>)
    requires |bs| == 4
    ensures Le32(LeValue(bs)) == bs
  {
    Pow256Widths();
    LeBytesOfLeValue(bs);
  }

  /** Every two-byte string is the setUint16 encoding of the value it reads as. */
  lemma Uint16BytesRoundTrip(bs: seq<Byte>)
    requires |bs| == 2
    ensures Le16(LeValue(bs)) == bs
  {
    Pow256Widths();
    LeBytesOfLeValue(bs);
  }
}
