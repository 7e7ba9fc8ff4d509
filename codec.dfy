/**
 * Pack and unpack functions for the four color pixel formats of
 * `pixel_format_t`. Their inputs are channels already narrowed to the width
 * the format stores (4, 5, 6 or 8 bits). Each layout is proved against the
 * documented bit string, and each format is proved to round-trip.
 */
module Codec {
  import opened Types
  import opened BitStrings

  type U4 = x: int | 0 <= x < 16
  type U5 = x: int | 0 <= x < 32
  type U6 = x: int | 0 <= x < 64

  /** A color narrowed to 4 bits per channel, for the 12-bit format. */
  datatype Rgb444 = Rgb444(r: U4, g: U4, b: U4)

  /** A color narrowed to 5, 6 and 5 bits, for the 16-bit format. */
  datatype Rgb565 = Rgb565(r: U5, g: U6, b: U5)

  /** A color narrowed to 6 bits per channel, for the 18-bit-in-24 format. */
  datatype Rgb666 = Rgb666(r: U6, g: U6, b: U6)

  /** The bytes of a buffer as one bit string, in memory order, each byte MSB first. */
  function ByteBits(bs: seq<byte>): (s: seq<bool>)
    ensures |s| == 8 * |bs|
  {
    if bs == [] then [] else Bits(bs[0], 8) + ByteBits(bs[1..])
  }

  lemma ByteBits2(bs: seq<byte>)
    requires |bs| == 2
    ensures ByteBits(bs) == Bits(bs[0], 8) + Bits(bs[1], 8)
  {
    assert ByteBits(bs[1..]) == Bits(bs[1], 8) + ByteBits(bs[2..]);
  }

  lemma ByteBits3(bs: seq<byte>)
    requires |bs| == 3
    ensures ByteBits(bs) == Bits(bs[0], 8) + Bits(bs[1], 8) + Bits(bs[2], 8)
  {
    ByteBits2(bs[1..]);
  }

  /** Byte buffers of equal length with the same bit string are equal. */
  lemma {:induction false} ByteBitsInjective(a: seq<byte>, b: seq<byte>)
    requires |a| == |b| && ByteBits(a) == ByteBits(b)
    ensures a == b
  {
    if a != [] {
      SplitEqual(Bits(a[0], 8), ByteBits(a[1..]), Bits(b[0], 8), ByteBits(b[1..]));
      assert Pow2(8) == 256;
      BitsInjective(a[0], b[0], 8);
      ByteBitsInjective(a[1..], b[1..]);
      assert a == [a[0]] + a[1..];
      assert b == [b[0]] + b[1..];
    }
  }

  // Bit strings of values made of two fields, one lemma per pair of widths
  // the formats use.

  lemma Split44(v: byte, hi: U4, lo: U4)
    requires v == hi * 16 + lo
    ensures Bits(v, 8) == Bits(hi, 4) + Bits(lo, 4)
  {
    assert Pow2(4) == 16;
    BitsJoin(v, hi, lo, 4, 4, 16);
  }

  lemma Split53(v: byte, hi: U5, lo: nat)
    requires lo < 8 && v == hi * 8 + lo
    ensures Bits(v, 8) == Bits(hi, 5) + Bits(lo, 3)
  {
    assert Pow2(3) == 8;
    BitsJoin(v, hi, lo, 5, 3, 8);
  }

  lemma Split35(v: byte, hi: nat, lo: U5)
    requires hi < 8 && v == hi * 32 + lo
    ensures Bits(v, 8) == Bits(hi, 3) + Bits(lo, 5)
  {
    assert Pow2(5) == 32;
    BitsJoin(v, hi, lo, 3, 5, 32);
  }

  lemma Split33(v: U6, hi: nat, lo: nat)
    requires lo < 8 && v == hi * 8 + lo
    ensures Bits(v, 6) == Bits(hi, 3) + Bits(lo, 3)
  {
    assert Pow2(3) == 8;
    BitsJoin(v, hi, lo, 3, 3, 8);
  }

  lemma Split62(v: byte, hi: U6, lo: nat)
    requires lo < 4 && v == hi * 4 + lo
    ensures Bits(v, 8) == Bits(hi, 6) + Bits(lo, 2)
  {
    assert Pow2(2) == 4;
    BitsJoin(v, hi, lo, 6, 2, 4);
  }

  // ---------------------------------------------------------------------------
  // 12-bit: RRRRGGGG BBBBRRRR GGGGBBBB, two pixels in three bytes
  // ---------------------------------------------------------------------------

  /** Two adjacent pixels p (first) and q (second) in the 12-bit format. */
  function Pack12(p: Rgb444, q: Rgb444): seq<byte>
  {
    [p.r * 16 + p.g, p.b * 16 + q.r, q.g * 16 + q.b]
  }

  /** The two pixels held by three bytes of the 12-bit format, in order. */
  function Unpack12(bs: seq<byte>): (pq: (Rgb444, Rgb444))
    requires |bs| == 3
  {
    (Rgb444(bs[0] / 16, bs[0] % 16, bs[1] / 16), Rgb444(bs[1] % 16, bs[2] / 16, bs[2] % 16))
  }

  /** The documented nibble order of the 12-bit format. */
  ghost function Layout12(p: Rgb444, q: Rgb444): seq<bool>
  {
    Bits(p.r, 4) + Bits(p.g, 4) + Bits(p.b, 4) + Bits(q.r, 4) + Bits(q.g, 4) + Bits(q.b, 4)
  }

  lemma Pack12Layout(p: Rgb444, q: Rgb444)
    ensures ByteBits(Pack12(p, q)) == Layout12(p, q)
  {
    var bs := Pack12(p, q);
    ByteBits3(bs);
    Split44(bs[0], p.r, p.g);
    Split44(bs[1], p.b, q.r);
    Split44(bs[2], q.g, q.b);
  }

  lemma Unpack12Layout(bs: seq<byte>)
    requires |bs| == 3
    ensures ByteBits(bs) == Layout12(Unpack12(bs).0, Unpack12(bs).1)
  {
    var u := Unpack12(bs);
    Pack12Unpack12(bs);
    Pack12Layout(u.0, u.1);
  }

  /** Unpacking packed pixels gives back both pixels unchanged, in order. */
  lemma Unpack12Pack12(p: Rgb444, q: Rgb444)
    ensures Unpack12(Pack12(p, q)) == (p, q)
  {
    var bs := Pack12(p, q);
    DivModUnique(bs[0], 16, p.r, p.g);
    DivModUnique(bs[1], 16, p.b, q.r);
    DivModUnique(bs[2], 16, q.g, q.b);
  }

  /** Every 3-byte group is the packing of the two pixels it decodes to. */
  lemma Pack12Unpack12(bs: seq<byte>)
    requires |bs| == 3
    ensures Pack12(Unpack12(bs).0, Unpack12(bs).1) == bs
  {
  }

  // ---------------------------------------------------------------------------
  // 16-bit: RRRRRGGG GGGBBBBB
  // ---------------------------------------------------------------------------

  function Pack16(c: Rgb565): seq<byte>
  {
    [c.r * 8 + c.g / 8, (c.g % 8) * 32 + c.b]
  }

  function Unpack16(bs: seq<byte>): Rgb565
    requires |bs| == 2
  {
    Rgb565(bs[0] / 8, (bs[0] % 8) * 8 + bs[1] / 32, bs[1] % 32)
  }

  /** The documented bit order of the 16-bit format. */
  ghost function Layout16(c: Rgb565): seq<bool>
  {
    Bits(c.r, 5) + Bits(c.g, 6) + Bits(c.b, 5)
  }

  lemma Pack16Layout(c: Rgb565)
    ensures ByteBits(Pack16(c)) == Layout16(c)
  {
    var bs := Pack16(c);
    ByteBits2(bs);
    var gHi, gLo := c.g / 8, c.g % 8;
    Split33(c.g, gHi, gLo);
    Split53(bs[0], c.r, gHi);
    Split35(bs[1], gLo, c.b);
  }

  lemma Unpack16Layout(bs: seq<byte>)
    requires |bs| == 2
    ensures ByteBits(bs) == Layout16(Unpack16(bs))
  {
    Pack16Unpack16(bs);
    Pack16Layout(Unpack16(bs));
  }

  lemma Unpack16Pack16(c: Rgb565)
    ensures Unpack16(Pack16(c)) == c
  {
    var bs := Pack16(c);
    DivModUnique(bs[0], 8, c.r, c.g / 8);
    DivModUnique(bs[1], 32, c.g % 8, c.b);
  }

  lemma Pack16Unpack16(bs: seq<byte>)
    requires |bs| == 2
    ensures Pack16(Unpack16(bs)) == bs
  {
    var c := Unpack16(bs);
    DivModUnique(c.g, 8, bs[0] % 8, bs[1] / 32);
  }

  // ---------------------------------------------------------------------------
  // 18-bit in 24: RRRRRRxx GGGGGGxx BBBBBBxx
  // ---------------------------------------------------------------------------

  /** The model writes the two `x` bits of each byte as zero. */
  function Pack18(c: Rgb666): seq<byte>
  {
    [c.r * 4, c.g * 4, c.b * 4]
  }

  function Unpack18(bs: seq<byte>): Rgb666
    requires |bs| == 3
  {
    Rgb666(bs[0] / 4, bs[1] / 4, bs[2] / 4)
  }

  /** Each channel is the top six bits of its byte; the low two bits are padding. */
  lemma Unpack18Layout(bs: seq<byte>)
    requires |bs| == 3
    ensures var c := Unpack18(bs);
      ByteBits(bs) == Bits(c.r, 6) + Bits(bs[0] % 4, 2)
                    + Bits(c.g, 6) + Bits(bs[1] % 4, 2)
                    + Bits(c.b, 6) + Bits(bs[2] % 4, 2)
  {
    ByteBits3(bs);
    var c := Unpack18(bs);
    Split62(bs[0], c.r, bs[0] % 4);
    Split62(bs[1], c.g, bs[1] % 4);
    Split62(bs[2], c.b, bs[2] % 4);
  }

  lemma Pack18Layout(c: Rgb666)
    ensures ByteBits(Pack18(c)) == Bits(c.r, 6) + [false, false]
                                 + Bits(c.g, 6) + [false, false]
                                 + Bits(c.b, 6) + [false, false]
  {
    var bs := Pack18(c);
    ByteBits3(bs);
    Split62(bs[0], c.r, 0);
    Split62(bs[1], c.g, 0);
    Split62(bs[2], c.b, 0);
    assert Bits(0, 2) == [false, false];
  }

  /** Whatever the padding bits hold, the bytes decode to the same color. */
  lemma Unpack18IgnoresPadding(c: Rgb666, x0: int, x1: int, x2: int)
    requires 0 <= x0 < 4 && 0 <= x1 < 4 && 0 <= x2 < 4
    ensures Unpack18([c.r * 4 + x0, c.g * 4 + x1, c.b * 4 + x2]) == c
  {
  }

  lemma Unpack18Pack18(c: Rgb666)
    ensures Unpack18(Pack18(c)) == c
  {
    Unpack18IgnoresPadding(c, 0, 0, 0);
  }

  /** Re-encoding a decoded color keeps the color bits and clears the padding. */
  lemma Pack18Unpack18(bs: seq<byte>)
    requires |bs| == 3
    ensures Pack18(Unpack18(bs)) == [bs[0] - bs[0] % 4, bs[1] - bs[1] % 4, bs[2] - bs[2] % 4]
  {
  }

  // ---------------------------------------------------------------------------
  // 24-bit: RRRRRRRR GGGGGGGG BBBBBBBB
  // ---------------------------------------------------------------------------

  function Pack24(c: Color): seq<byte>
  {
    [c.r, c.g, c.b]
  }

  function Unpack24(bs: seq<byte>): Color
    requires |bs| == 3
  {
    Color(bs[0], bs[1], bs[2])
  }

  lemma Pack24Layout(c: Color)
    ensures ByteBits(Pack24(c)) == Bits(c.r, 8) + Bits(c.g, 8) + Bits(c.b, 8)
  {
    ByteBits3(Pack24(c));
  }

  lemma Unpack24Pack24(c: Color)
    ensures Unpack24(Pack24(c)) == c
  {
  }

  lemma Pack24Unpack24(bs: seq<byte>)
    requires |bs| == 3
    ensures Pack24(Unpack24(bs)) == bs
  {
  }

  // ---------------------------------------------------------------------------
  // Sizes
  // ---------------------------------------------------------------------------

  /**
   * Every format stores a pixel in exactly its number of bits: 12 (two pixels
   * in three bytes), 16, 24 for the padded 18-bit format, and 24.
   */
  lemma PackedSizes(p: Rgb444, q: Rgb444, c16: Rgb565, c18: Rgb666, c24: Color)
    ensures |Pack12(p, q)| * 8 == 2 * StorageBits(Rgb12)
    ensures |Pack16(c16)| * 8 == StorageBits(Rgb16)
    ensures |Pack18(c18)| * 8 == StorageBits(Rgb18In24)
    ensures |Pack24(c24)| * 8 == StorageBits(Rgb24)
  {
  }

  /**
   * The documented layouts fix the bytes: a buffer of the format's size
   * whose bits read as a color's layout is that color's encoding.
   */
  lemma LayoutsDetermineBytes(bs: seq<byte>, p: Rgb444, q: Rgb444, c16: Rgb565, c24: Color)
    ensures |bs| == 3 && ByteBits(bs) == Layout12(p, q) ==> bs == Pack12(p, q)
    ensures |bs| == 2 && ByteBits(bs) == Layout16(c16) ==> bs == Pack16(c16)
    ensures |bs| == 3 && ByteBits(bs) == Bits(c24.r, 8) + Bits(c24.g, 8) + Bits(c24.b, 8) ==> bs == Pack24(c24)
  {
    if |bs| == 3 && ByteBits(bs) == Layout12(p, q) {
      Pack12Layout(p, q);
      ByteBitsInjective(bs, Pack12(p, q));
    }
    if |bs| == 2 && ByteBits(bs) == Layout16(c16) {
      Pack16Layout(c16);
      ByteBitsInjective(bs, Pack16(c16));
    }
    if |bs| == 3 && ByteBits(bs) == Bits(c24.r, 8) + Bits(c24.g, 8) + Bits(c24.b, 8) {
      Pack24Layout(c24);
      ByteBitsInjective(bs, Pack24(c24));
    }
  }
}
