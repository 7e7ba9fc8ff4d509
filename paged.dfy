/**
 * The 1-bit paged monochrome format (`PIXEL_FORMAT_1BIT_BW_PAGED`): every
 * run of `width` bytes is a page of 8 lines, byte x of a page holds column x
 * of those lines, and the most significant bit is the upper line.
 *
 * The bytes of this format are `bv8`, so the C bit operators `&`, `|`, `~`
 * and `>>` that set and test a pixel are Dafny's own.
 */
module Paged {
  import opened BitStrings

  /** Pages needed for `height` lines; a partial last page takes a whole page. */
  function PageCount(height: nat): nat
  {
    (height + 7) / 8
  }

  /** Bytes of a buffer of `width` columns and `height` lines. */
  function BufferSize(width: nat, height: nat): nat
  {
    width * PageCount(height)
  }

  /** The byte that holds pixel (x, y): column x of page y / 8. */
  function PixelIndex(width: nat, x: nat, y: nat): nat
  {
    (y / 8) * width + x
  }

  /** The mask of line k of a page, counted from the MSB: `0x80 >> k`. */
  function Mask(k: nat): (m: bv8)
    requires k < 8
    ensures m == (0x80 as bv8) >> k
  {
    match k
    case 0 => 0x80
    case 1 => 0x40
    case 2 => 0x20
    case 3 => 0x10
    case 4 => 0x08
    case 5 => 0x04
    case 6 => 0x02
    case 7 => 0x01
  }

  /** Whether line k of byte b is set: `(b & (0x80 >> k)) != 0`. */
  predicate BitAt(b: bv8, k: nat)
    requires k < 8
  {
    b & Mask(k) != 0
  }

  /** b with line k set (`b | mask`) or cleared (`b & ~mask`). */
  function WriteBit(b: bv8, k: nat, on: bool): bv8
    requires k < 8
  {
    if on then b | Mask(k) else b & !Mask(k)
  }

  /** Line 0 is the most significant bit and line 7 the least significant. */
  lemma UpperLineIsMsb(b: bv8)
    ensures BitAt(b, 0) <==> b >= 0x80
    ensures BitAt(b, 7) <==> b % 2 == 1
  {
  }

  /** The masks of two different lines share no bit. */
  lemma MasksDisjoint(k: nat, j: nat)
    requires k < 8 && j < 8 && k != j
    ensures Mask(k) & Mask(j) == 0
  {
  }

  /** After WriteBit, line k reads `on` and every other line reads as before. */
  lemma BitAtWriteBit(b: bv8, k: nat, j: nat, on: bool)
    requires k < 8 && j < 8
    ensures BitAt(WriteBit(b, k, on), j) == if j == k then on else BitAt(b, j)
  {
    var mk, mj := Mask(k), Mask(j);
    if j != k {
      MasksDisjoint(k, j);
      assert (b | mk) & mj == b & mj;
      assert (b & !mk) & mj == b & mj;
    }
  }

  lemma SameBit(a: bv8, b: bv8, j: nat)
    requires j < 8 && BitAt(a, j) == BitAt(b, j)
    ensures a & Mask(j) == b & Mask(j)
  {
  }

  /** A byte is determined by its eight lines. */
  lemma BitsDetermineByte(a: bv8, b: bv8)
    requires forall j :: 0 <= j < 8 ==> BitAt(a, j) == BitAt(b, j)
    ensures a == b
  {
    forall j | 0 <= j < 8
      ensures a & Mask(j) == b & Mask(j)
    {
      SameBit(a, b, j);
    }
    assert a == (a & 0x80) | (a & 0x40) | (a & 0x20) | (a & 0x10) | (a & 0x08) | (a & 0x04) | (a & 0x02) | (a & 0x01);
    assert b == (b & 0x80) | (b & 0x40) | (b & 0x20) | (b & 0x10) | (b & 0x08) | (b & 0x04) | (b & 0x02) | (b & 0x01);
    assert a & Mask(0) == b & Mask(0);
    assert a & Mask(1) == b & Mask(1);
    assert a & Mask(2) == b & Mask(2);
    assert a & Mask(3) == b & Mask(3);
    assert a & Mask(4) == b & Mask(4);
    assert a & Mask(5) == b & Mask(5);
    assert a & Mask(6) == b & Mask(6);
    assert a & Mask(7) == b & Mask(7);
  }

  /** Writing the value line k already holds leaves the byte unchanged. */
  lemma WriteBitSame(b: bv8, k: nat)
    requires k < 8
    ensures WriteBit(b, k, BitAt(b, k)) == b
  {
    forall j | 0 <= j < 8
      ensures BitAt(WriteBit(b, k, BitAt(b, k)), j) == BitAt(b, j)
    {
      BitAtWriteBit(b, k, j, BitAt(b, k));
    }
    BitsDetermineByte(WriteBit(b, k, BitAt(b, k)), b);
  }

  /** Every pixel of a `width` by `height` display has its byte inside the buffer. */
  lemma IndexInBounds(width: nat, height: nat, x: nat, y: nat)
    requires x < width && y < height
    ensures PixelIndex(width, x, y) < BufferSize(width, height)
  {
    assert y / 8 + 1 <= PageCount(height);
    MulLe(y / 8 + 1, PageCount(height), width);
  }

  /** The byte of pixel (x, y) lies in page y / 8, at column x of that page. */
  lemma PixelAddress(width: nat, x: nat, y: nat)
    requires x < width
    ensures PixelIndex(width, x, y) / width == y / 8
    ensures PixelIndex(width, x, y) % width == x
  {
    var i := PixelIndex(width, x, y);
    var p := y / 8;
    assert i == p * width + x;
    DivModUnique(i, width, p, x);
  }

  /** Distinct pixels use distinct bits: (byte index, line in the page) determines (x, y). */
  lemma AddressInjective(width: nat, x: nat, y: nat, x': nat, y': nat)
    requires x < width && x' < width
    requires PixelIndex(width, x, y) == PixelIndex(width, x', y') && y % 8 == y' % 8
    ensures x == x' && y == y'
  {
    PixelAddress(width, x, y);
    PixelAddress(width, x', y');
  }

  /** Whether pixel (x, y) of a buffer is set. */
  predicate PixelAt(buf: seq<bv8>, width: nat, height: nat, x: nat, y: nat)
    requires |buf| == BufferSize(width, height) && x < width && y < height
  {
    IndexInBounds(width, height, x, y);
    BitAt(buf[PixelIndex(width, x, y)], y % 8)
  }

  /** The buffer after a read-modify-write of the byte that holds pixel (x, y). */
  function WritePixel(buf: seq<bv8>, width: nat, height: nat, x: nat, y: nat, on: bool): (r: seq<bv8>)
    requires |buf| == BufferSize(width, height) && x < width && y < height
    ensures |r| == |buf|
  {
    IndexInBounds(width, height, x, y);
    var i := PixelIndex(width, x, y);
    buf[i := WriteBit(buf[i], y % 8, on)]
  }

  /** A written pixel reads back as the written value. */
  lemma WritePixelReadBack(buf: seq<bv8>, width: nat, height: nat, x: nat, y: nat, on: bool)
    requires |buf| == BufferSize(width, height) && x < width && y < height
    ensures PixelAt(WritePixel(buf, width, height, x, y, on), width, height, x, y) == on
  {
    IndexInBounds(width, height, x, y);
    var i := PixelIndex(width, x, y);
    BitAtWriteBit(buf[i], y % 8, y % 8, on);
  }

  /** Writing one pixel leaves every other pixel as it was. */
  lemma WritePixelOthersUnchanged(buf: seq<bv8>, width: nat, height: nat, x: nat, y: nat, on: bool,
                                  x': nat, y': nat)
    requires |buf| == BufferSize(width, height) && x < width && y < height
    requires x' < width && y' < height && (x', y') != (x, y)
    ensures PixelAt(WritePixel(buf, width, height, x, y, on), width, height, x', y')
         == PixelAt(buf, width, height, x', y')
  {
    IndexInBounds(width, height, x, y);
    IndexInBounds(width, height, x', y');
    var i, i' := PixelIndex(width, x, y), PixelIndex(width, x', y');
    if i == i' {
      if y % 8 == y' % 8 {
        AddressInjective(width, x, y, x', y');
      }
      BitAtWriteBit(buf[i], y % 8, y' % 8, on);
    }
  }

  /**
   * Writing one pixel changes one byte at most, and within it only the line
   * of the pixel.
   */
  lemma WritePixelOneBit(buf: seq<bv8>, width: nat, height: nat, x: nat, y: nat, on: bool)
    requires |buf| == BufferSize(width, height) && x < width && y < height
    ensures var r := WritePixel(buf, width, height, x, y, on);
      var i := PixelIndex(width, x, y);
      i < |r| &&
      (forall j :: 0 <= j < |r| && j != i ==> r[j] == buf[j]) &&
      BitAt(r[i], y % 8) == on &&
      (forall k :: 0 <= k < 8 && k != y % 8 ==> BitAt(r[i], k) == BitAt(buf[i], k))
  {
    IndexInBounds(width, height, x, y);
    var i := PixelIndex(width, x, y);
    forall k | 0 <= k < 8
      ensures BitAt(WriteBit(buf[i], y % 8, on), k) == if k == y % 8 then on else BitAt(buf[i], k)
    {
      BitAtWriteBit(buf[i], y % 8, k, on);
    }
  }

  /** Writing the value a pixel already has leaves the whole buffer unchanged. */
  lemma WritePixelSame(buf: seq<bv8>, width: nat, height: nat, x: nat, y: nat)
    requires |buf| == BufferSize(width, height) && x < width && y < height
    ensures WritePixel(buf, width, height, x, y, PixelAt(buf, width, height, x, y)) == buf
  {
    IndexInBounds(width, height, x, y);
    WriteBitSame(buf[PixelIndex(width, x, y)], y % 8);
  }

  /** A display buffer in the 1-bit paged format, changed in place. */
  class PagedBuffer {
    const width: nat
    const height: nat
    const data: array<bv8>

    ghost predicate Valid()
      reads this
    {
      data.Length == BufferSize(width, height)
    }

    /** Whether pixel (x, y) is set. */
    predicate Pixel(x: nat, y: nat)
      reads this, data
      requires Valid() && x < width && y < height
    {
      PixelAt(data[..], width, height, x, y)
    }

    /** A cleared buffer: every pixel is off. */
    constructor (width: nat, height: nat)
      ensures Valid() && fresh(data)
      ensures this.width == width && this.height == height
      ensures forall i :: 0 <= i < data.Length ==> data[i] == 0
      ensures forall x: nat, y: nat :: x < width && y < height ==> !Pixel(x, y)
    {
      this.width := width;
      this.height := height;
      data := new bv8[BufferSize(width, height)](_ => 0);
      new;
      forall x: nat, y: nat | x < width && y < height ensures !Pixel(x, y) {
        IndexInBounds(width, height, x, y);
      }
    }

    /** Set (`on`) or clear pixel (x, y) by a read-modify-write of its byte. */
    method SetPixel(x: nat, y: nat, on: bool)
      requires Valid() && x < width && y < height
      modifies data
      ensures data[..] == WritePixel(old(data[..]), width, height, x, y, on)
      ensures Pixel(x, y) == on
      ensures forall x': nat, y': nat :: x' < width && y' < height && (x', y') != (x, y) ==>
                Pixel(x', y') == old(Pixel(x', y'))
    {
      IndexInBounds(width, height, x, y);
      var i := PixelIndex(width, x, y);
      ghost var before := data[..];
      data[i] := WriteBit(data[i], y % 8, on);
      assert data[..] == WritePixel(before, width, height, x, y, on);
      WritePixelReadBack(before, width, height, x, y, on);
      forall x': nat, y': nat | x' < width && y' < height && (x', y') != (x, y)
        ensures Pixel(x', y') == PixelAt(before, width, height, x', y')
      {
        WritePixelOthersUnchanged(before, width, height, x, y, on, x', y');
      }
    }

    /** Whether pixel (x, y) is set, read from its byte. */
    method GetPixel(x: nat, y: nat) returns (on: bool)
      requires Valid() && x < width && y < height
      ensures on == Pixel(x, y)
    {
      IndexInBounds(width, height, x, y);
      on := data[PixelIndex(width, x, y)] & Mask(y % 8) != 0;
    }
  }
}
