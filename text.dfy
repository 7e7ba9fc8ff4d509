/**
 * Glyphs and fonts (`struct glyph_t`, `struct font_t`) and the lookup of a
 * character's glyph in a font.
 */
module Text {
  import opened Types
  import opened Wrappers

  /** The range of a `uint8_t x : 7` bit-field. */
  type U7 = x: int | 0 <= x < 128
  /** The range of an `int8_t x : 5` bit-field. */
  type I5 = x: int | -16 <= x < 16
  /** The range of an `int8_t x : 7` bit-field. */
  type I7 = x: int | -64 <= x < 64
  /** A `uint32_t`. */
  type U32 = x: int | 0 <= x < 0x1_0000_0000

  /**
   * A glyph: bitmap width and height, left padding before the bitmap, pen
   * advance after it, distance from the baseline to its highest pixel, and
   * the bitmap data.
   */
  datatype Glyph = Glyph(width: U7, height: U7, left: I5, advance: U7, top: I7, data: seq<byte>)

  /**
   * The value an unsigned 7-bit field holds after assigning v to it: v
   * reduced modulo 2^7.
   */
  function StoreU7(v: int): (r: U7)
    ensures (v - r) % 128 == 0
    ensures 0 <= v < 128 ==> r == v
  {
    v % 128
  }

  /**
   * The value a signed 5-bit field holds after assigning v to it, with the
   * two's-complement wrap-around that GCC and Clang apply.
   */
  function StoreI5(v: int): (r: I5)
    ensures (v - r) % 32 == 0
    ensures -16 <= v < 16 ==> r == v
  {
    (v + 16) % 32 - 16
  }

  /** As StoreI5, for a signed 7-bit field. */
  function StoreI7(v: int): (r: I7)
    ensures (v - r) % 128 == 0
    ensures -64 <= v < 64 ==> r == v
  {
    (v + 64) % 128 - 64
  }

  /** A glyph defined field by field, each metric stored into its bit-field. */
  function MakeGlyph(width: int, height: int, left: int, advance: int, top: int, data: seq<byte>): (g: Glyph)
    ensures 0 <= width < 128 && 0 <= height < 128 && -16 <= left < 16 && 0 <= advance < 128 && -64 <= top < 64
            ==> g == Glyph(width, height, left, advance, top, data)
    ensures g.width == StoreU7(width) && g.height == StoreU7(height) && g.left == StoreI5(left)
    ensures g.advance == StoreU7(advance) && g.top == StoreI7(top) && g.data == data
    ensures (g.width - width) % 128 == 0 && (g.height - height) % 128 == 0 && (g.left - left) % 32 == 0
    ensures (g.advance - advance) % 128 == 0 && (g.top - top) % 128 == 0
  {
    Glyph(StoreU7(width), StoreU7(height), StoreI5(left), StoreU7(advance), StoreI7(top), data)
  }

  /**
   * A font: pixel size, the first and last character codes it supports, and
   * one glyph per supported code, in code order.
   */
  datatype Font = Font(pixelSize: byte, charcodeStart: U32, charcodeEnd: U32, glyphs: seq<Glyph>)

  /** The glyph table holds exactly one entry per code of [charcodeStart, charcodeEnd]. */
  predicate WellFormed(f: Font)
  {
    |f.glyphs| == if f.charcodeStart <= f.charcodeEnd then f.charcodeEnd - f.charcodeStart + 1 else 0
  }

  /**
   * The glyph of character code c: entry c - charcodeStart when c lies in
   * [charcodeStart, charcodeEnd], and no glyph otherwise.
   */
  function GetGlyph(f: Font, c: int): (g: Option<Glyph>)
    requires WellFormed(f)
    ensures g.Some? <==> f.charcodeStart <= c <= f.charcodeEnd
    ensures g.Some? ==> g.value == f.glyphs[c - f.charcodeStart]
  {
    if f.charcodeStart <= c <= f.charcodeEnd then Some(f.glyphs[c - f.charcodeStart]) else None
  }

  /** Every entry of the glyph table is the glyph of code charcodeStart + i. */
  lemma GlyphTableReachable(f: Font, i: int)
    requires WellFormed(f) && 0 <= i < |f.glyphs|
    ensures GetGlyph(f, f.charcodeStart + i) == Some(f.glyphs[i])
  {
  }

  /** A font whose range is empty (end before start) has a glyph for no code. */
  lemma EmptyRangeHasNoGlyph(f: Font, c: int)
    requires WellFormed(f) && f.charcodeEnd < f.charcodeStart
    ensures GetGlyph(f, c) == None
  {
  }
}
