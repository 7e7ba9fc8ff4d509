/**
 * The shared types of the library: bytes, 8-bit color channels, colors,
 * signed 16-bit display coordinates and the closed set of in-memory pixel
 * formats.
 */
module Types {
  import opened Wrappers

  /** An unsigned 8-bit value (`uint8_t`). */
  type byte = x: int | 0 <= x < 256

  /** One color channel, red, green or blue (`color_channel_t` is `uint8_t`). */
  type Channel = byte

  /** A color given by its three 8-bit channels (`color_t`). */
  datatype Color = Color(r: Channel, g: Channel, b: Channel)

  const CoordinateMin: int := -32768
  const CoordinateMax: int := 32767

  /** A display coordinate (`coordinate_t` is `int16_t`). */
  type Coordinate = x: int | -32768 <= x <= 32767

  /**
   * The conversion of an `int` to `int16_t`, as happens when an expression
   * such as `x + len` is passed to a `coordinate_t` parameter: the value is
   * reduced modulo 2^16 into the signed range.
   */
  function ToCoordinate(v: int): (c: Coordinate)
    ensures CoordinateMin <= v <= CoordinateMax ==> c == v
    ensures (v - c) % 65536 == 0
  {
    (v + 32768) % 65536 - 32768
  }

  /** The five in-memory pixel encodings used by displays (`pixel_format_t`). */
  datatype PixelFormat =
    | Bw1Paged      // 1 bit per pixel, vertical bytes in pages of `width` bytes
    | Rgb12         // RRRRGGGG BBBBRRRR GGGGBBBB: two pixels in three bytes
    | Rgb16         // RRRRRGGG GGGBBBBB
    | Rgb18In24     // RRRRRRxx GGGGGGxx BBBBBBxx
    | Rgb24         // RRRRRRRR GGGGGGGG BBBBBBBB

  /** `PIXEL_FORMAT_COUNT`, the enumerator that follows the last format. */
  const PixelFormatCount: nat := 5

  /** The numeric value of each enumerator, in declaration order from 0. */
  function Ordinal(f: PixelFormat): (n: nat)
    ensures n < PixelFormatCount
  {
    match f
    case Bw1Paged => 0
    case Rgb12 => 1
    case Rgb16 => 2
    case Rgb18In24 => 3
    case Rgb24 => 4
  }

  /** The format whose enumerator has value n, if any. */
  function FromOrdinal(n: int): (f: Option<PixelFormat>)
    ensures f.Some? <==> 0 <= n < PixelFormatCount
  {
    if n == 0 then Some(Bw1Paged)
    else if n == 1 then Some(Rgb12)
    else if n == 2 then Some(Rgb16)
    else if n == 3 then Some(Rgb18In24)
    else if n == 4 then Some(Rgb24)
    else None
  }

  /**
   * The set of formats is closed: the enumerator values are exactly
   * 0 .. PIXEL_FORMAT_COUNT - 1, each naming exactly one format.
   */
  lemma FormatsClosed()
    ensures forall f: PixelFormat :: FromOrdinal(Ordinal(f)) == Some(f)
    ensures forall n :: 0 <= n < PixelFormatCount ==> FromOrdinal(n).Some? && Ordinal(FromOrdinal(n).value) == n
  {
  }

  /**
   * Bits of memory that one pixel occupies in each format; in the 12-bit
   * format two pixels share three bytes.
   */
  function StorageBits(f: PixelFormat): nat
  {
    match f
    case Bw1Paged => 1
    case Rgb12 => 12
    case Rgb16 => 16
    case Rgb18In24 => 24
    case Rgb24 => 24
  }
}
