# eglib core model

Two parts of the eglib embedded graphics library are modelled here. The
library is published as C headers that hold the data types, the doc comments
and the macros but no function bodies, so the model captures what those
declarations fix exactly.

- **Pixel-format codec** (`src/eglib/types.h`). `pixel_format_t` is a closed
  set of five in-memory encodings:
  - 1-bit paged monochrome;
  - 12-bit RGB, with two pixels in three bytes;
  - 16-bit RGB 5-6-5;
  - 18-bit RGB stored in 24 bits;
  - 24-bit RGB.

  Each color format gets a pack and an unpack function (module `Codec`). They
  work on channels already narrowed to the stored width. Each layout is
  proved against the documented bit string. That string is written with the
  reference function `Bits(v, n)`, which gives the n bits of v, most
  significant first (module `BitStrings`). Both round trips are proved for
  the 12-, 16- and 24-bit formats. For the 18-bit format, unpacking a packed
  color gives it back, and re-packing three decoded bytes gives those bytes
  with their two padding bits cleared.

  The paged format (module `Paged`) is a class over an array of `bv8`
  bytes, so C's `|`, `& ~` and `>>` are written as they are. Its
  `SetPixel` method does a read-modify-write of one byte. Its contract ties
  the new array to the pure function `WritePixel`. Lemmas about that function
  prove two things: the pixel's address is in bounds, and one write changes
  at most that pixel's bit of its byte.
- **Drawing state and API delegation** (`src/eglib/drawing.h`). The handle
  `eglib_t` is the class `Drawing.Eglib`. Its setters change the following in
  place:
  - the clip rectangle (or no clip);
  - the palette;
  - the current font.

  Drawing a pixel hands a `PixelWrite` to the display driver, unless the pixel
  is clipped or off the display. A general shape function hands a `DrawCall`
  value to the rasterizer, together with the palette colors it draws in and
  the clip rectangle it is drawn through, both as they are at that moment
  (`Drawing.ShapeDraw`). Each convenience macro (horizontal and vertical
  lines, circle, disc, gradient variants) is a pure function returning the
  call it expands to (module `Shapes`). The macro's method is proved to make
  exactly that call. Glyphs, fonts and glyph lookup are in module `Text`.

Modelling decisions:

- The clip rectangle is half-open: `[x, x + width)` by `[y, y + height)`.
  The header says only that drawing outside the boundaries has no effect.
  Sums are taken in unbounded integers, so a rectangle near the edge of the
  coordinate range does not wrap.
- The palette has four entries. The gradient frame and box use indices 0
  to 3. `SetIndexColor` requires `idx < 4`.
- A macro argument such as `x + len` is computed in C `int` and then passed to
  a `coordinate_t` (`int16_t`) parameter. C leaves the conversion of an
  out-of-range value to a signed type implementation-defined (section
  6.3.1.3 of ISO/IEC 9899:2011). The model takes the modulo 2^16 wrap-around
  that GCC and Clang apply, explicitly (`Types.ToCoordinate`).
- Glyph metrics are bit-fields. `Text.MakeGlyph` stores a value into them with
  the wrap-around of the stated widths. The field types themselves are the
  bit-field ranges.
- Pack18 writes the two padding bits of each byte as zero. Unpacking ignores
  them, whatever they hold.
- A pixel reaches the display only when it lies inside the display as well as
  inside the clip. The headers do not say this; it is a modelling choice.
- `GetGlyph` takes the character code as an unbounded integer. A glyph exists
  exactly when the code is in `[charcode_start, charcode_end]`.
- A font is well-formed when its glyph table has one entry per code of that
  range. `SetFont` requires a well-formed font.

## Model

| member | source | states |
|---|---|---|
| Types.ToCoordinate | src/eglib/types.h:44 | the `int16_t` conversion of an int: the identity on -32768..32767, and otherwise congruent to the input modulo 2^16 |
| Types.Ordinal | src/eglib/types.h:11-26 | every format's enumerator value is below PIXEL_FORMAT_COUNT = 5 |
| Types.FromOrdinal | src/eglib/types.h:11-26 | an enumerator value names a format if and only if it lies in 0..4 |
| Types.FormatsClosed | src/eglib/types.h:11-26 | formats and the values 0..4 correspond one to one, in both directions |
| Types.StorageBits | src/eglib/types.h:11-26 | defines the bits one pixel occupies in each format: 1, 12, 16, 24 (18 bits of color in 24) and 24; no contract of its own |
| Codec.Pack12 | src/eglib/types.h:17-18 | defines the 12-bit packing of two pixels as nibble arithmetic; its layout and round trips are stated by the lemmas below |
| Codec.Unpack12 | src/eglib/types.h:17-18 | defines the decoding of three bytes into two pixels; its layout and round trips are stated by the lemmas below |
| Codec.Pack12Layout | src/eglib/types.h:17-18 | the packed bytes are the bit string RRRRGGGG BBBBRRRR GGGGBBBB of the first pixel and then the second |
| Codec.Unpack12Layout | src/eglib/types.h:17-18 | any three bytes read as that nibble string give the two decoded pixels |
| Codec.Unpack12Pack12 | src/eglib/types.h:17-18 | unpacking packed pixels gives both pixels back, in order |
| Codec.Pack12Unpack12 | src/eglib/types.h:17-18 | every three-byte group is the packing of the pixels it decodes to |
| Codec.Pack16 | src/eglib/types.h:19-20 | defines the 5-6-5 packing as shifts written with * and /; its layout and round trips are stated by the lemmas below |
| Codec.Unpack16 | src/eglib/types.h:19-20 | defines the decoding of two bytes into 5-6-5 channels; its layout and round trips are stated by the lemmas below |
| Codec.Pack16Layout | src/eglib/types.h:19-20 | the packed bytes are the bit string RRRRRGGG GGGBBBBB |
| Codec.Unpack16Layout | src/eglib/types.h:19-20 | any two bytes read as RRRRRGGG GGGBBBBB give the decoded 5-6-5 channels |
| Codec.Unpack16Pack16 | src/eglib/types.h:19-20 | unpacking a packed (r5, g6, b5) gives exactly (r5, g6, b5) |
| Codec.Pack16Unpack16 | src/eglib/types.h:19-20 | every two-byte pixel is the packing of the color it decodes to |
| Codec.Pack18 | src/eglib/types.h:21-22 | defines the 18-in-24 packing, each channel shifted up by two with zero padding; stated by the lemmas below |
| Codec.Unpack18 | src/eglib/types.h:21-22 | defines the decoding of the top six bits of each byte; stated by the lemmas below |
| Codec.Pack18Layout | src/eglib/types.h:21-22 | each 6-bit channel fills the top six bits of its byte, and the padding bits are zero |
| Codec.Unpack18Layout | src/eglib/types.h:21-22 | any three bytes read as RRRRRRxx GGGGGGxx BBBBBBxx give the decoded channels, and the xx bits are each byte's low two bits |
| Codec.Unpack18IgnoresPadding | src/eglib/types.h:21-22 | any values of the xx bits decode to the same color |
| Codec.Unpack18Pack18 | src/eglib/types.h:21-22 | unpacking a packed 6-6-6 color gives it back |
| Codec.Pack18Unpack18 | src/eglib/types.h:21-22 | re-packing a decoded pixel keeps its color bits and clears only the padding |
| Codec.Pack24 | src/eglib/types.h:23-24 | defines the 24-bit packing, one byte per channel; stated by the lemmas below |
| Codec.Unpack24 | src/eglib/types.h:23-24 | defines the decoding of three bytes into a color; stated by the lemmas below |
| Codec.Pack24Layout | src/eglib/types.h:23-24 | the packed bytes are RRRRRRRR GGGGGGGG BBBBBBBB: one byte per channel, in order |
| Codec.Unpack24Pack24 | src/eglib/types.h:23-24 | unpacking a packed color is the identity |
| Codec.Pack24Unpack24 | src/eglib/types.h:23-24 | packing a decoded pixel is the identity |
| Codec.ByteBitsInjective | src/eglib/types.h:11-26 | two buffers of the same length with the same bit string are the same bytes |
| Codec.LayoutsDetermineBytes | src/eglib/types.h:17-24 | a buffer of the format's size whose bits read as a color's documented layout is exactly that color's 12-, 16- or 24-bit encoding |
| Codec.PackedSizes | src/eglib/types.h:17-24 | two 12-bit pixels take three bytes, a 16-bit pixel two, and an 18-bit or 24-bit pixel three, matching each format's stated storage size |
| Paged.PageCount | src/eglib/types.h:12-16 | defines the number of 8-line pages of a display, a partial last page counting whole |
| Paged.BufferSize | src/eglib/types.h:12-16 | defines the buffer size as width bytes per page |
| Paged.PixelIndex | src/eglib/types.h:12-16 | defines the byte of pixel (x, y) as (y / 8) * width + x; its range and injectivity are IndexInBounds and AddressInjective |
| Paged.Mask | src/eglib/types.h:12-16 | the mask of line k of a page is `0x80 >> k`, bit k counted from the MSB |
| Paged.BitAt | src/eglib/types.h:12-16 | defines reading line k of a byte as `b & (0x80 >> k) != 0` |
| Paged.WriteBit | src/eglib/types.h:12-16 | defines setting (C `b OR mask`) or clearing (`b & ~mask`) line k; its effect is stated by BitAtWriteBit and WriteBitSame |
| Paged.UpperLineIsMsb | src/eglib/types.h:12-16 | line 0 of a page is the byte's most significant bit and line 7 its least significant |
| Paged.MasksDisjoint | src/eglib/types.h:12-16 | the masks of two different lines share no bit |
| Paged.BitAtWriteBit | src/eglib/types.h:12-16 | after a bit write, that bit reads the written value and every other bit reads as before |
| Paged.BitsDetermineByte | src/eglib/types.h:12-16 | two bytes whose eight lines all read the same are equal |
| Paged.WriteBitSame | src/eglib/types.h:12-16 | writing the value a line already holds leaves the byte unchanged |
| Paged.IndexInBounds | src/eglib/types.h:12-16 | for 0 <= x < width and 0 <= y < height, byte (y / 8) * width + x lies inside a buffer of width * ceil(height / 8) bytes |
| Paged.PixelAddress | src/eglib/types.h:12-16 | a pixel's byte is in page y / 8, at column x of that page |
| Paged.AddressInjective | src/eglib/types.h:12-16 | distinct pixels never share byte and bit |
| Paged.PixelAt | src/eglib/types.h:12-16 | defines the value of pixel (x, y) as line y mod 8 of its byte |
| Paged.WritePixel | src/eglib/types.h:12-16 | defines the buffer after a read-modify-write of the pixel's byte; keeps the length, and its effect is stated by the lemmas below |
| Paged.WritePixelReadBack | src/eglib/types.h:12-16 | a written pixel reads back as the written value |
| Paged.WritePixelOthersUnchanged | src/eglib/types.h:12-16 | writing a pixel leaves every other pixel as it was |
| Paged.WritePixelOneBit | src/eglib/types.h:12-16 | writing a pixel changes no other byte, and only the pixel's bit of its own byte |
| Paged.WritePixelSame | src/eglib/types.h:12-16 | writing the value a pixel already has leaves the whole buffer unchanged |
| Paged.PagedBuffer.constructor | src/eglib/types.h:12-16 | a new buffer has width * ceil(height / 8) bytes, all zero, and every pixel off |
| Paged.PagedBuffer.SetPixel | src/eglib/types.h:12-16 | the buffer becomes WritePixel of its old contents: the pixel reads the written value and every other pixel is unchanged |
| Paged.PagedBuffer.GetPixel | src/eglib/types.h:12-16 | reading the pixel's byte and masking its line gives exactly whether the pixel is set |
| Text.StoreU7 | src/eglib/drawing.h:653 | a value stored in an unsigned 7-bit field is in 0..127, congruent to it modulo 2^7, and equal to it when it fits |
| Text.StoreI5 | src/eglib/drawing.h:657 | a value stored in a signed 5-bit field is in -16..15, congruent to it modulo 2^5, and equal to it when it fits |
| Text.StoreI7 | src/eglib/drawing.h:661 | a value stored in a signed 7-bit field is in -64..63, congruent to it modulo 2^7, and equal to it when it fits |
| Text.MakeGlyph | src/eglib/drawing.h:651-664 | each metric is the value its bit-field holds after the store (width, height and advance modulo 2^7, left and top with the signed 5- and 7-bit wrap-around), so each is congruent to the given value and equal to it when it fits; the data is kept |
| Text.GetGlyph | src/eglib/drawing.h:669-678 | a code has a glyph if and only if charcode_start <= code <= charcode_end, and that glyph is glyphs[code - charcode_start] |
| Text.GlyphTableReachable | src/eglib/drawing.h:676-677 | every entry of the glyph table is the glyph of its code |
| Text.EmptyRangeHasNoGlyph | src/eglib/drawing.h:672-675 | a font whose end code is below its start code has no glyph at all |
| Shapes.HLine | src/eglib/drawing.h:170 | defines the call `eglib_DrawHLine` expands to; stated by HLineEndpoints |
| Shapes.VLine | src/eglib/drawing.h:188 | defines the call `eglib_DrawVLine` expands to; stated by VLineEndpoints |
| Shapes.GradientHLine | src/eglib/drawing.h:229-233 | defines the call `eglib_DrawGradientHLine` expands to; stated by GradientHLineEndpoints |
| Shapes.GradientVLine | src/eglib/drawing.h:250-254 | defines the call `eglib_DrawGradientVLine` expands to; stated by GradientVLineEndpoints |
| Shapes.Circle | src/eglib/drawing.h:492 | defines the call `eglib_DrawCircle` expands to, an arc over 0..360; stated by RoundShapesSweepFullCircle |
| Shapes.Disc | src/eglib/drawing.h:566 | defines the call `eglib_DrawDisc` expands to, a filled arc over 0..360; stated by RoundShapesSweepFullCircle |
| Shapes.GradientDisc | src/eglib/drawing.h:586 | defines the call `eglib_DrawGradientDisc` expands to, a gradient filled arc over 0..360; stated by RoundShapesSweepFullCircle |
| Shapes.HLineEndpoints | src/eglib/drawing.h:170 | a horizontal line runs from (x, y) to (x + len, y), with the end converted to int16 |
| Shapes.GradientHLineEndpoints | src/eglib/drawing.h:229-233 | the gradient horizontal line has the endpoints of the solid one |
| Shapes.VLineEndpoints | src/eglib/drawing.h:188 | a vertical line runs from (x, y) to (x, y + len), with the end converted to int16 |
| Shapes.GradientVLineEndpoints | src/eglib/drawing.h:250-254 | the gradient vertical line has the endpoints of the solid one |
| Shapes.RoundShapesSweepFullCircle | src/eglib/drawing.h:492 | circle, disc and gradient disc are valid arcs over 0..360, so they sweep every angle that any valid arc sweeps |
| Drawing.Inside | src/eglib/drawing.h:21-24 | defines the half-open rectangle test x <= px < x + width and y <= py < y + height |
| Drawing.Clipped | src/eglib/drawing.h:21-24 | defines clipping: nothing without a rectangle, otherwise whatever lies outside it |
| Drawing.VisibleRegion | src/eglib/drawing.h:21-24 | defines the pixels a rectangle lets through as a set, the reference for ClippedIffOutsideRegion |
| Drawing.Inks | src/eglib/drawing.h:136-547 | defines the colors a shape is drawn in: palette index 0; indices 0 and 1 for the gradient line, arc and filled arc; indices 0 to 3 (top left, top right, bottom left, bottom right) for the gradient frame and box |
| Drawing.ClippedIffOutsideRegion | src/eglib/drawing.h:21-24 | a pixel is clipped if and only if it lies outside the rectangle's region |
| Drawing.ClipExample | src/eglib/drawing.h:21-24 | clip (2, 2, 4, 4) drops (0, 0) and keeps (3, 3) |
| Drawing.EmptyClipClipsAll | src/eglib/drawing.h:21-24 | a rectangle with no width or no height clips every pixel |
| Drawing.Eglib.constructor | src/eglib/drawing.h:62-63 | a new handle, as after `eglib_Init`: no clip, a black palette of four entries, no font and no output |
| Drawing.Eglib.IsPixelClipped | src/eglib/drawing.h:49-55 | a pixel is clipped if and only if a clip rectangle is set and the pixel is outside its region |
| Drawing.Eglib.SetClipRange | src/eglib/drawing.h:36-40 | afterwards a pixel is clipped if and only if it is outside the half-open rectangle; palette, font and output are unchanged |
| Drawing.Eglib.SetNoClip | src/eglib/drawing.h:42-47 | afterwards no pixel is clipped; palette, font and output are unchanged |
| Drawing.Eglib.SetIndexColor | src/eglib/drawing.h:85-92 | only palette entry idx changes, to (r, g, b); the other entries, the clip, the font and the output are unchanged |
| Drawing.Eglib.Visible | src/eglib/drawing.h:21-24 | defines when a drawn pixel reaches the driver: unclipped and on the display |
| Drawing.Eglib.DrawPixelColor | src/eglib/drawing.h:99-112 | the pixel is handed to the driver if and only if it is unclipped and on the display; nothing else changes |
| Drawing.Eglib.DrawPixel | src/eglib/drawing.h:114-129 | equals DrawPixelColor with palette entry 0 |
| Drawing.Eglib.Rasterize | src/eglib/drawing.h:21-24 | the shape list gains the call together with the palette colors it is drawn in and the clip rectangle in effect at that moment; nothing else changes |
| Drawing.Eglib.DrawLine | src/eglib/drawing.h:136-152 | the shape list gains exactly this line, drawn in the current color of palette index 0, through the clip rectangle in effect |
| Drawing.Eglib.DrawGradientLine | src/eglib/drawing.h:190-212 | the shape list gains exactly this gradient line, from the current color of index 0 at (x1, y1) to that of index 1 at (x2, y2), through the clip rectangle in effect |
| Drawing.Eglib.DrawHLine | src/eglib/drawing.h:154-170 | makes exactly the call DrawLine(x, y, x + len, y), in the current color of palette index 0, through the clip rectangle in effect |
| Drawing.Eglib.DrawVLine | src/eglib/drawing.h:172-188 | makes exactly the call DrawLine(x, y, x, y + len), in the current color of palette index 0, through the clip rectangle in effect |
| Drawing.Eglib.DrawGradientHLine | src/eglib/drawing.h:214-233 | makes exactly the call DrawGradientLine(x, y, x + len, y), from the current color of index 0 to that of index 1, through the clip rectangle in effect |
| Drawing.Eglib.DrawGradientVLine | src/eglib/drawing.h:235-254 | makes exactly the call DrawGradientLine(x, y, x, y + len), from the current color of index 0 to that of index 1, through the clip rectangle in effect |
| Drawing.Eglib.DrawFrame | src/eglib/drawing.h:261-281 | the shape list gains exactly this frame, in the current color of index 0, through the clip rectangle in effect |
| Drawing.Eglib.DrawGradientFrame | src/eglib/drawing.h:283-309 | the shape list gains exactly this frame, with the current colors of indices 0, 1, 2 and 3 at its top left, top right, bottom left and bottom right corners, through the clip rectangle in effect |
| Drawing.Eglib.DrawRoundFrame | src/eglib/drawing.h:311-334 | requires width > 2 * radius and height > 2 * radius; the shape list gains exactly this frame, in the current color of index 0, through the clip rectangle in effect |
| Drawing.Eglib.DrawBox | src/eglib/drawing.h:341-361 | the shape list gains exactly this box, in the current color of index 0, through the clip rectangle in effect |
| Drawing.Eglib.DrawGradientBox | src/eglib/drawing.h:363-389 | the shape list gains exactly this box, with the current colors of indices 0, 1, 2 and 3 at its top left, top right, bottom left and bottom right corners, through the clip rectangle in effect |
| Drawing.Eglib.DrawRoundBox | src/eglib/drawing.h:391-414 | requires width > 2 * radius and height > 2 * radius; the shape list gains exactly this box, in the current color of index 0, through the clip rectangle in effect |
| Drawing.Eglib.DrawArc | src/eglib/drawing.h:421-446 | requires 0 <= start < end <= 360; the shape list gains exactly this arc, in the current color of index 0, through the clip rectangle in effect |
| Drawing.Eglib.DrawGradientArc | src/eglib/drawing.h:448-473 | requires 0 <= start < end <= 360; the shape list gains exactly this arc, from the current color of index 0 to that of index 1, through the clip rectangle in effect |
| Drawing.Eglib.DrawFilledArc | src/eglib/drawing.h:494-519 | requires 0 <= start < end <= 360; the shape list gains exactly this filled arc, in the current color of index 0, through the clip rectangle in effect |
| Drawing.Eglib.DrawGradientFilledArc | src/eglib/drawing.h:521-547 | requires 0 <= start < end <= 360; the shape list gains exactly this arc, from the current color of index 0 at the center to that of index 1 at the radius, through the clip rectangle in effect |
| Drawing.Eglib.DrawCircle | src/eglib/drawing.h:475-492 | makes exactly the call DrawArc(x, y, radius, 0, 360), in the current color of index 0, through the clip rectangle in effect |
| Drawing.Eglib.DrawDisc | src/eglib/drawing.h:549-566 | makes exactly the call DrawFilledArc(x, y, radius, 0, 360), in the current color of index 0, through the clip rectangle in effect |
| Drawing.Eglib.DrawGradientDisc | src/eglib/drawing.h:568-586 | makes exactly the call DrawGradientFilledArc(x, y, radius, 0, 360), from the current color of index 0 at the center to that of index 1 at the radius, through the clip rectangle in effect |
| Drawing.Eglib.SetFont | src/eglib/drawing.h:680-685 | the font becomes the given one; clip, palette and output are unchanged |
| Drawing.Eglib.GetGlyph | src/eglib/drawing.h:687-690 | the current font has a glyph for a code if and only if the code is in its range, and that glyph is glyphs[code - charcode_start] |

## Left out

- Rasterization of lines, gradient lines, frames, boxes, arcs, filled arcs and bitmaps. Only declarations exist, so the model records each call with its arguments (`Shapes.DrawCall`), its colors and its clip rectangle (`Drawing.ShapeDraw`), and not the pixels it would produce.
- `eglib_DrawBitmap`: drawing a bitmap depends on the bitmap data formats of `struct bitmap_t`, which are not part of this model.
- Arc angles are C `float`; the model uses `real`, so rounding of the angle arguments is not captured.
- `eglib_DrawText`, `eglib_DrawWChar` and `eglib_DrawGlyph`: UTF-8 decoding, pen advance and glyph placement have no bodies to follow.
- `eglib_ClearScreen`, the display drivers, the 4-wire SPI frame buffer and all bus I/O: these depend on driver internals behind opaque pointers. The driver receiving a pixel is modelled by the `pixels` sequence.
- The rules for narrowing an 8-bit channel to 4, 5 or 6 bits: the headers state none, so the codecs take narrowed channels.
- `eglib_Init`: its body and its display-driver set-up are not in the headers. `Drawing.Eglib.constructor` takes the initial state to be no clip, a black palette and no font.
- `wchar_t` is signed on some targets and unsigned on others. `Text.GetGlyph` compares the code as a mathematical integer, so the conversion of a negative `wchar_t` against the `uint32_t` range bounds is not modelled.
- Text.GetGlyph: requires a well-formed font (one glyph per supported code), since a short glyph array would be read out of bounds in C.
- Drawing.Eglib.GetGlyph: requires a font to be set. The header does not say what happens without one.
- Drawing.Eglib.SetIndexColor: requires `idx < 4`. The header takes any `size_t` and states no bound.
