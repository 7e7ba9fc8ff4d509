/**
 * The library handle (`eglib_t`) and its drawing state: the clip rectangle,
 * the indexed color palette and the current font, changed in place by the
 * setters. Drawing a pixel hands it to the display driver unless it is
 * clipped or off the display; the general shape functions hand their call to
 * the rasterizer, and the convenience shapes delegate to them.
 */
module Drawing {
  import opened Types
  import opened Wrappers
  import opened Text
  import opened Shapes

  /** A clip rectangle: origin, width and height. */
  datatype ClipRect = ClipRect(x: Coordinate, y: Coordinate, width: Coordinate, height: Coordinate)

  /**
   * Whether (px, py) lies inside the half-open rectangle
   * [x, x + width) by [y, y + height). Sums are taken in `int`.
   */
  predicate Inside(r: ClipRect, px: int, py: int)
  {
    r.x <= px < r.x + r.width && r.y <= py < r.y + r.height
  }

  /** With no clip rectangle nothing is clipped; otherwise whatever lies outside it is. */
  function Clipped(clip: Option<ClipRect>, px: int, py: int): bool
  {
    clip.Some? && !Inside(clip.value, px, py)
  }

  /** The pixels a clip rectangle lets through, as a set. */
  ghost function VisibleRegion(r: ClipRect): set<(int, int)>
  {
    set px: int, py: int | r.x <= px < r.x + r.width && r.y <= py < r.y + r.height :: (px, py)
  }

  /** A pixel is clipped exactly when it is outside the region of the rectangle. */
  lemma ClippedIffOutsideRegion(r: ClipRect, px: int, py: int)
    ensures Clipped(Some(r), px, py) <==> (px, py) !in VisibleRegion(r)
  {
    if !Clipped(Some(r), px, py) {
      assert (px, py) in VisibleRegion(r);
    }
  }

  /** Clipping to (2, 2, 4, 4) drops (0, 0) and keeps (3, 3). */
  lemma ClipExample()
    ensures Clipped(Some(ClipRect(2, 2, 4, 4)), 0, 0)
    ensures !Clipped(Some(ClipRect(2, 2, 4, 4)), 3, 3)
  {
  }

  /** A rectangle of zero or negative width or height clips every pixel. */
  lemma EmptyClipClipsAll(r: ClipRect, px: int, py: int)
    requires r.width <= 0 || r.height <= 0
    ensures Clipped(Some(r), px, py)
  {
  }

  /**
   * Size of the palette. The drawing functions use indices 0 to 3 (the four
   * corners of a gradient frame or box).
   */
  const PaletteSize: nat := 4

  /** A pixel handed to the display driver. */
  datatype PixelWrite = PixelWrite(x: Coordinate, y: Coordinate, color: Color)

  /**
   * A shape call handed to the rasterizer, with the palette colors it draws
   * in and the clip rectangle it is drawn through, both as they are when the
   * call is made.
   */
  datatype ShapeDraw = ShapeDraw(call: DrawCall, inks: seq<Color>, clip: Option<ClipRect>)

  /**
   * The palette colors a shape call draws in, read when the call is made:
   * index 0 for a solid shape; indices 0 and 1 for a gradient line (first
   * end to second end), a gradient arc (start to end) and a gradient filled
   * arc (center to radius); indices 0 to 3 for a gradient frame or box (top
   * left, top right, bottom left, bottom right).
   */
  function Inks(call: DrawCall, palette: seq<Color>): seq<Color>
    requires |palette| == PaletteSize
  {
    if call.GradientFrame? || call.GradientBox? then palette
    else if call.GradientLine? || call.GradientArc? || call.GradientFilledArc? then [palette[0], palette[1]]
    else [palette[0]]
  }

  /** The library handle. */
  class Eglib {
    /** Display width and height. */
    const width: Coordinate
    const height: Coordinate
    /** The clip rectangle, or None after `eglib_SetNoClip`. */
    var clip: Option<ClipRect>
    /** Colors by index, for the drawing functions without a color argument. */
    var palette: seq<Color>
    /** The font set by `eglib_SetFont`, if any. */
    var font: Option<Font>
    /** The pixels handed to the display driver, in order. */
    var pixels: seq<PixelWrite>
    /** The shape calls handed to the rasterizer, in order, with their colors. */
    var shapes: seq<ShapeDraw>

    ghost predicate Valid()
      reads this
    {
      |palette| == PaletteSize && (font.Some? ==> Text.WellFormed(font.value))
    }

    /** A handle for a display of the given size: no clipping, a black palette, no font. */
    constructor (width: Coordinate, height: Coordinate)
      ensures Valid()
      ensures this.width == width && this.height == height
      ensures clip == None && font == None && pixels == [] && shapes == []
      ensures palette == seq(PaletteSize, _ => Color(0, 0, 0))
    {
      this.width := width;
      this.height := height;
      clip := None;
      palette := seq(PaletteSize, _ => Color(0, 0, 0));
      font := None;
      pixels := [];
      shapes := [];
    }

    // -------------------------------------------------------------------------
    // Clipping
    // -------------------------------------------------------------------------

    /** `eglib_IsPixelClipped`: whether the current clip rectangle drops (x, y). */
    function IsPixelClipped(x: Coordinate, y: Coordinate): (r: bool)
      reads this
      ensures r <==> clip.Some? && (x, y) !in VisibleRegion(clip.value)
    {
      if clip.Some? then
        ClippedIffOutsideRegion(clip.value, x, y);
        Clipped(clip, x, y)
      else
        false
    }

    /** `eglib_SetClipRange`: clip every later drawing to the given rectangle. */
    method SetClipRange(x: Coordinate, y: Coordinate, width: Coordinate, height: Coordinate)
      modifies this
      ensures clip == Some(ClipRect(x, y, width, height))
      ensures palette == old(palette) && font == old(font)
      ensures pixels == old(pixels) && shapes == old(shapes)
      ensures forall px: Coordinate, py: Coordinate ::
                IsPixelClipped(px, py) <==> !(x <= px < x + width && y <= py < y + height)
    {
      clip := Some(ClipRect(x, y, width, height));
    }

    /** `eglib_SetNoClip`: disable clipping. */
    method SetNoClip()
      modifies this
      ensures clip == None
      ensures palette == old(palette) && font == old(font)
      ensures pixels == old(pixels) && shapes == old(shapes)
      ensures forall px: Coordinate, py: Coordinate :: !IsPixelClipped(px, py)
    {
      clip := None;
    }

    // -------------------------------------------------------------------------
    // Color
    // -------------------------------------------------------------------------

    /** `eglib_SetIndexColor`: set palette entry idx and nothing else. */
    method SetIndexColor(idx: nat, r: Channel, g: Channel, b: Channel)
      requires Valid() && idx < PaletteSize
      modifies this
      ensures Valid()
      ensures palette == old(palette)[idx := Color(r, g, b)]
      ensures clip == old(clip) && font == old(font)
      ensures pixels == old(pixels) && shapes == old(shapes)
    {
      palette := palette[idx := Color(r, g, b)];
    }

    // -------------------------------------------------------------------------
    // Pixel
    // -------------------------------------------------------------------------

    /** Whether a pixel drawn at (x, y) reaches the display. */
    predicate Visible(x: Coordinate, y: Coordinate)
      reads this
    {
      !IsPixelClipped(x, y) && 0 <= x < width && 0 <= y < height
    }

    /** `eglib_DrawPixelColor` */
    method DrawPixelColor(x: Coordinate, y: Coordinate, color: Color)
      modifies this
      ensures pixels == old(pixels) + (if old(Visible(x, y)) then [PixelWrite(x, y, color)] else [])
      ensures clip == old(clip) && palette == old(palette) && font == old(font) && shapes == old(shapes)
    {
      if Visible(x, y) {
        pixels := pixels + [PixelWrite(x, y, color)];
      }
    }

    /** `eglib_DrawPixel`: draw with the color of index 0. */
    method DrawPixel(x: Coordinate, y: Coordinate)
      requires Valid()
      modifies this
      ensures Valid()
      ensures pixels == old(pixels) + (if old(Visible(x, y)) then [PixelWrite(x, y, old(palette)[0])] else [])
      ensures clip == old(clip) && palette == old(palette) && font == old(font) && shapes == old(shapes)
    {
      DrawPixelColor(x, y, palette[0]);
    }

    // -------------------------------------------------------------------------
    // Shapes: the general functions and the macros that delegate to them
    // -------------------------------------------------------------------------

    /** Hand a shape call to the rasterizer, in the current colors and through the current clip. */
    method Rasterize(call: DrawCall)
      requires Valid() && call.WellFormed()
      modifies this
      ensures Valid()
      ensures shapes == old(shapes) + [ShapeDraw(call, Inks(call, old(palette)), old(clip))]
      ensures clip == old(clip) && palette == old(palette) && font == old(font) && pixels == old(pixels)
    {
      shapes := shapes + [ShapeDraw(call, Inks(call, palette), clip)];
    }

    /** `eglib_DrawLine` */
    method DrawLine(x1: Coordinate, y1: Coordinate, x2: Coordinate, y2: Coordinate)
      requires Valid()
      modifies this
      ensures Valid()
      ensures shapes == old(shapes) + [ShapeDraw(Line(x1, y1, x2, y2), [old(palette)[0]], old(clip))]
      ensures clip == old(clip) && palette == old(palette) && font == old(font) && pixels == old(pixels)
    {
      Rasterize(Line(x1, y1, x2, y2));
    }

    /** `eglib_DrawGradientLine` */
    method DrawGradientLine(x1: Coordinate, y1: Coordinate, x2: Coordinate, y2: Coordinate)
      requires Valid()
      modifies this
      ensures Valid()
      ensures shapes == old(shapes) + [ShapeDraw(GradientLine(x1, y1, x2, y2), [old(palette)[0], old(palette)[1]], old(clip))]
      ensures clip == old(clip) && palette == old(palette) && font == old(font) && pixels == old(pixels)
    {
      Rasterize(GradientLine(x1, y1, x2, y2));
    }

    /** `eglib_DrawHLine` */
    method DrawHLine(x: Coordinate, y: Coordinate, len: Coordinate)
      requires Valid()
      modifies this
      ensures Valid()
      ensures shapes == old(shapes) + [ShapeDraw(HLine(x, y, len), [old(palette)[0]], old(clip))]
      ensures clip == old(clip) && palette == old(palette) && font == old(font) && pixels == old(pixels)
    {
      DrawLine(x, y, ToCoordinate(x + len), y);
    }

    /** `eglib_DrawVLine` */
    method DrawVLine(x: Coordinate, y: Coordinate, len: Coordinate)
      requires Valid()
      modifies this
      ensures Valid()
      ensures shapes == old(shapes) + [ShapeDraw(VLine(x, y, len), [old(palette)[0]], old(clip))]
      ensures clip == old(clip) && palette == old(palette) && font == old(font) && pixels == old(pixels)
    {
      DrawLine(x, y, x, ToCoordinate(y + len));
    }

    /** `eglib_DrawGradientHLine` */
    method DrawGradientHLine(x: Coordinate, y: Coordinate, len: Coordinate)
      requires Valid()
      modifies this
      ensures Valid()
      ensures shapes == old(shapes) + [ShapeDraw(GradientHLine(x, y, len), [old(palette)[0], old(palette)[1]], old(clip))]
      ensures clip == old(clip) && palette == old(palette) && font == old(font) && pixels == old(pixels)
    {
      DrawGradientLine(x, y, ToCoordinate(x + len), y);
    }

    /** `eglib_DrawGradientVLine` */
    method DrawGradientVLine(x: Coordinate, y: Coordinate, len: Coordinate)
      requires Valid()
      modifies this
      ensures Valid()
      ensures shapes == old(shapes) + [ShapeDraw(GradientVLine(x, y, len), [old(palette)[0], old(palette)[1]], old(clip))]
      ensures clip == old(clip) && palette == old(palette) && font == old(font) && pixels == old(pixels)
    {
      DrawGradientLine(x, y, x, ToCoordinate(y + len));
    }

    /** `eglib_DrawFrame` */
    method DrawFrame(x: Coordinate, y: Coordinate, width: Coordinate, height: Coordinate)
      requires Valid()
      modifies this
      ensures Valid()
      ensures shapes == old(shapes) + [ShapeDraw(Frame(x, y, width, height), [old(palette)[0]], old(clip))]
      ensures clip == old(clip) && palette == old(palette) && font == old(font) && pixels == old(pixels)
    {
      Rasterize(Frame(x, y, width, height));
    }

    /** `eglib_DrawGradientFrame`: corners in colors 0 (top left), 1, 2 and 3 (bottom right). */
    method DrawGradientFrame(x: Coordinate, y: Coordinate, width: Coordinate, height: Coordinate)
      requires Valid()
      modifies this
      ensures Valid()
      ensures shapes == old(shapes) + [ShapeDraw(GradientFrame(x, y, width, height),
                [old(palette)[0], old(palette)[1], old(palette)[2], old(palette)[3]], old(clip))]
      ensures clip == old(clip) && palette == old(palette) && font == old(font) && pixels == old(pixels)
    {
      assert palette == [palette[0], palette[1], palette[2], palette[3]];
      Rasterize(GradientFrame(x, y, width, height));
    }

    /** `eglib_DrawRoundFrame`: both width and height must exceed twice the radius. */
    method DrawRoundFrame(x: Coordinate, y: Coordinate, width: Coordinate, height: Coordinate, radius: Coordinate)
      requires Valid() && width > 2 * radius && height > 2 * radius
      modifies this
      ensures Valid()
      ensures shapes == old(shapes) + [ShapeDraw(RoundFrame(x, y, width, height, radius), [old(palette)[0]], old(clip))]
      ensures clip == old(clip) && palette == old(palette) && font == old(font) && pixels == old(pixels)
    {
      Rasterize(RoundFrame(x, y, width, height, radius));
    }

    /** `eglib_DrawBox` */
    method DrawBox(x: Coordinate, y: Coordinate, width: Coordinate, height: Coordinate)
      requires Valid()
      modifies this
      ensures Valid()
      ensures shapes == old(shapes) + [ShapeDraw(Box(x, y, width, height), [old(palette)[0]], old(clip))]
      ensures clip == old(clip) && palette == old(palette) && font == old(font) && pixels == old(pixels)
    {
      Rasterize(Box(x, y, width, height));
    }

    /** `eglib_DrawGradientBox`: corners in colors 0 (top left), 1, 2 and 3 (bottom right). */
    method DrawGradientBox(x: Coordinate, y: Coordinate, width: Coordinate, height: Coordinate)
      requires Valid()
      modifies this
      ensures Valid()
      ensures shapes == old(shapes) + [ShapeDraw(GradientBox(x, y, width, height),
                [old(palette)[0], old(palette)[1], old(palette)[2], old(palette)[3]], old(clip))]
      ensures clip == old(clip) && palette == old(palette) && font == old(font) && pixels == old(pixels)
    {
      assert palette == [palette[0], palette[1], palette[2], palette[3]];
      Rasterize(GradientBox(x, y, width, height));
    }

    /** `eglib_DrawRoundBox`: both width and height must exceed twice the radius. */
    method DrawRoundBox(x: Coordinate, y: Coordinate, width: Coordinate, height: Coordinate, radius: Coordinate)
      requires Valid() && width > 2 * radius && height > 2 * radius
      modifies this
      ensures Valid()
      ensures shapes == old(shapes) + [ShapeDraw(RoundBox(x, y, width, height, radius), [old(palette)[0]], old(clip))]
      ensures clip == old(clip) && palette == old(palette) && font == old(font) && pixels == old(pixels)
    {
      Rasterize(RoundBox(x, y, width, height, radius));
    }

    /** `eglib_DrawArc`: 0 <= start angle < end angle <= 360. */
    method DrawArc(x: Coordinate, y: Coordinate, radius: Coordinate, startAngle: real, endAngle: real)
      requires Valid() && ValidSweep(startAngle, endAngle)
      modifies this
      ensures Valid()
      ensures shapes == old(shapes) + [ShapeDraw(Arc(x, y, radius, startAngle, endAngle), [old(palette)[0]], old(clip))]
      ensures clip == old(clip) && palette == old(palette) && font == old(font) && pixels == old(pixels)
    {
      Rasterize(Arc(x, y, radius, startAngle, endAngle));
    }

    /** `eglib_DrawGradientArc`: from color 0 at the start angle to color 1 at the end. */
    method DrawGradientArc(x: Coordinate, y: Coordinate, radius: Coordinate, startAngle: real, endAngle: real)
      requires Valid() && ValidSweep(startAngle, endAngle)
      modifies this
      ensures Valid()
      ensures shapes == old(shapes) + [ShapeDraw(GradientArc(x, y, radius, startAngle, endAngle),
                [old(palette)[0], old(palette)[1]], old(clip))]
      ensures clip == old(clip) && palette == old(palette) && font == old(font) && pixels == old(pixels)
    {
      Rasterize(GradientArc(x, y, radius, startAngle, endAngle));
    }

    /** `eglib_DrawFilledArc` */
    method DrawFilledArc(x: Coordinate, y: Coordinate, radius: Coordinate, startAngle: real, endAngle: real)
      requires Valid() && ValidSweep(startAngle, endAngle)
      modifies this
      ensures Valid()
      ensures shapes == old(shapes) + [ShapeDraw(FilledArc(x, y, radius, startAngle, endAngle), [old(palette)[0]], old(clip))]
      ensures clip == old(clip) && palette == old(palette) && font == old(font) && pixels == old(pixels)
    {
      Rasterize(FilledArc(x, y, radius, startAngle, endAngle));
    }

    /** `eglib_DrawGradientFilledArc` */
    method DrawGradientFilledArc(x: Coordinate, y: Coordinate, radius: Coordinate, startAngle: real, endAngle: real)
      requires Valid() && ValidSweep(startAngle, endAngle)
      modifies this
      ensures Valid()
      ensures shapes == old(shapes) + [ShapeDraw(GradientFilledArc(x, y, radius, startAngle, endAngle), [old(palette)[0], old(palette)[1]], old(clip))]
      ensures clip == old(clip) && palette == old(palette) && font == old(font) && pixels == old(pixels)
    {
      Rasterize(GradientFilledArc(x, y, radius, startAngle, endAngle));
    }

    /** `eglib_DrawCircle` */
    method DrawCircle(x: Coordinate, y: Coordinate, radius: Coordinate)
      requires Valid()
      modifies this
      ensures Valid()
      ensures shapes == old(shapes) + [ShapeDraw(Circle(x, y, radius), [old(palette)[0]], old(clip))]
      ensures clip == old(clip) && palette == old(palette) && font == old(font) && pixels == old(pixels)
    {
      DrawArc(x, y, radius, 0.0, 360.0);
    }

    /** `eglib_DrawDisc` */
    method DrawDisc(x: Coordinate, y: Coordinate, radius: Coordinate)
      requires Valid()
      modifies this
      ensures Valid()
      ensures shapes == old(shapes) + [ShapeDraw(Disc(x, y, radius), [old(palette)[0]], old(clip))]
      ensures clip == old(clip) && palette == old(palette) && font == old(font) && pixels == old(pixels)
    {
      DrawFilledArc(x, y, radius, 0.0, 360.0);
    }

    /** `eglib_DrawGradientDisc` */
    method DrawGradientDisc(x: Coordinate, y: Coordinate, radius: Coordinate)
      requires Valid()
      modifies this
      ensures Valid()
      ensures shapes == old(shapes) + [ShapeDraw(GradientDisc(x, y, radius), [old(palette)[0], old(palette)[1]], old(clip))]
      ensures clip == old(clip) && palette == old(palette) && font == old(font) && pixels == old(pixels)
    {
      DrawGradientFilledArc(x, y, radius, 0.0, 360.0);
    }

    // -------------------------------------------------------------------------
    // Text
    // -------------------------------------------------------------------------

    /** `eglib_SetFont` */
    method SetFont(f: Font)
      requires Valid() && Text.WellFormed(f)
      modifies this
      ensures Valid()
      ensures font == Some(f)
      ensures clip == old(clip) && palette == old(palette) && pixels == old(pixels) && shapes == old(shapes)
    {
      font := Some(f);
    }

    /** `eglib_GetGlyph`: the current font's glyph for character code c. */
    function GetGlyph(c: int): (g: Option<Glyph>)
      reads this
      requires Valid() && font.Some?
      ensures g.Some? <==> font.value.charcodeStart <= c <= font.value.charcodeEnd
      ensures g.Some? ==> g.value == font.value.glyphs[c - font.value.charcodeStart]
    {
      Text.GetGlyph(font.value, c)
    }
  }
}
