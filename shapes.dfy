/**
 * The shape-drawing calls of the library as values, and the convenience
 * shapes that its macros define in terms of the general ones: horizontal and
 * vertical lines are lines, circles and discs are arcs over 0 to 360 degrees.
 *
 * The macros add coordinates with C's `int` arithmetic and pass the sum to
 * a `coordinate_t` parameter, so the sum is converted to 16 bits
 * (`ToCoordinate`).
 */
module Shapes {
  import opened Types

  /** A call of one of the general shape-drawing functions, with its arguments. */
  datatype DrawCall =
    | Line(x1: Coordinate, y1: Coordinate, x2: Coordinate, y2: Coordinate)
    | GradientLine(x1: Coordinate, y1: Coordinate, x2: Coordinate, y2: Coordinate)
    | Frame(x: Coordinate, y: Coordinate, width: Coordinate, height: Coordinate)
    | GradientFrame(x: Coordinate, y: Coordinate, width: Coordinate, height: Coordinate)
    | RoundFrame(x: Coordinate, y: Coordinate, width: Coordinate, height: Coordinate, radius: Coordinate)
    | Box(x: Coordinate, y: Coordinate, width: Coordinate, height: Coordinate)
    | GradientBox(x: Coordinate, y: Coordinate, width: Coordinate, height: Coordinate)
    | RoundBox(x: Coordinate, y: Coordinate, width: Coordinate, height: Coordinate, radius: Coordinate)
    | Arc(x: Coordinate, y: Coordinate, radius: Coordinate, startAngle: real, endAngle: real)
    | GradientArc(x: Coordinate, y: Coordinate, radius: Coordinate, startAngle: real, endAngle: real)
    | FilledArc(x: Coordinate, y: Coordinate, radius: Coordinate, startAngle: real, endAngle: real)
    | GradientFilledArc(x: Coordinate, y: Coordinate, radius: Coordinate, startAngle: real, endAngle: real)
  {
    predicate IsArc()
    {
      Arc? || GradientArc? || FilledArc? || GradientFilledArc?
    }

    /**
     * The documented argument ranges: an arc's (solid, gradient, filled or gradient filled) start angle lies in [0, 360]
     * and its end angle is bigger than the start and at most 360; a rounded
     * frame or box is wider and taller than twice its radius.
     */
    predicate WellFormed()
    {
      match this
      case Arc(_, _, _, s, e) => ValidSweep(s, e)
      case GradientArc(_, _, _, s, e) => ValidSweep(s, e)
      case FilledArc(_, _, _, s, e) => ValidSweep(s, e)
      case GradientFilledArc(_, _, _, s, e) => ValidSweep(s, e)
      case RoundFrame(_, _, w, h, r) => w > 2 * r && h > 2 * r
      case RoundBox(_, _, w, h, r) => w > 2 * r && h > 2 * r
      case _ => true
    }
  }

  predicate ValidSweep(startAngle: real, endAngle: real)
  {
    0.0 <= startAngle < endAngle <= 360.0
  }

  /** Whether an arc call sweeps angle a (degrees, 0 up, 90 right). */
  predicate Sweeps(c: DrawCall, a: real)
    requires c.IsArc()
  {
    c.startAngle <= a <= c.endAngle
  }

  /** `eglib_DrawHLine(x, y, len)` */
  function HLine(x: Coordinate, y: Coordinate, len: Coordinate): DrawCall
  {
    Line(x, y, ToCoordinate(x + len), y)
  }

  /** `eglib_DrawVLine(x, y, len)` */
  function VLine(x: Coordinate, y: Coordinate, len: Coordinate): DrawCall
  {
    Line(x, y, x, ToCoordinate(y + len))
  }

  /** `eglib_DrawGradientHLine(x, y, len)` */
  function GradientHLine(x: Coordinate, y: Coordinate, len: Coordinate): DrawCall
  {
    GradientLine(x, y, ToCoordinate(x + len), y)
  }

  /** `eglib_DrawGradientVLine(x, y, len)` */
  function GradientVLine(x: Coordinate, y: Coordinate, len: Coordinate): DrawCall
  {
    GradientLine(x, y, x, ToCoordinate(y + len))
  }

  /** `eglib_DrawCircle(x, y, radius)` */
  function Circle(x: Coordinate, y: Coordinate, radius: Coordinate): DrawCall
  {
    Arc(x, y, radius, 0.0, 360.0)
  }

  /** `eglib_DrawDisc(x, y, radius)` */
  function Disc(x: Coordinate, y: Coordinate, radius: Coordinate): DrawCall
  {
    FilledArc(x, y, radius, 0.0, 360.0)
  }

  /** `eglib_DrawGradientDisc(x, y, radius)` */
  function GradientDisc(x: Coordinate, y: Coordinate, radius: Coordinate): DrawCall
  {
    GradientFilledArc(x, y, radius, 0.0, 360.0)
  }

  /**
   * A horizontal line of length len runs from (x, y) to (x + len, y); the
   * end is x + len itself whenever that sum is a coordinate.
   */
  lemma HLineEndpoints(x: Coordinate, y: Coordinate, len: Coordinate)
    ensures var c := HLine(x, y, len);
      c.Line? && c.x1 == x && c.y1 == y && c.y2 == y
      && (CoordinateMin <= x + len <= CoordinateMax ==> c.x2 == x + len)
      && (c.x2 - x - len) % 65536 == 0
  {
  }

  /** The gradient horizontal line has the same endpoints as the solid one. */
  lemma GradientHLineEndpoints(x: Coordinate, y: Coordinate, len: Coordinate)
    ensures var c := GradientHLine(x, y, len);
      c.GradientLine? && (c.x1, c.y1, c.x2, c.y2) == (HLine(x, y, len).x1, y, HLine(x, y, len).x2, y)
  {
  }

  /**
   * A vertical line of length len runs from (x, y) to (x, y + len); the end
   * is y + len itself whenever that sum is a coordinate.
   */
  lemma VLineEndpoints(x: Coordinate, y: Coordinate, len: Coordinate)
    ensures var c := VLine(x, y, len);
      c.Line? && c.x1 == x && c.y1 == y && c.x2 == x
      && (CoordinateMin <= y + len <= CoordinateMax ==> c.y2 == y + len)
      && (c.y2 - y - len) % 65536 == 0
  {
  }

  /** The gradient vertical line has the same endpoints as the solid one. */
  lemma GradientVLineEndpoints(x: Coordinate, y: Coordinate, len: Coordinate)
    ensures var c := GradientVLine(x, y, len);
      c.GradientLine? && (c.x1, c.y1, c.x2, c.y2) == (x, y, x, VLine(x, y, len).y2)
  {
  }

  /**
   * A circle, a disc and a gradient disc are well-formed arcs that sweep
   * every angle, so they cover whatever any well-formed arc of the same kind
   * covers.
   */
  lemma RoundShapesSweepFullCircle(x: Coordinate, y: Coordinate, radius: Coordinate, other: DrawCall, a: real)
    requires other.IsArc() && other.WellFormed() && Sweeps(other, a)
    ensures Circle(x, y, radius).WellFormed() && Sweeps(Circle(x, y, radius), a)
    ensures Disc(x, y, radius).WellFormed() && Sweeps(Disc(x, y, radius), a)
    ensures GradientDisc(x, y, radius).WellFormed() && Sweeps(GradientDisc(x, y, radius), a)
  {
  }
}
