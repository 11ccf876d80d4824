/** GeometryLib's line between two points, Line2. */
module LibLine2 {
  import opened Common
  import LibPoint2

  datatype Line2 = Line2(Point1: LibPoint2.Point2, Point2: LibPoint2.Point2)

  /** The four-float constructor: Point1 = (p1x, p1y), Point2 = (p2x, p2y). */
  function FromCoordinates(p1x: real, p1y: real, p2x: real, p2y: real): (r: Line2)
    ensures r.Point1 == LibPoint2.Point2(p1x, p1y)
    ensures r.Point2 == LibPoint2.Point2(p2x, p2y)
  {
    Line2(LibPoint2.Point2(p1x, p1y), LibPoint2.Point2(p2x, p2y))
  }

  /** Length = Point1.DistanceTo(Point2). */
  function Length(l: Line2, sqrt: real -> real): real {
    LibPoint2.Distance(l.Point1, l.Point2, sqrt)
  }

  /** Equals(Line2): both endpoints equal, in order. */
  function Equals(l: Line2, other: Line2): (r: bool)
    ensures r <==> l == other
  {
    LibPoint2.Equals(l.Point1, Some(other.Point1)) && LibPoint2.Equals(l.Point2, Some(other.Point2))
  }

  /** The line with its endpoints swapped. */
  function Reversed(l: Line2): Line2 {
    Line2(l.Point2, l.Point1)
  }

  /** A line and its reversal have the same length but are equal only when
      the two endpoints coincide. */
  lemma ReversedLine(l: Line2, sqrt: real -> real)
    requires IsSqrt(sqrt)
    ensures Length(Reversed(l), sqrt) == Length(l, sqrt)
    ensures Equals(l, Reversed(l)) <==> l.Point1 == l.Point2
    ensures Equals(l, Reversed(l)) <==> Length(l, sqrt) == 0.0
  {
    LibPoint2.DistanceSymmetric(l.Point1, l.Point2, sqrt);
    LibPoint2.DistanceZeroIff(l.Point1, l.Point2, sqrt);
  }

  /** The length is never negative. */
  lemma LengthNonNegative(l: Line2, sqrt: real -> real)
    requires IsSqrt(sqrt)
    ensures 0.0 <= Length(l, sqrt)
  {
    LibPoint2.DistanceZeroIff(l.Point1, l.Point2, sqrt);
  }
}
