/** Geometry's line segment between two Point2 endpoints. */
module GeoLineSegment {
  import opened Common
  import GeoPoint2

  datatype LineSegment = LineSegment(Point1: GeoPoint2.Point2, Point2: GeoPoint2.Point2)

  /** LineSegment(point1, point2): ArgumentException when either endpoint is
      null, checked in that order; otherwise the endpoints are stored. */
  function New(point1: Option<GeoPoint2.Point2>, point2: Option<GeoPoint2.Point2>): (r: Result<LineSegment>)
    ensures r.Err? <==> point1.None? || point2.None?
    ensures r.Err? ==> r.error == Argument
    ensures r.Ok? ==> r.value.Point1 == point1.value && r.value.Point2 == point2.value
  {
    if point1.None? then Err(Argument)
    else if point2.None? then Err(Argument)
    else Ok(LineSegment(point1.value, point2.value))
  }

  /** LineSegment(p1x, p1y, p2x, p2y): two fresh points, never null. */
  function FromCoordinates(p1x: real, p1y: real, p2x: real, p2y: real): (r: LineSegment)
    ensures New(Some(GeoPoint2.Point2(p1x, p1y)), Some(GeoPoint2.Point2(p2x, p2y))) == Ok(r)
  {
    LineSegment(GeoPoint2.Point2(p1x, p1y), GeoPoint2.Point2(p2x, p2y))
  }

  /** Length: Point1.DistanceTo(Point2). */
  function Length(l: LineSegment, sqrt: real -> real): real {
    GeoPoint2.DistanceTo(l.Point1, l.Point2, sqrt)
  }

  /** Equals(LineSegment): Point2 == on both endpoints, in order. */
  function Equals(l: LineSegment, other: LineSegment): (r: bool)
    ensures r <==> l == other
  {
    GeoPoint2.Eq(Some(l.Point1), Some(other.Point1)) && GeoPoint2.Eq(Some(l.Point2), Some(other.Point2))
  }

  /** The segment with its endpoints swapped has the same length and is equal
      to the original exactly when the segment is a single point, which is
      exactly when its length is zero. */
  lemma ReversedSegment(l: LineSegment, sqrt: real -> real)
    requires IsSqrt(sqrt)
    ensures var r := LineSegment(l.Point2, l.Point1);
      Length(r, sqrt) == Length(l, sqrt) &&
      (Equals(l, r) <==> l.Point1 == l.Point2) &&
      (Length(l, sqrt) == 0.0 <==> l.Point1 == l.Point2)
  {
    GeoPoint2.DistanceProperties(l.Point1, l.Point2, sqrt);
  }
}
