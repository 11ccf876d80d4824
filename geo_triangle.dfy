/** Geometry's triangle. Unlike GeometryLib's, its constructor throws
    ArgumentException for a null vertex and rejects two vertices at the same
    location, whatever objects hold them, because it compares with Equals. */
module GeoTriangle {
  import opened Common
  import GeoPoint2
  import Heron

  datatype Triangle = Triangle(Point1: GeoPoint2.Point2, Point2: GeoPoint2.Point2, Point3: GeoPoint2.Point2)

  /** Triangle(point1, point2, point3): ArgumentException for a null vertex,
      then ArgumentException when two vertices are at the same location. */
  function New(point1: Option<GeoPoint2.Point2>, point2: Option<GeoPoint2.Point2>, point3: Option<GeoPoint2.Point2>)
    : (r: Result<Triangle>)
    ensures r.Err? <==>
      (point1.None? || point2.None? || point3.None? || point1 == point2 || point2 == point3 || point3 == point1)
    ensures r.Err? ==> r.error == Argument
    ensures r.Ok? ==> r.value == Triangle(point1.value, point2.value, point3.value)
  {
    if point1.None? || point2.None? || point3.None? then Err(Argument)
    else if GeoPoint2.Equals(point1.value, point2.value) || GeoPoint2.Equals(point2.value, point3.value)
      || GeoPoint2.Equals(point3.value, point1.value) then Err(Argument)
    else Ok(Triangle(point1.value, point2.value, point3.value))
  }

  /** The side lengths |P1P2|, |P2P3| and |P3P1|. */
  function SideA(t: Triangle, sqrt: real -> real): real {
    GeoPoint2.DistanceTo(t.Point1, t.Point2, sqrt)
  }
  function SideB(t: Triangle, sqrt: real -> real): real {
    GeoPoint2.DistanceTo(t.Point2, t.Point3, sqrt)
  }
  function SideC(t: Triangle, sqrt: real -> real): real {
    GeoPoint2.DistanceTo(t.Point3, t.Point1, sqrt)
  }

  /** Perimeter: the sum of the three side lengths. */
  function Perimeter(t: Triangle, sqrt: real -> real): real {
    SideA(t, sqrt) + SideB(t, sqrt) + SideC(t, sqrt)
  }

  /** Area: the sides are measured, ordered by the three swaps, and Heron's
      product is taken to the power 0.5 and scaled by 0.25. The result
      depends only on the side lengths, not on the order they come in. */
  method Area(t: Triangle, sqrt: real -> real) returns (area: real)
    ensures area == Sqrt(sqrt, Heron.Product(SideA(t, sqrt), SideB(t, sqrt), SideC(t, sqrt))) * 0.25
  {
    var a, b, c := Heron.SortSides(SideA(t, sqrt), SideB(t, sqrt), SideC(t, sqrt));
    var buffer := (a + (b + c)) * (c - (a - b)) * (c + (a - b)) * (a + (b - c));
    area := Sqrt(sqrt, buffer) * 0.25;
  }

  /** Equals(Triangle): Point2.Equals position by position. */
  function Equals(t: Triangle, other: Triangle): (r: bool)
    ensures r <==> t == other
  {
    GeoPoint2.Equals(t.Point1, other.Point1) && GeoPoint2.Equals(t.Point2, other.Point2)
      && GeoPoint2.Equals(t.Point3, other.Point3)
  }

  /** Every accepted triangle has sides of positive length. */
  lemma AcceptedSidesPositive(p1: GeoPoint2.Point2, p2: GeoPoint2.Point2, p3: GeoPoint2.Point2, sqrt: real -> real)
    requires IsSqrt(sqrt)
    requires New(Some(p1), Some(p2), Some(p3)).Ok?
    ensures var t := New(Some(p1), Some(p2), Some(p3)).value;
      0.0 < SideA(t, sqrt) && 0.0 < SideB(t, sqrt) && 0.0 < SideC(t, sqrt)
  {
    GeoPoint2.DistanceProperties(p1, p2, sqrt);
    GeoPoint2.DistanceProperties(p2, p3, sqrt);
    GeoPoint2.DistanceProperties(p3, p1, sqrt);
  }

  /** The perimeter is never negative and does not change when the vertices
      are rotated or listed in reverse; neither does the area. */
  lemma RelabellingInvariance(t: Triangle, sqrt: real -> real)
    requires IsSqrt(sqrt)
    ensures 0.0 <= Perimeter(t, sqrt)
    ensures Perimeter(Triangle(t.Point2, t.Point3, t.Point1), sqrt) == Perimeter(t, sqrt)
    ensures Perimeter(Triangle(t.Point3, t.Point2, t.Point1), sqrt) == Perimeter(t, sqrt)
    ensures var r := Triangle(t.Point3, t.Point2, t.Point1);
      Heron.Product(SideA(r, sqrt), SideB(r, sqrt), SideC(r, sqrt))
        == Heron.Product(SideA(t, sqrt), SideB(t, sqrt), SideC(t, sqrt))
  {
    var a, b, c := SideA(t, sqrt), SideB(t, sqrt), SideC(t, sqrt);
    GeoPoint2.DistanceProperties(t.Point1, t.Point2, sqrt);
    GeoPoint2.DistanceProperties(t.Point2, t.Point3, sqrt);
    GeoPoint2.DistanceProperties(t.Point3, t.Point1, sqrt);
    var r := Triangle(t.Point3, t.Point2, t.Point1);
    assert SideA(r, sqrt) == b && SideB(r, sqrt) == a && SideC(r, sqrt) == c;
    Heron.ProductSwapAB(a, b, c);
  }

  /** The value Area returns is never negative, and it is positive exactly
      when the three vertices are not collinear. */
  lemma AreaSign(t: Triangle, sqrt: real -> real)
    requires IsSqrt(sqrt)
    ensures var area := Sqrt(sqrt, Heron.Product(SideA(t, sqrt), SideB(t, sqrt), SideC(t, sqrt))) * 0.25;
      0.0 <= area && (0.0 < area <==>
        Heron.Cross(t.Point2.X - t.Point1.X, t.Point2.Y - t.Point1.Y, t.Point3.X - t.Point1.X, t.Point3.Y - t.Point1.Y) != 0.0)
  {
    Heron.AreaSign(sqrt, t.Point1.X, t.Point1.Y, t.Point2.X, t.Point2.Y, t.Point3.X, t.Point3.Y);
  }
}
