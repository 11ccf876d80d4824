/** Geometry's planar point. Its operators only fill a freshly created output,
    so points are values here. Its == operator, unlike GeometryLib's, compares
    coordinates and accepts null operands, which are modelled as None. */
module GeoPoint2 {
  import opened Common

  /** The two coordinates of Geometry's Vector2, the only part of that type
      the point operators read. */
  datatype Vector2 = Vector2(X: real, Y: real)

  datatype Point2 = Point2(X: real, Y: real)

  /** Point2(): the origin. */
  const Origin: Point2 := Point2(0.0, 0.0)

  /** DistanceTo(p1, p2), and the instance DistanceTo that calls it:
      sqrt((p1.X - p2.X)^2 + (p1.Y - p2.Y)^2). */
  function DistanceTo(p1: Point2, p2: Point2, sqrt: real -> real): real {
    Hypot(sqrt, p1.X - p2.X, p1.Y - p2.Y)
  }

  /** operator +(Point2, Vector2) */
  function AddVector(p: Point2, v: Vector2): Point2 {
    Point2(p.X + v.X, p.Y + v.Y)
  }

  /** operator -(Point2, Vector2) */
  function SubVector(p: Point2, v: Vector2): Point2 {
    Point2(p.X - v.X, p.Y - v.Y)
  }

  /** operator ==: true for the same reference (two nulls included), false
      when exactly one side is null, otherwise coordinate-wise. */
  function Eq(p1: Option<Point2>, p2: Option<Point2>): (r: bool)
    ensures r <==> p1 == p2
  {
    match (p1, p2)
    case (None, None) => true
    case (Some(a), Some(b)) => a.X == b.X && a.Y == b.Y
    case _ => false
  }

  /** operator !=: the negation of ==. */
  function NotEq(p1: Option<Point2>, p2: Option<Point2>): (r: bool)
    ensures r <==> p1 != p2
  {
    !Eq(p1, p2)
  }

  /** Equals(Point2): coordinate-wise. */
  function Equals(p: Point2, other: Point2): (r: bool)
    ensures r <==> p == other
  {
    p.X == other.X && p.Y == other.Y
  }

  /** Subtracting a vector undoes adding it, and the other way round. */
  lemma SubVectorUndoesAddVector(p: Point2, v: Vector2)
    ensures SubVector(AddVector(p, v), v) == p
    ensures AddVector(SubVector(p, v), v) == p
  {
  }

  /** The distance is symmetric, never negative, and zero exactly between
      equal points. */
  lemma DistanceProperties(p1: Point2, p2: Point2, sqrt: real -> real)
    requires IsSqrt(sqrt)
    ensures DistanceTo(p1, p2, sqrt) == DistanceTo(p2, p1, sqrt)
    ensures 0.0 <= DistanceTo(p1, p2, sqrt)
    ensures DistanceTo(p1, p2, sqrt) == 0.0 <==> p1 == p2
  {
    HypotEq(sqrt, p1.X - p2.X, p1.Y - p2.Y, p2.X - p1.X, p2.Y - p1.Y);
    HypotZeroIff(sqrt, p1.X - p2.X, p1.Y - p2.Y);
  }

  /** Moving a point by a vector moves it as far as the vector is long. */
  lemma AddVectorDistance(p: Point2, v: Vector2, sqrt: real -> real)
    requires IsSqrt(sqrt)
    ensures DistanceTo(p, AddVector(p, v), sqrt) == Hypot(sqrt, v.X, v.Y)
  {
    HypotEq(sqrt, p.X - (p.X + v.X), p.Y - (p.Y + v.Y), v.X, v.Y);
  }
}
