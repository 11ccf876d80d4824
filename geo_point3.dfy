/** Geometry's spatial point: component-wise arithmetic between points, and an
    == operator that compares coordinates and accepts null operands (None). */
module GeoPoint3 {
  import opened Common

  datatype Point3 = Point3(X: real, Y: real, Z: real)

  /** Point3(): the origin. */
  const Origin: Point3 := Point3(0.0, 0.0, 0.0)

  /** operator + */
  function Add(p1: Point3, p2: Point3): Point3 {
    Point3(p1.X + p2.X, p1.Y + p2.Y, p1.Z + p2.Z)
  }

  /** operator - */
  function Sub(p1: Point3, p2: Point3): Point3 {
    Point3(p1.X - p2.X, p1.Y - p2.Y, p1.Z - p2.Z)
  }

  /** operator *: component by component. */
  function Mul(p1: Point3, p2: Point3): Point3 {
    Point3(p1.X * p2.X, p1.Y * p2.Y, p1.Z * p2.Z)
  }

  /** operator /: component by component. */
  function Div(p1: Point3, p2: Point3): (r: Point3)
    requires p2.X != 0.0 && p2.Y != 0.0 && p2.Z != 0.0
    ensures Mul(r, p2) == p1
  {
    Point3(p1.X / p2.X, p1.Y / p2.Y, p1.Z / p2.Z)
  }

  /** operator ==: true for the same reference (two nulls included), false
      when exactly one side is null, otherwise coordinate-wise. */
  function Eq(p1: Option<Point3>, p2: Option<Point3>): (r: bool)
    ensures r <==> p1 == p2
  {
    match (p1, p2)
    case (None, None) => true
    case (Some(a), Some(b)) => a.X == b.X && a.Y == b.Y && a.Z == b.Z
    case _ => false
  }

  /** operator !=: the negation of ==. */
  function NotEq(p1: Option<Point3>, p2: Option<Point3>): (r: bool)
    ensures r <==> p1 != p2
  {
    !Eq(p1, p2)
  }

  /** Equals(Point3): false at the first differing coordinate. */
  function Equals(p: Point3, other: Point3): (r: bool)
    ensures r <==> p == other
  {
    if p.X != other.X then false
    else if p.Y != other.Y then false
    else if p.Z != other.Z then false
    else true
  }

  /** Subtraction undoes addition; the origin is neutral for addition. */
  lemma AddSubProperties(p: Point3, q: Point3)
    ensures Sub(Add(p, q), q) == p
    ensures Add(p, Origin) == p && Add(p, q) == Add(q, p)
  {
  }

  /** Division by a point with no zero coordinate undoes multiplication by it. */
  lemma DivUndoesMul(p: Point3, q: Point3)
    requires q.X != 0.0 && q.Y != 0.0 && q.Z != 0.0
    ensures Div(Mul(p, q), q) == p
  {
    var m := Mul(p, q);
    assert m.X / q.X == p.X && m.Y / q.Y == p.Y && m.Z / q.Z == p.Z;
  }
}
