/** GeometryLib's three-dimensional point, Point3. */
module LibPoint3 {
  import opened Common
  import LibPoint2

  datatype Point3 = Point3(X: real, Y: real, Z: real)

  /** The parameterless constructor: the origin. */
  const Origin: Point3 := Point3(0.0, 0.0, 0.0)

  /** The copy constructor Point3(Point3). */
  function Copy(p: Point3): (r: Point3)
    ensures Equals(r, Some(p)) && Equals(p, Some(r))
  {
    Point3(p.X, p.Y, p.Z)
  }

  /** The constructor Point3(Point2): the plane point lifted to Z = 0. */
  function FromPoint2(p: LibPoint2.Point2): (r: Point3)
    ensures r.Z == 0.0
    ensures DropZ(r) == p
  {
    Point3(p.X, p.Y, 0.0)
  }

  /** The projection onto the XY plane; used to state what FromPoint2 keeps. */
  function DropZ(p: Point3): LibPoint2.Point2 {
    LibPoint2.Point2(p.X, p.Y)
  }

  /** operator + */
  function Add(p1: Point3, p2: Point3): Point3 {
    Point3(p1.X + p2.X, p1.Y + p2.Y, p1.Z + p2.Z)
  }

  /** operator - */
  function Sub(p1: Point3, p2: Point3): Point3 {
    Point3(p1.X - p2.X, p1.Y - p2.Y, p1.Z - p2.Z)
  }

  /** Equals(Point3): false for null, otherwise component-wise. */
  function Equals(p: Point3, other: Option<Point3>): (r: bool)
    ensures r <==> other == Some(p)
  {
    match other
    case None => false
    case Some(q) => p.X == q.X && p.Y == q.Y && p.Z == q.Z
  }

  /** Subtraction undoes addition; the origin is neutral for both. */
  lemma AddSubInverse(p1: Point3, p2: Point3)
    ensures Sub(Add(p1, p2), p2) == p1
    ensures Add(Sub(p1, p2), p2) == p1
    ensures Add(p1, Origin) == p1 && Sub(p1, Origin) == p1
    ensures Sub(p1, p1) == Origin
  {
  }

  /** Addition is commutative. */
  lemma AddCommutes(p1: Point3, p2: Point3)
    ensures Add(p1, p2) == Add(p2, p1)
  {
  }
}
