/** GeometryLib's two-dimensional point, Point2. */
module LibPoint2 {
  import opened Common
  import LibVector2

  datatype Point2 = Point2(X: real, Y: real)

  /** Point2.ZERO */
  const Zero: Point2 := Point2(0.0, 0.0)

  /** Point2.ONE */
  const One: Point2 := Point2(1.0, 1.0)

  /** The int (and short) constructor: the coordinates keep their values. */
  function FromInts(x: int, y: int): (r: Point2)
    ensures r.X == x as real && r.Y == y as real
    ensures r.X.Floor == x && r.Y.Floor == y
  {
    Point2(x as real, y as real)
  }

  /** Length: a point has no extent. */
  function Length(p: Point2): (r: real)
    ensures r == 0.0
  {
    0.0
  }

  /** Static DistanceTo(p1, p2) = sqrt(dx*dx + dy*dy). */
  function Distance(p1: Point2, p2: Point2, sqrt: real -> real): real {
    Hypot(sqrt, p1.X - p2.X, p1.Y - p2.Y)
  }

  /** DistanceTo with its null checks: either operand being null throws
      ArgumentNullException. */
  function DistanceTo(p1: Option<Point2>, p2: Option<Point2>, sqrt: real -> real): (r: Result<real>)
    ensures r.Err? <==> p1.None? || p2.None?
    ensures r.Err? ==> r.error == ArgumentNull
    ensures r.Ok? ==> r.value == Distance(p1.value, p2.value, sqrt)
  {
    if p1.None? || p2.None? then Err(ArgumentNull)
    else Ok(Distance(p1.value, p2.value, sqrt))
  }

  /** operator +(Point2, Vector2) */
  function AddVector(p: Point2, v: LibVector2.Vector2): Point2 {
    Point2(p.X + v.X, p.Y + v.Y)
  }

  /** operator -(Point2, Vector2) */
  function SubVector(p: Point2, v: LibVector2.Vector2): Point2 {
    Point2(p.X - v.X, p.Y - v.Y)
  }

  /** Equals(Point2): false for null, otherwise component-wise. */
  function Equals(p: Point2, other: Option<Point2>): (r: bool)
    ensures r <==> other == Some(p)
  {
    match other
    case None => false
    case Some(q) => p.X == q.X && p.Y == q.Y
  }

  /** Subtracting a vector undoes adding it, and the other way round. */
  lemma SubVectorUndoesAddVector(p: Point2, v: LibVector2.Vector2)
    ensures SubVector(AddVector(p, v), v) == p
    ensures AddVector(SubVector(p, v), v) == p
  {
  }

  /** Moving by a vector moves the point by exactly that displacement: the
      squared distance between p and p + v is the squared length of v. */
  lemma AddVectorDisplacement(p: Point2, v: LibVector2.Vector2, sqrt: real -> real)
    requires IsSqrt(sqrt)
    ensures Distance(p, AddVector(p, v), sqrt) == LibVector2.Length(v, sqrt)
  {
    HypotEq(sqrt, -v.X, -v.Y, v.X, v.Y);
  }

  /** The distance is symmetric. */
  lemma DistanceSymmetric(p1: Point2, p2: Point2, sqrt: real -> real)
    requires IsSqrt(sqrt)
    ensures Distance(p1, p2, sqrt) == Distance(p2, p1, sqrt)
  {
    HypotEq(sqrt, p1.X - p2.X, p1.Y - p2.Y, p2.X - p1.X, p2.Y - p1.Y);
  }

  /** The distance is never negative and is zero exactly between equal points. */
  lemma DistanceZeroIff(p1: Point2, p2: Point2, sqrt: real -> real)
    requires IsSqrt(sqrt)
    ensures 0.0 <= Distance(p1, p2, sqrt)
    ensures Distance(p1, p2, sqrt) == 0.0 <==> p1 == p2
  {
    HypotZeroIff(sqrt, p1.X - p2.X, p1.Y - p2.Y);
  }

  /** The distance from (0, 0) to (3, 4) is 5. */
  lemma DistanceExample(sqrt: real -> real)
    requires IsSqrt(sqrt)
    ensures Distance(Point2(0.0, 0.0), Point2(3.0, 4.0), sqrt) == 5.0
  {
    SqrtUnique(sqrt, (0.0 - 3.0) * (0.0 - 3.0) + (0.0 - 4.0) * (0.0 - 4.0), 5.0);
  }

  /** A Point2 object: the library compares Point2 references with ==, which
      for this class is identity, so the model keeps points as objects where
      identity matters. */
  class Point2Ref {
    var X: real
    var Y: real

    constructor (x: real, y: real)
      ensures Value() == Point2(x, y)
    {
      X, Y := x, y;
    }

    /** The coordinates currently held. */
    function Value(): Point2
      reads this
    {
      Point2(X, Y)
    }
  }
}
