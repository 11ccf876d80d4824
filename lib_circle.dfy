/** GeometryLib's circle, and the rectangle-circle test of GeometryLib's
    Rectangle, which is built from the circle's point containment. All tests
    compare squared distances, so no square root is involved. */
module LibCircle {
  import opened Common
  import LibPoint2
  import LibVector2
  import LibRectangle

  /** Center and Radius have public setters, so a Circle value need not have
      passed the constructor's check. */
  datatype Circle = Circle(Center: LibPoint2.Point2, Radius: real)

  /** Circle(x, y, radius): ArgumentOutOfRangeException unless the radius is positive. */
  function New(x: real, y: real, radius: real): (r: Result<Circle>)
    ensures r.Err? <==> radius <= 0.0
    ensures r.Err? ==> r.error == ArgumentOutOfRange
    ensures r.Ok? ==> r.value.Center == LibPoint2.Point2(x, y) && r.value.Radius == radius
  {
    if radius <= 0.0 then Err(ArgumentOutOfRange) else Ok(Circle(LibPoint2.Point2(x, y), radius))
  }

  /** Circle.UnitCircle, built by Circle(). */
  const UnitCircle: Circle := Circle(LibPoint2.Point2(0.0, 0.0), 1.0)

  /** Circle(radius): centred on the origin. */
  function FromRadius(radius: real): (r: Result<Circle>)
    ensures r == New(0.0, 0.0, radius)
  {
    New(0.0, 0.0, radius)
  }

  /** Circle(position): radius 1 at the given point; always succeeds. */
  function FromPosition(position: LibPoint2.Point2): (r: Result<Circle>)
    ensures r == Ok(Circle(position, 1.0))
  {
    New(position.X, position.Y, 1.0)
  }

  /** Circle(circle): fails exactly when the copied radius is not positive. */
  function Copy(c: Circle): (r: Result<Circle>)
    ensures r.Err? <==> c.Radius <= 0.0
    ensures r.Ok? ==> r.value == c
  {
    New(c.Center.X, c.Center.Y, c.Radius)
  }

  function Left(c: Circle): real { c.Center.X - c.Radius }
  function Right(c: Circle): real { c.Center.X + c.Radius }
  function Top(c: Circle): real { c.Center.Y - c.Radius }
  function Bottom(c: Circle): real { c.Center.Y + c.Radius }
  function Diameter(c: Circle): real { c.Radius * 2.0 }

  /** Intersects(Circle): (r1 + r2)^2 >= dx^2 + dy^2, so tangent circles
      intersect. The source first answers true when the two Center objects
      are the same reference; such centers have equal coordinates, for which
      the formula holds as well (IntersectsSameCenter). */
  function Intersects(c1: Circle, c2: Circle): bool {
    var dx := c2.Center.X - c1.Center.X;
    var dy := c2.Center.Y - c1.Center.Y;
    var sumRadius := c1.Radius + c2.Radius;
    sumRadius * sumRadius >= dx * dx + dy * dy
  }

  /** Contains(Point2): r^2 >= |dx^2 + dy^2|, boundary included. */
  function ContainsPoint(c: Circle, p: LibPoint2.Point2): bool {
    var dx := p.X - c.Center.X;
    var dy := p.Y - c.Center.Y;
    c.Radius * c.Radius >= Abs(dx * dx + dy * dy)
  }

  /** Contains(Rectangle): all four corners are contained. */
  function ContainsRect(c: Circle, r: LibRectangle.Rectangle): bool {
    ContainsPoint(c, LibRectangle.TopLeft(r)) && ContainsPoint(c, LibRectangle.TopRight(r)) &&
    ContainsPoint(c, LibRectangle.BottomRight(r)) && ContainsPoint(c, LibRectangle.BottomLeft(r))
  }

  /** Intersects(Rectangle): at least one corner is contained. */
  function IntersectsRect(c: Circle, r: LibRectangle.Rectangle): bool {
    ContainsPoint(c, LibRectangle.TopLeft(r)) || ContainsPoint(c, LibRectangle.TopRight(r)) ||
    ContainsPoint(c, LibRectangle.BottomRight(r)) || ContainsPoint(c, LibRectangle.BottomLeft(r))
  }

  /** Rectangle.Intersects(Circle): the rectangle contains the circle's center
      or the circle contains one of the rectangle's corners. */
  function RectangleIntersects(r: LibRectangle.Rectangle, c: Circle): bool {
    LibRectangle.ContainsPoint(r, c.Center) || IntersectsRect(c, r)
  }

  /** operator +(Circle, Vector2): the center moves, the radius is re-validated. */
  function AddVector(c: Circle, v: LibVector2.Vector2): (r: Result<Circle>)
    ensures r.Err? <==> c.Radius <= 0.0
    ensures r.Ok? ==> r.value == Circle(LibPoint2.AddVector(c.Center, v), c.Radius)
  {
    New(c.Center.X + v.X, c.Center.Y + v.Y, c.Radius)
  }

  /** operator -(Circle, Vector2) */
  function SubVector(c: Circle, v: LibVector2.Vector2): (r: Result<Circle>)
    ensures r.Err? <==> c.Radius <= 0.0
    ensures r.Ok? ==> r.value == Circle(LibPoint2.SubVector(c.Center, v), c.Radius)
  {
    New(c.Center.X - v.X, c.Center.Y - v.Y, c.Radius)
  }

  /** operator *(Circle, scale): the radius is scaled and re-validated. */
  function Mul(c: Circle, scale: real): (r: Result<Circle>)
    ensures r.Err? <==> c.Radius * scale <= 0.0
    ensures r.Err? ==> r.error == ArgumentOutOfRange
    ensures r.Ok? ==> r.value.Center == c.Center && r.value.Radius == c.Radius * scale
  {
    New(c.Center.X, c.Center.Y, c.Radius * scale)
  }

  /** operator /(Circle, scale) */
  function Div(c: Circle, scale: real): (r: Result<Circle>)
    requires scale != 0.0
    ensures r.Err? <==> c.Radius / scale <= 0.0
    ensures r.Err? ==> r.error == ArgumentOutOfRange
    ensures r.Ok? ==> r.value.Center == c.Center && r.value.Radius * scale == c.Radius
  {
    New(c.Center.X, c.Center.Y, c.Radius / scale)
  }

  /** Equals(Circle): equal centers and equal radii. */
  function Equals(c1: Circle, c2: Circle): (r: bool)
    ensures r <==> c1 == c2
  {
    LibPoint2.Equals(c1.Center, Some(c2.Center)) && c1.Radius == c2.Radius
  }

  /** The bounding edges are a radius away from the center and span the diameter. */
  lemma BoundingEdges(c: Circle)
    ensures Right(c) - Left(c) == Diameter(c) && Bottom(c) - Top(c) == Diameter(c)
    ensures Left(c) + c.Radius == c.Center.X && Top(c) + c.Radius == c.Center.Y
  {
  }

  /** A circle with center (4, 5) and radius 2 has edges 2, 6, 3 and 7 and diameter 4. */
  lemma BoundingEdgesExample()
    ensures New(4.0, 5.0, 2.0).Ok?
    ensures var c := New(4.0, 5.0, 2.0).value;
      Left(c) == 2.0 && Right(c) == 6.0 && Top(c) == 3.0 && Bottom(c) == 7.0 && Diameter(c) == 4.0
  {
  }

  /** A number bigger than a positive r has a square bigger than r's. */
  lemma SquareGrows(r: real, a: real)
    requires 0.0 < r < a
    ensures r * r < a * a
  {
    MulPositive(a - r, a + r);
  }

  /** Point containment is the squared-distance test; the absolute value in
      the source never matters. */
  lemma ContainsPointIff(c: Circle, p: LibPoint2.Point2)
    ensures ContainsPoint(c, p) <==>
      (p.X - c.Center.X) * (p.X - c.Center.X) + (p.Y - c.Center.Y) * (p.Y - c.Center.Y) <= c.Radius * c.Radius
  {
    var dx := p.X - c.Center.X;
    var dy := p.Y - c.Center.Y;
    assert 0.0 <= dx * dx + dy * dy;
  }

  /** Every point of a valid circle lies within its bounding edges. */
  lemma ContainedPointWithinEdges(c: Circle, p: LibPoint2.Point2)
    requires 0.0 < c.Radius && ContainsPoint(c, p)
    ensures Left(c) <= p.X <= Right(c) && Top(c) <= p.Y <= Bottom(c)
  {
    ContainsPointIff(c, p);
    var dx := p.X - c.Center.X;
    var dy := p.Y - c.Center.Y;
    assert dx * dx <= c.Radius * c.Radius && dy * dy <= c.Radius * c.Radius;
    if c.Radius < Abs(dx) {
      SquareGrows(c.Radius, Abs(dx));
      assert Abs(dx) * Abs(dx) == dx * dx;
    }
    if c.Radius < Abs(dy) {
      SquareGrows(c.Radius, Abs(dy));
      assert Abs(dy) * Abs(dy) == dy * dy;
    }
  }

  /** The center of a circle and the points on its rim are contained. */
  lemma ContainsCenterAndRim(c: Circle)
    ensures ContainsPoint(c, c.Center)
    ensures ContainsPoint(c, LibPoint2.Point2(c.Center.X + c.Radius, c.Center.Y))
  {
  }

  /** Intersection is symmetric; circles with the same center always
      intersect; tangent circles intersect and farther ones do not. */
  lemma IntersectsProperties(c1: Circle, c2: Circle)
    ensures Intersects(c1, c2) <==> Intersects(c2, c1)
    ensures Intersects(UnitCircle, Circle(LibPoint2.Point2(2.0, 0.0), 1.0))
    ensures !Intersects(UnitCircle, Circle(LibPoint2.Point2(3.0, 0.0), 1.0))
  {
    var dx := c2.Center.X - c1.Center.X;
    var dy := c2.Center.Y - c1.Center.Y;
    assert (-dx) * (-dx) + (-dy) * (-dy) == dx * dx + dy * dy;
  }

  /** Circles with the same center always intersect, whatever their radii;
      hence the source's shortcut for a shared Center object never changes
      the answer. */
  lemma IntersectsSameCenter(c1: Circle, c2: Circle)
    requires c1.Center == c2.Center
    ensures Intersects(c1, c2)
  {
    var s := c1.Radius + c2.Radius;
    if s < 0.0 {
      MulPositive(-s, -s);
    } else if 0.0 < s {
      MulPositive(s, s);
    }
  }

  /** Two valid circles intersect when one contains the other's center. */
  lemma ContainedCenterIntersects(c1: Circle, c2: Circle)
    requires 0.0 < c1.Radius && 0.0 < c2.Radius
    requires ContainsPoint(c1, c2.Center)
    ensures Intersects(c1, c2)
  {
    ContainsPointIff(c1, c2.Center);
    var s := c1.Radius + c2.Radius;
    assert c1.Radius * c1.Radius <= s * s by {
      MulPositive(c2.Radius, c1.Radius + s);
      assert s * s - c1.Radius * c1.Radius == c2.Radius * (c1.Radius + s);
    }
  }

  /** Containing a rectangle implies intersecting it, and a rectangle the
      circle intersects also intersects the circle from the rectangle's side. */
  lemma RectangleTests(c: Circle, r: LibRectangle.Rectangle)
    ensures ContainsRect(c, r) ==> IntersectsRect(c, r)
    ensures IntersectsRect(c, r) ==> RectangleIntersects(r, c)
    ensures LibRectangle.ContainsPoint(r, c.Center) ==> RectangleIntersects(r, c)
  {
  }

  /** The rectangle's circle test only looks at the center and the corners:
      a circle crossing the middle of an edge is reported as not
      intersecting although it contains a point of the rectangle. */
  lemma RectangleIntersectsMissesEdge()
    ensures var r := LibRectangle.Rectangle(0.0, 0.0, 10.0, 10.0);
      var c := Circle(LibPoint2.Point2(5.0, -1.0), 2.0);
      var p := LibPoint2.Point2(5.0, 0.0);
      !RectangleIntersects(r, c) && LibRectangle.ContainsPoint(r, p) && ContainsPoint(c, p)
  {
  }

  /** Translation keeps the radius, moves containment along, and is undone
      by translating back. */
  lemma TranslationProperties(c: Circle, v: LibVector2.Vector2, p: LibPoint2.Point2)
    requires 0.0 < c.Radius
    ensures AddVector(c, v).Ok? && SubVector(AddVector(c, v).value, v) == Ok(c)
    ensures ContainsPoint(AddVector(c, v).value, LibPoint2.AddVector(p, v)) <==> ContainsPoint(c, p)
  {
    var m := AddVector(c, v).value;
    var q := LibPoint2.AddVector(p, v);
    assert q.X - m.Center.X == p.X - c.Center.X && q.Y - m.Center.Y == p.Y - c.Center.Y;
  }

  /** Scaling a valid circle by a positive factor succeeds, keeps the center,
      and dividing by the same factor restores it. */
  lemma ScaleProperties(c: Circle, scale: real)
    requires 0.0 < c.Radius && 0.0 < scale
    ensures Mul(c, scale).Ok?
    ensures Div(Mul(c, scale).value, scale) == Ok(c)
  {
    MulPositive(c.Radius, scale);
    var m := Mul(c, scale).value;
    assert m.Radius / scale == c.Radius;
  }
}
