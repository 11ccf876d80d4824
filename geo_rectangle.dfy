/** Geometry's axis-aligned rectangle, stored as its top-left corner and its
    width and height. The validating constructor and the Width/Height setters
    reject sizes below float.Epsilon; Scale and the Right, Bottom, Center,
    Location and Size setters change the object in place, so the object is the
    class Rectangle. Contains, Intersects, Union and the operators read a
    rectangle's four fields and build new rectangles, so they are functions on
    the value Rect that the class holds. */
module GeoRectangle {
  import opened Common
  import GeoPoint2

  /** The four stored fields _Left, _Top, _Width and _Height. */
  datatype Rect = Rect(Left: real, Top: real, Width: real, Height: real)

  /** Geometry's Circle, of which the rectangle reads only the center and the
      radius. */
  datatype Circle = Circle(Center: GeoPoint2.Point2, Radius: real)

  /** What the validating constructor guarantees: neither side is below
      float.Epsilon. */
  predicate Valid(r: Rect) {
    FloatEpsilon <= r.Width && FloatEpsilon <= r.Height
  }

  /** The Right and Bottom getters. */
  function Right(r: Rect): real {
    r.Left + r.Width
  }
  function Bottom(r: Rect): real {
    r.Top + r.Height
  }

  /** The Center getter. */
  function Center(r: Rect): GeoPoint2.Point2 {
    GeoPoint2.Point2(r.Left + r.Width / 2.0, r.Top + r.Height / 2.0)
  }

  /** The four corner getters. */
  function TopLeft(r: Rect): GeoPoint2.Point2 {
    GeoPoint2.Point2(r.Left, r.Top)
  }
  function TopRight(r: Rect): GeoPoint2.Point2 {
    GeoPoint2.Point2(r.Left + r.Width, r.Top)
  }
  function BottomLeft(r: Rect): GeoPoint2.Point2 {
    GeoPoint2.Point2(r.Left, r.Top + r.Height)
  }
  function BottomRight(r: Rect): GeoPoint2.Point2 {
    GeoPoint2.Point2(r.Left + r.Width, r.Top + r.Height)
  }

  /** Area and Perimeter. */
  function Area(r: Rect): real {
    r.Height * r.Width
  }
  function Perimeter(r: Rect): real {
    (r.Height + r.Width) * 2.0
  }

  /** Rectangle(x, y, width, height), and Rectangle(width, height) with x and
      y zero: ArgumentException when the width, then the height, is below
      float.Epsilon. */
  function New(x: real, y: real, width: real, height: real): (r: Result<Rect>)
    ensures r.Err? <==> width < FloatEpsilon || height < FloatEpsilon
    ensures r.Err? ==> r.error == Argument
    ensures r.Ok? ==> Valid(r.value) && TopLeft(r.value) == GeoPoint2.Point2(x, y)
    ensures r.Ok? ==> r.value.Width == width && r.value.Height == height
  {
    if width < FloatEpsilon then Err(Argument)
    else if height < FloatEpsilon then Err(Argument)
    else Ok(Rect(x, y, width, height))
  }

  /** Rectangle(): the unit square at the origin. */
  const Default: Rect := Rect(0.0, 0.0, 1.0, 1.0)

  /** Rectangle(center, width, height): ArgumentNullException for a null
      center, then the size checks; the rectangle is placed so that its
      center is the given point. */
  function FromCenter(center: Option<GeoPoint2.Point2>, width: real, height: real): (r: Result<Rect>)
    ensures center.None? ==> r == Err(ArgumentNull)
    ensures center.Some? ==> (r.Err? <==> width < FloatEpsilon || height < FloatEpsilon)
    ensures center.Some? && r.Err? ==> r.error == Argument
    ensures r.Ok? ==> Valid(r.value) && Center(r.value) == center.value
    ensures r.Ok? ==> r.value.Width == width && r.value.Height == height
  {
    if center.None? then Err(ArgumentNull)
    else if width < FloatEpsilon then Err(Argument)
    else if height < FloatEpsilon then Err(Argument)
    else Ok(Rect(center.value.X - width / 2.0, center.value.Y - height / 2.0, width, height))
  }

  /** Contains(int, int): the left and top edges are inside, the right and
      bottom edges are not. */
  predicate ContainsInt(r: Rect, x: int, y: int) {
    r.Left <= x as real && x as real < r.Left + r.Width && r.Top <= y as real && y as real < r.Top + r.Height
  }

  /** Contains(float, float): every edge is inside. */
  predicate ContainsXY(r: Rect, x: real, y: real) {
    r.Left <= x && r.Top <= y && x <= r.Left + r.Width && y <= r.Top + r.Height
  }

  /** Contains(Point2): every edge is inside. */
  predicate ContainsPoint(r: Rect, p: GeoPoint2.Point2) {
    r.Left <= p.X && r.Top <= p.Y && p.X <= r.Left + r.Width && p.Y <= r.Top + r.Height
  }

  /** Contains(Rectangle): the other's edges all lie within this one's. */
  predicate ContainsRect(r: Rect, other: Rect) {
    r.Left <= other.Left && other.Left + other.Width <= r.Left + r.Width &&
    r.Top <= other.Top && other.Top + other.Height <= r.Top + r.Height
  }

  /** Intersects(Rectangle): strict overlap on both axes. */
  predicate Intersects(r: Rect, other: Rect) {
    other.Left < Right(r) && Right(other) > r.Left && other.Top < Bottom(r) && Bottom(other) > r.Top
  }

  /** The decision chain of Intersects(Circle) on the absolute offsets dx, dy
      of the circle's center from the rectangle's center: false when either
      offset exceeds the half-extent plus the radius, true when either is
      within the half-extent, and otherwise whether the nearest corner is
      within the radius, compared squared. */
  predicate OffsetTest(dx: real, dy: real, halfWidth: real, halfHeight: real, radius: real) {
    if dx > halfWidth + radius then false
    else if dy > halfHeight + radius then false
    else if dx <= halfWidth then true
    else if dy <= halfHeight then true
    else WithinRadius(dx - halfWidth, dy - halfHeight, radius)
  }

  /** The displacement (x, y) is no longer than the radius, compared
      squared. */
  predicate WithinRadius(x: real, y: real, radius: real) {
    x * x + y * y <= radius * radius
  }

  /** Intersects(Circle): the chain above on the offsets of the circle's
      center from the rectangle's center. */
  predicate IntersectsCircle(r: Rect, c: Circle) {
    var center := Center(r);
    OffsetTest(Abs(c.Center.X - center.X), Abs(c.Center.Y - center.Y), r.Width / 2.0, r.Height / 2.0, c.Radius)
  }

  /** Union: the smallest left and top, the largest right and bottom, built
      through the validating constructor. */
  function Union(value1: Rect, value2: Rect): (r: Result<Rect>)
    ensures r.Ok? ==> r.value.Left == Min(value1.Left, value2.Left) && r.value.Top == Min(value1.Top, value2.Top)
    ensures r.Ok? ==> Right(r.value) == Max(Right(value1), Right(value2))
    ensures r.Ok? ==> Bottom(r.value) == Max(Bottom(value1), Bottom(value2))
    ensures r.Ok? ==> ContainsRect(r.value, value1) && ContainsRect(r.value, value2)
    ensures Valid(value1) ==> r.Ok?
  {
    var x := Min(value1.Left, value2.Left);
    var y := Min(value1.Top, value2.Top);
    New(x, y, Max(Right(value1), Right(value2)) - x, Max(Bottom(value1), Bottom(value2)) - y)
  }

  /** operator +(Rectangle, Vector2): the corner moved, the size kept, through
      the validating constructor. */
  function AddVector(r: Rect, v: GeoPoint2.Vector2): (s: Result<Rect>)
    ensures s.Ok? <==> Valid(r)
    ensures s.Ok? ==> TopLeft(s.value) == GeoPoint2.AddVector(TopLeft(r), v)
    ensures s.Ok? ==> s.value.Width == r.Width && s.value.Height == r.Height
  {
    New(r.Left + v.X, r.Top + v.Y, r.Width, r.Height)
  }

  /** operator -(Rectangle, Vector2) */
  function SubVector(r: Rect, v: GeoPoint2.Vector2): (s: Result<Rect>)
    ensures s.Ok? <==> Valid(r)
    ensures s.Ok? ==> TopLeft(s.value) == GeoPoint2.SubVector(TopLeft(r), v)
    ensures s.Ok? ==> s.value.Width == r.Width && s.value.Height == r.Height
  {
    New(r.Left - v.X, r.Top - v.Y, r.Width, r.Height)
  }

  /** operator *(Rectangle, float): ArgumentException for a negative scale,
      then the validating constructor on the scaled size, which also rejects
      a zero scale. */
  function Mul(r: Rect, scale: real): (s: Result<Rect>)
    ensures scale < 0.0 ==> s == Err(Argument)
    ensures s.Err? ==> s.error == Argument
    ensures 0.0 <= scale ==> s == New(r.Left, r.Top, r.Width * scale, r.Height * scale)
  {
    if scale < 0.0 then Err(Argument)
    else New(r.Left, r.Top, r.Width * scale, r.Height * scale)
  }

  /** operator /(Rectangle, float): ArgumentException (not
      DivideByZeroException) for a zero scale, then the validating
      constructor on the divided size, which also rejects a negative scale. */
  function Div(r: Rect, scale: real): (s: Result<Rect>)
    ensures scale == 0.0 ==> s == Err(Argument)
    ensures s.Err? ==> s.error == Argument
    ensures s.Ok? ==> TopLeft(s.value) == TopLeft(r)
    ensures s.Ok? ==> s.value.Width * scale == r.Width && s.value.Height * scale == r.Height
    ensures s.Ok? <==> scale != 0.0 && FloatEpsilon <= r.Width / scale && FloatEpsilon <= r.Height / scale
    ensures scale != 0.0 ==> s == New(r.Left, r.Top, r.Width / scale, r.Height / scale)
  {
    if scale == 0.0 then Err(Argument)
    else New(r.Left, r.Top, r.Width / scale, r.Height / scale)
  }

  /** operator ==: true for the same reference (two nulls included), false
      when exactly one side is null, otherwise field by field. */
  function Eq(r1: Option<Rect>, r2: Option<Rect>): (r: bool)
    ensures r <==> r1 == r2
  {
    match (r1, r2)
    case (None, None) => true
    case (Some(a), Some(b)) => a.Left == b.Left && a.Top == b.Top && a.Width == b.Width && a.Height == b.Height
    case _ => false
  }

  /** operator !=: the negation of ==. */
  function NotEq(r1: Option<Rect>, r2: Option<Rect>): (r: bool)
    ensures r <==> r1 != r2
  {
    !Eq(r1, r2)
  }

  /** Equals(Rectangle): field by field. */
  function Equals(r: Rect, other: Rect): (b: bool)
    ensures b <==> r == other
  {
    r.Left == other.Left && r.Top == other.Top && r.Width == other.Width && r.Height == other.Height
  }

  /** The values of TestBasicProperties for the rectangle (0, 0, 2, 3). */
  lemma BasicPropertiesExample()
    ensures var r := New(0.0, 0.0, 2.0, 3.0).value;
      Perimeter(r) == 10.0 && Area(r) == 6.0 && Right(r) == 2.0 && Bottom(r) == 3.0 &&
      Center(r) == GeoPoint2.Point2(1.0, 1.5)
  {
  }

  /** Contains(int, int) is the half-open version of Contains(float, float):
      what it contains the inclusive test contains too, and a point on the
      right or bottom edge is never contained. */
  lemma ContainsIntHalfOpen(r: Rect, x: int, y: int)
    ensures ContainsInt(r, x, y) ==> ContainsXY(r, x as real, y as real)
    ensures x as real == Right(r) || y as real == Bottom(r) ==> !ContainsInt(r, x, y)
    ensures ContainsXY(r, x as real, y as real) && x as real != Right(r) && y as real != Bottom(r)
      ==> ContainsInt(r, x, y)
  {
  }

  /** A rectangle with non-negative sides contains its corners and its center,
      and contains itself; containment of rectangles is transitive. */
  lemma ContainmentProperties(r: Rect, s: Rect, t: Rect)
    requires 0.0 <= r.Width && 0.0 <= r.Height
    ensures ContainsPoint(r, TopLeft(r)) && ContainsPoint(r, TopRight(r))
    ensures ContainsPoint(r, BottomLeft(r)) && ContainsPoint(r, BottomRight(r))
    ensures ContainsPoint(r, Center(r)) && ContainsRect(r, r)
    ensures ContainsRect(r, s) && ContainsRect(s, t) ==> ContainsRect(r, t)
  {
  }

  /** The cases of TestContainsGeometry against (0, 0, 10, 10). */
  lemma ContainsExamples()
    ensures var r := Rect(0.0, 0.0, 10.0, 10.0);
      ContainsPoint(r, GeoPoint2.Point2(3.0, 3.0)) && !ContainsPoint(r, GeoPoint2.Point2(12.0, 12.0)) &&
      ContainsPoint(r, GeoPoint2.Point2(0.0, 0.0)) && ContainsPoint(r, GeoPoint2.Point2(10.0, 10.0)) &&
      ContainsRect(r, Rect(2.0, 2.0, 2.0, 2.0)) && !ContainsRect(r, Rect(-5.0, -5.0, 2.0, 2.0)) &&
      !ContainsRect(r, Rect(-50.0, -50.0, 200.0, 200.0)) && ContainsRect(r, Rect(0.0, 0.0, 2.0, 2.0)) &&
      !ContainsRect(r, Rect(-2.0, -2.0, 2.0, 2.0)) && !ContainsRect(r, Rect(-2.0, -2.0, 10.0, 10.0))
  {
  }

  /** Intersection is symmetric; a rectangle of positive size intersects
      itself and every rectangle of positive size it contains; rectangles
      that only touch along an edge do not intersect. */
  lemma IntersectsProperties(r: Rect, o: Rect)
    ensures Intersects(r, o) <==> Intersects(o, r)
    ensures 0.0 < r.Width && 0.0 < r.Height ==> Intersects(r, r)
    ensures 0.0 < o.Width && 0.0 < o.Height && ContainsRect(r, o) ==> Intersects(r, o)
    ensures o.Left == Right(r) || Right(o) == r.Left || o.Top == Bottom(r) || Bottom(o) == r.Top
      ==> !Intersects(r, o)
  {
  }

  /** The point (x, y) lies strictly inside r. */
  predicate StrictlyInside(r: Rect, x: real, y: real) {
    r.Left < x < Right(r) && r.Top < y < Bottom(r)
  }

  /** Two rectangles of positive size intersect exactly when some point lies
      strictly inside both. */
  lemma IntersectsIffCommonInteriorPoint(r: Rect, o: Rect)
    requires Valid(r) && Valid(o)
    ensures Intersects(r, o) <==> exists x: real, y: real :: StrictlyInside(r, x, y) && StrictlyInside(o, x, y)
  {
    if Intersects(r, o) {
      var x := (Max(r.Left, o.Left) + Min(Right(r), Right(o))) / 2.0;
      var y := (Max(r.Top, o.Top) + Min(Bottom(r), Bottom(o))) / 2.0;
      assert StrictlyInside(r, x, y) && StrictlyInside(o, x, y);
    }
  }

  /** The cases of TestRectangleIntersectsGeometry against (0, 0, 10, 10). */
  lemma IntersectsExamples()
    ensures var r := Rect(0.0, 0.0, 10.0, 10.0);
      Intersects(r, Rect(-2.0, -2.0, 10.0, 10.0)) && Intersects(r, Rect(2.0, 2.0, 2.0, 2.0)) &&
      !Intersects(r, Rect(-5.0, -5.0, 2.0, 2.0)) && Intersects(r, Rect(-50.0, -50.0, 200.0, 200.0)) &&
      Intersects(r, Rect(0.0, 0.0, 2.0, 2.0)) && !Intersects(r, Rect(-2.0, -2.0, 2.0, 2.0))
  {
  }

  /** TestIntersectsRectangle2: the unit square moved by (1, 1) and by
      (-1, -1) does not intersect. */
  lemma MovedUnitSquaresExample()
    ensures var unit, one := Rect(0.0, 0.0, 1.0, 1.0), GeoPoint2.Vector2(1.0, 1.0);
      AddVector(unit, one) == Ok(Rect(1.0, 1.0, 1.0, 1.0)) &&
      SubVector(unit, one) == Ok(Rect(-1.0, -1.0, 1.0, 1.0)) &&
      !Intersects(Rect(1.0, 1.0, 1.0, 1.0), Rect(-1.0, -1.0, 1.0, 1.0))
  {
    assert Valid(Rect(0.0, 0.0, 1.0, 1.0));
  }

  /** The point of [lo, hi] nearest to x. */
  function Clamp(x: real, lo: real, hi: real): (r: real)
    requires lo <= hi
    ensures lo <= r <= hi
    ensures lo <= x <= hi ==> r == x
  {
    if x < lo then lo else if x > hi then hi else x
  }

  /** The squared distance from the circle's center to the nearest point of
      the rectangle is at most the squared radius. */
  predicate NearestPointWithin(r: Rect, c: Circle)
    requires 0.0 <= r.Width && 0.0 <= r.Height
  {
    WithinRadius(c.Center.X - Clamp(c.Center.X, r.Left, Right(r)), c.Center.Y - Clamp(c.Center.Y, r.Top, Bottom(r)), c.Radius)
  }

  /** How far an offset d from the center reaches beyond the half-extent h. */
  function Gap(d: real, h: real): real {
    if d <= h then 0.0 else d - h
  }

  /** The distance from x to the nearest point of [lo, lo + w] is the gap of
      x's offset from the interval's middle. */
  lemma DistanceToIntervalIsGap(x: real, lo: real, w: real)
    requires 0.0 <= w
    ensures Abs(x - Clamp(x, lo, lo + w)) == Gap(Abs(x - (lo + w / 2.0)), w / 2.0)
  {
  }

  /** A number and its absolute value have the same square. */
  lemma SquareOfAbs(a: real, g: real)
    requires Abs(a) == g
    ensures a * a == g * g
  {
    if a < 0.0 {
      assert g == -a;
    }
  }

  /** Squaring is monotone on non-negative numbers. */
  lemma SquareMonotone(a: real, b: real)
    requires 0.0 <= a <= b
    ensures a * a <= b * b
  {
    if a < b {
      MulPositive(b - a, b + a);
    }
  }

  /** If b exceeds a non-negative a, then b*b plus the square g*h (g == h)
      exceeds a*a. */
  lemma SquareSumExceeds(a: real, b: real, g: real, h: real)
    requires 0.0 <= a < b && g == h
    ensures a * a < b * b + g * h
  {
    MulPositive(b - a, b + a);
    if 0.0 < g {
      MulPositive(g, h);
    } else if g < 0.0 {
      MulPositive(-g, -h);
    }
  }

  /** The decision chain of Intersects(Circle) decides whether the gaps of
      the two offsets form a displacement no longer than the radius. */
  lemma OffsetTestIffGaps(dx: real, dy: real, hw: real, hh: real, radius: real)
    requires 0.0 <= dx && 0.0 <= dy && 0.0 <= hw && 0.0 <= hh && 0.0 <= radius
    ensures OffsetTest(dx, dy, hw, hh, radius) <==> WithinRadius(Gap(dx, hw), Gap(dy, hh), radius)
  {
    var gx, gy := Gap(dx, hw), Gap(dy, hh);
    if dx > hw + radius {
      SquareSumExceeds(radius, gx, gy, gy);
    } else if dy > hh + radius {
      SquareSumExceeds(radius, gy, gx, gx);
    } else if dx <= hw {
      SquareMonotone(gy, radius);
    } else if dy <= hh {
      SquareMonotone(gx, radius);
    }
  }

  /** Only the absolute values of the components matter to WithinRadius. */
  lemma WithinRadiusOfAbs(x: real, y: real, gx: real, gy: real, radius: real)
    requires Abs(x) == gx && Abs(y) == gy
    ensures WithinRadius(x, y, radius) == WithinRadius(gx, gy, radius)
  {
    SquareOfAbs(x, gx);
    SquareOfAbs(y, gy);
  }

  /** Intersects(Circle), for a rectangle of non-negative size and a circle
      of non-negative radius, holds exactly when the point of the rectangle
      nearest to the circle's center lies within the circle. */
  lemma IntersectsCircleIffNearestPointWithin(r: Rect, c: Circle)
    requires 0.0 <= r.Width && 0.0 <= r.Height && 0.0 <= c.Radius
    ensures IntersectsCircle(r, c) <==> NearestPointWithin(r, c)
  {
    var hw, hh := r.Width / 2.0, r.Height / 2.0;
    var dx, dy := Abs(c.Center.X - Center(r).X), Abs(c.Center.Y - Center(r).Y);
    OffsetTestIffGaps(dx, dy, hw, hh, c.Radius);
    DistanceToIntervalIsGap(c.Center.X, r.Left, r.Width);
    DistanceToIntervalIsGap(c.Center.Y, r.Top, r.Height);
    WithinRadiusOfAbs(c.Center.X - Clamp(c.Center.X, r.Left, Right(r)), c.Center.Y - Clamp(c.Center.Y, r.Top, Bottom(r)),
      Gap(dx, hw), Gap(dy, hh), c.Radius);
  }

  /** The cases of Rectangle_RectangleCircleIntersection_Pass against
      (0, 0, 10, 10): overlapping, offset, contained, containing, tangent. */
  lemma CircleIntersectionExamples()
    ensures var r := Rect(0.0, 0.0, 10.0, 10.0);
      IntersectsCircle(r, Circle(GeoPoint2.Point2(0.0, 0.0), 6.0)) &&
      IntersectsCircle(r, Circle(GeoPoint2.Point2(0.0, 0.0), 2.0)) &&
      IntersectsCircle(r, Circle(GeoPoint2.Point2(5.0, 5.0), 1.0)) &&
      IntersectsCircle(r, Circle(GeoPoint2.Point2(5.0, 5.0), 25.0)) &&
      IntersectsCircle(r, Circle(GeoPoint2.Point2(-1.0, 5.0), 1.0))
  {
  }

  /** A circle whose center lies in the rectangle intersects it. */
  lemma ContainedCenterIntersects(r: Rect, c: Circle)
    requires 0.0 <= r.Width && 0.0 <= r.Height && 0.0 <= c.Radius
    requires ContainsPoint(r, c.Center)
    ensures IntersectsCircle(r, c)
  {
  }

  /** Union is symmetric; TestUnion: (0, 0, 2, 2) and (1, 1, 2, 2) give
      (0, 0, 3, 3). */
  lemma UnionProperties(a: Rect, b: Rect)
    ensures Union(a, b) == Union(b, a)
    ensures Union(Rect(0.0, 0.0, 2.0, 2.0), Rect(1.0, 1.0, 2.0, 2.0)) == Ok(Rect(0.0, 0.0, 3.0, 3.0))
  {
  }

  /** Moving by a vector and back gives the rectangle back, and a point moved
      along with the rectangle is contained exactly when it was before. */
  lemma TranslationProperties(r: Rect, v: GeoPoint2.Vector2, p: GeoPoint2.Point2)
    requires Valid(r)
    ensures SubVector(AddVector(r, v).value, v) == Ok(r)
    ensures ContainsPoint(AddVector(r, v).value, GeoPoint2.AddVector(p, v)) <==> ContainsPoint(r, p)
  {
  }

  /** A valid rectangle has positive area and perimeter; the in-place Scale,
      which multiplies the width and height, multiplies the area by the
      product of the two factors. */
  lemma MeasuresProperties(r: Rect, ws: real, hs: real)
    ensures Valid(r) ==> 0.0 < Area(r) && 0.0 < Perimeter(r)
    ensures Area(Rect(r.Left, r.Top, r.Width * ws, r.Height * hs)) == Area(r) * (ws * hs)
  {
    if Valid(r) {
      MulPositive(r.Height, r.Width);
    }
    assert (r.Height * hs) * (r.Width * ws) == (r.Height * r.Width) * (ws * hs);
  }

  /** Multiplying by zero throws, because the constructor rejects the empty
      size; dividing a valid rectangle by a negative number throws too; and
      dividing by a positive scale undoes multiplying by it. */
  lemma ScaleOperatorProperties(r: Rect, scale: real)
    requires Valid(r)
    ensures Mul(r, 0.0) == Err(Argument)
    ensures scale < 0.0 ==> Div(r, scale) == Err(Argument)
    ensures 0.0 < scale && Mul(r, scale).Ok? ==> Div(Mul(r, scale).value, scale) == Ok(r)
  {
    if scale < 0.0 {
      assert r.Width / scale < 0.0 by {
        assert r.Width / scale == -(r.Width / -scale);
      }
    }
    if 0.0 < scale && Mul(r, scale).Ok? {
      var m := Mul(r, scale).value;
      assert m.Width / scale == r.Width && m.Height / scale == r.Height;
    }
  }

  /** The cases of TestOperatorOverloads on (0, 0, 2, 3). */
  lemma OperatorExamples()
    ensures var r := Rect(0.0, 0.0, 2.0, 3.0);
      AddVector(r, GeoPoint2.Vector2(1.0, 1.0)) == Ok(Rect(1.0, 1.0, 2.0, 3.0)) &&
      SubVector(r, GeoPoint2.Vector2(1.0, 1.0)) == Ok(Rect(-1.0, -1.0, 2.0, 3.0)) &&
      Mul(r, 3.0) == Ok(Rect(0.0, 0.0, 6.0, 9.0)) &&
      Div(r, 2.0) == Ok(Rect(0.0, 0.0, 1.0, 1.5)) &&
      Eq(Some(r), Some(Rect(0.0, 0.0, 2.0, 3.0))) && NotEq(Some(r), Some(Rect(1.0, 2.0, 4.0, 5.0)))
  {
  }

  /** A Rectangle object: the four fields the setters and Scale update. */
  class Rectangle {
    var Left: real
    var Top: real
    var Width: real
    var Height: real

    /** The fields currently held. */
    function Value(): Rect
      reads this
    {
      Rect(Left, Top, Width, Height)
    }

    /** Stores the given fields. */
    constructor Of(value: Rect)
      ensures Value() == value
    {
      Left, Top, Width, Height := value.Left, value.Top, value.Width, value.Height;
    }

    /** Rectangle(x, y, width, height) as an object: it exists only when the
        validating constructor accepts the size. */
    static method Create(x: real, y: real, width: real, height: real) returns (r: Result<Rectangle>)
      ensures r.Err? <==> New(x, y, width, height).Err?
      ensures r.Err? ==> r.error == Argument
      ensures r.Ok? ==> fresh(r.value) && r.value.Value() == New(x, y, width, height).value
    {
      var v := New(x, y, width, height);
      if v.Err? {
        return Err(v.error);
      }
      var rect := new Rectangle.Of(v.value);
      return Ok(rect);
    }

    /** The copy constructor: an equal rectangle. */
    constructor Copy(other: Rectangle)
      ensures Value() == other.Value()
      ensures Eq(Some(Value()), Some(other.Value()))
    {
      Left, Top, Width, Height := other.Left, other.Top, other.Width, other.Height;
    }

    /** The Left setter, and the X setter, which stores the same field: the
        rectangle moves horizontally and keeps its size. */
    method SetLeft(value: real)
      modifies this
      ensures Value() == old(Value()).(Left := value)
      ensures TopLeft(Value()).X == value && Right(Value()) == value + Width
    {
      Left := value;
    }

    /** The Top setter, and the Y setter, which stores the same field: the
        rectangle moves vertically and keeps its size. */
    method SetTop(value: real)
      modifies this
      ensures Value() == old(Value()).(Top := value)
      ensures TopLeft(Value()).Y == value && Bottom(Value()) == value + Height
    {
      Top := value;
    }

    /** The Width setter: ArgumentException, and no change, below
        float.Epsilon. */
    method SetWidth(value: real) returns (o: Outcome)
      modifies this
      ensures o.Fail? <==> value < FloatEpsilon
      ensures o.Fail? ==> o.error == Argument && Value() == old(Value())
      ensures o.Pass? ==> Value() == old(Value()).(Width := value)
    {
      if value < FloatEpsilon {
        return Fail(Argument);
      }
      Width := value;
      return Pass;
    }

    /** The Height setter: ArgumentException, and no change, below
        float.Epsilon. */
    method SetHeight(value: real) returns (o: Outcome)
      modifies this
      ensures o.Fail? <==> value < FloatEpsilon
      ensures o.Fail? ==> o.error == Argument && Value() == old(Value())
      ensures o.Pass? ==> Value() == old(Value()).(Height := value)
    {
      if value < FloatEpsilon {
        return Fail(Argument);
      }
      Height := value;
      return Pass;
    }

    /** The Right setter moves the rectangle so that Right reads back the set
        value; the size does not change. */
    method SetRight(value: real)
      modifies this
      ensures Right(Value()) == value
      ensures Value() == old(Value()).(Left := Left)
    {
      Left := value - Width;
    }

    /** The Bottom setter moves the rectangle so that Bottom reads back the
        set value; the size does not change. */
    method SetBottom(value: real)
      modifies this
      ensures Bottom(Value()) == value
      ensures Value() == old(Value()).(Top := Top)
    {
      Top := value - Height;
    }

    /** The Center setter moves the rectangle so that Center reads back the
        set point; the size does not change. */
    method SetCenter(value: GeoPoint2.Point2)
      modifies this
      ensures Center(Value()) == value
      ensures Width == old(Width) && Height == old(Height)
    {
      Left := value.X - Width / 2.0;
      Top := value.Y - Height / 2.0;
    }

    /** The Location setter: the top-left corner, size unchanged. */
    method SetLocation(value: GeoPoint2.Point2)
      modifies this
      ensures TopLeft(Value()) == value
      ensures Width == old(Width) && Height == old(Height)
    {
      Left := value.X;
      Top := value.Y;
    }

    /** The Size setter, which unlike the Width and Height setters accepts
        any size. */
    method SetSize(value: GeoPoint2.Point2)
      modifies this
      ensures Value() == Rect(old(Left), old(Top), value.X, value.Y)
    {
      Width := value.X;
      Height := value.Y;
    }

    /** Scale(width_scale, height_scale): ArgumentException, before any
        change, when the height scale or the width scale is below
        float.Epsilon; otherwise the size is multiplied in place and the
        top-left corner stays. */
    method Scale(widthScale: real, heightScale: real) returns (o: Outcome)
      modifies this
      ensures o.Fail? <==> heightScale < FloatEpsilon || widthScale < FloatEpsilon
      ensures o.Fail? ==> o.error == Argument && Value() == old(Value())
      ensures o.Pass? ==> Value() == Rect(old(Left), old(Top), old(Width) * widthScale, old(Height) * heightScale)
    {
      if heightScale < FloatEpsilon {
        return Fail(Argument);
      }
      if widthScale < FloatEpsilon {
        return Fail(Argument);
      }
      Width := Width * widthScale;
      Height := Height * heightScale;
      return Pass;
    }
  }
}
