/** GeometryLib's axis-aligned rectangle, stored as its four edges. The y axis
    points down: Top is the smaller y coordinate, Bottom the larger. Rectangles
    built with an object initializer (Scale, Union and the operators) bypass
    the constructor's validation, so the model's Rectangle is any four reals. */
module LibRectangle {
  import opened Common
  import LibPoint2
  import LibVector2

  datatype Rectangle = Rectangle(Left: real, Top: real, Right: real, Bottom: real)

  /** Edges in the expected order, as every validated constructor leaves them. */
  predicate WellFormed(r: Rectangle) {
    r.Left <= r.Right && r.Top <= r.Bottom
  }

  /** Width => Right - Left */
  function Width(r: Rectangle): real {
    r.Right - r.Left
  }

  /** Height => Bottom - Top */
  function Height(r: Rectangle): real {
    r.Bottom - r.Top
  }

  /** Area => Width * Height */
  function Area(r: Rectangle): real {
    Width(r) * Height(r)
  }

  /** Perimeter => (Width + Height) * 2 */
  function Perimeter(r: Rectangle): real {
    (Width(r) + Height(r)) * 2.0
  }

  /** Center => ((Right - Left) / 2, (Bottom - Top) / 2): half the size,
      measured from the origin rather than from the top-left corner. */
  function Center(r: Rectangle): LibPoint2.Point2 {
    LibPoint2.Point2((r.Right - r.Left) / 2.0, (r.Bottom - r.Top) / 2.0)
  }

  /** The point halfway between the edges, which Center equals only for a
      rectangle anchored at the origin. */
  function Midpoint(r: Rectangle): LibPoint2.Point2 {
    LibPoint2.Point2((r.Left + r.Right) / 2.0, (r.Top + r.Bottom) / 2.0)
  }

  function TopLeft(r: Rectangle): LibPoint2.Point2 { LibPoint2.Point2(r.Left, r.Top) }
  function TopRight(r: Rectangle): LibPoint2.Point2 { LibPoint2.Point2(r.Right, r.Top) }
  function BottomLeft(r: Rectangle): LibPoint2.Point2 { LibPoint2.Point2(r.Left, r.Bottom) }
  function BottomRight(r: Rectangle): LibPoint2.Point2 { LibPoint2.Point2(r.Right, r.Bottom) }

  /** Size => (Width, Height) */
  function Size(r: Rectangle): LibPoint2.Point2 {
    LibPoint2.Point2(Width(r), Height(r))
  }

  /** Rectangle(left, top, width, height): ArgumentException when the width,
      then the height, is below float.Epsilon. */
  function New(left: real, top: real, width: real, height: real): (r: Result<Rectangle>)
    ensures r.Err? <==> width < FloatEpsilon || height < FloatEpsilon
    ensures r.Err? ==> r.error == Argument
    ensures r.Ok? ==> r.value.Left == left && r.value.Top == top
    ensures r.Ok? ==> Width(r.value) == width && Height(r.value) == height
    ensures r.Ok? ==> WellFormed(r.value) && 0.0 < Area(r.value)
  {
    if width < FloatEpsilon then Err(Argument)
    else if height < FloatEpsilon then Err(Argument)
    else Ok(Rectangle(left, top, left + width, top + height))
  }

  /** Rectangle(): the unit rectangle at the origin. */
  const Default: Rectangle := Rectangle(0.0, 0.0, 1.0, 1.0)

  /** Rectangle(width, height): anchored at the origin. */
  function FromSize(width: real, height: real): (r: Result<Rectangle>)
    ensures r == New(0.0, 0.0, width, height)
    ensures r.Ok? ==> TopLeft(r.value) == LibPoint2.Zero && Center(r.value) == Midpoint(r.value)
  {
    New(0.0, 0.0, width, height)
  }

  /** Rectangle(center, width, height): ArgumentNullException for a null
      center, then the same size checks as New; the edges lie half the size
      away from the center on each side. */
  function FromCenter(center: Option<LibPoint2.Point2>, width: real, height: real): (r: Result<Rectangle>)
    ensures center.None? ==> r == Err(ArgumentNull)
    ensures center.Some? ==> (r.Err? <==> width < FloatEpsilon || height < FloatEpsilon)
    ensures center.Some? && r.Err? ==> r.error == Argument
    ensures r.Ok? ==> Midpoint(r.value) == center.value
    ensures r.Ok? ==> Width(r.value) == width && Height(r.value) == height
  {
    if center.None? then Err(ArgumentNull)
    else if width < FloatEpsilon then Err(Argument)
    else if height < FloatEpsilon then Err(Argument)
    else
      var c := center.value;
      Ok(Rectangle(c.X - width / 2.0, c.Y - height / 2.0, c.X + width / 2.0, c.Y + height / 2.0))
  }

  /** Contains(x, y): inclusive on all four edges. */
  function ContainsXY(r: Rectangle, x: real, y: real): bool {
    x >= r.Left && x <= r.Right && y >= r.Top && y <= r.Bottom
  }

  /** Contains(Point2) */
  function ContainsPoint(r: Rectangle, p: LibPoint2.Point2): bool {
    ContainsXY(r, p.X, p.Y)
  }

  /** Contains(Rectangle): every edge of the other lies within this one. */
  function ContainsRect(r: Rectangle, value: Rectangle): bool {
    value.Left >= r.Left && value.Right <= r.Right && value.Top >= r.Top && value.Bottom <= r.Bottom
  }

  /** Scale(widthScale, heightScale): a new rectangle with the same top-left
      corner and scaled size; no validation. */
  function Scale(r: Rectangle, widthScale: real, heightScale: real): (s: Rectangle)
    ensures TopLeft(s) == TopLeft(r)
    ensures Width(s) == Width(r) * widthScale && Height(s) == Height(r) * heightScale
  {
    Rectangle(r.Left, r.Top, r.Left + Width(r) * widthScale, r.Top + Height(r) * heightScale)
  }

  /** Intersects(Rectangle): the closed intervals overlap on both axes, so
      touching edges or corners count. */
  function Intersects(r: Rectangle, other: Rectangle): bool {
    r.Right >= other.Left && r.Left <= other.Right && r.Bottom >= other.Top && r.Top <= other.Bottom
  }

  /** Union(r1, r2): Left, Right and Bottom enclose both, but Top is taken as
      the smaller of the two Left values. */
  function Union(r1: Rectangle, r2: Rectangle): (u: Rectangle)
    ensures u.Left == Min(r1.Left, r2.Left) && u.Top == Min(r1.Left, r2.Left)
    ensures u.Right == Max(r1.Right, r2.Right) && u.Bottom == Max(r1.Bottom, r2.Bottom)
  {
    Rectangle(Min(r1.Left, r2.Left), Min(r1.Left, r2.Left), Max(r1.Right, r2.Right), Max(r1.Bottom, r2.Bottom))
  }

  /** operator +(Rectangle, Vector2): every edge shifted by the vector. */
  function AddVector(r: Rectangle, v: LibVector2.Vector2): Rectangle {
    Rectangle(r.Left + v.X, r.Top + v.Y, r.Right + v.X, r.Bottom + v.Y)
  }

  /** operator -(Rectangle, Vector2): every edge shifted against the vector. */
  function SubVector(r: Rectangle, v: LibVector2.Vector2): Rectangle {
    Rectangle(r.Left - v.X, r.Top - v.Y, r.Right - v.X, r.Bottom - v.Y)
  }

  /** operator *(Rectangle, scale): ArgumentException for a negative scale,
      otherwise the size scaled about the top-left corner, built exactly as
      Scale(scale, scale) builds it. */
  function Mul(r: Rectangle, scale: real): (m: Result<Rectangle>)
    ensures m.Err? <==> scale < 0.0
    ensures m.Err? ==> m.error == Argument
    ensures m.Ok? ==> TopLeft(m.value) == TopLeft(r)
    ensures m.Ok? ==> Width(m.value) == Width(r) * scale && Height(m.value) == Height(r) * scale
  {
    if scale < 0.0 then Err(Argument)
    else Ok(Scale(r, scale, scale))
  }

  /** operator /(Rectangle, scale): DivideByZeroException for zero, otherwise
      multiplication by the reciprocal (which rejects a negative scale). */
  function Div(r: Rectangle, scale: real): (d: Result<Rectangle>)
    ensures scale == 0.0 ==> d == Err(DivideByZero)
    ensures scale < 0.0 ==> d == Err(Argument)
    ensures 0.0 < scale ==> d.Ok? && Width(d.value) * scale == Width(r) && Height(d.value) * scale == Height(r)
    ensures 0.0 < scale ==> TopLeft(d.value) == TopLeft(r) && d == Mul(r, 1.0 / scale)
  {
    if scale == 0.0 then Err(DivideByZero) else Mul(r, 1.0 / scale)
  }

  /** Equals(Rectangle): all four edges equal. */
  function Equals(r: Rectangle, other: Rectangle): (b: bool)
    ensures b <==> r == other
  {
    r.Left == other.Left && r.Top == other.Top && r.Right == other.Right && r.Bottom == other.Bottom
  }

  /** A 2 by 3 rectangle has area 6 and perimeter 10. */
  lemma AreaPerimeterExample()
    ensures New(0.0, 0.0, 2.0, 3.0).Ok?
    ensures Area(New(0.0, 0.0, 2.0, 3.0).value) == 6.0
    ensures Perimeter(New(0.0, 0.0, 2.0, 3.0).value) == 10.0
  {
    assert New(0.0, 0.0, 2.0, 3.0) == Ok(Rectangle(0.0, 0.0, 2.0, 3.0));
  }

  /** Center is the midpoint exactly when the rectangle starts at the origin. */
  lemma CenterIsMidpointIff(r: Rectangle)
    ensures Center(r) == Midpoint(r) <==> r.Left == 0.0 && r.Top == 0.0
  {
  }

  /** Every corner of a well-formed rectangle lies inside it, and so does its midpoint. */
  lemma ContainsOwnCorners(r: Rectangle)
    requires WellFormed(r)
    ensures ContainsPoint(r, TopLeft(r)) && ContainsPoint(r, TopRight(r))
    ensures ContainsPoint(r, BottomLeft(r)) && ContainsPoint(r, BottomRight(r))
    ensures ContainsPoint(r, Midpoint(r))
  {
  }

  /** Containing a well-formed rectangle is the same as containing its four corners. */
  lemma ContainsRectIffCorners(r: Rectangle, value: Rectangle)
    requires WellFormed(value)
    ensures ContainsRect(r, value) <==>
      ContainsPoint(r, TopLeft(value)) && ContainsPoint(r, TopRight(value)) &&
      ContainsPoint(r, BottomLeft(value)) && ContainsPoint(r, BottomRight(value))
  {
  }

  /** Containment of rectangles is reflexive and transitive, and carries
      point containment along with it. */
  lemma ContainsRectPreorder(a: Rectangle, b: Rectangle, c: Rectangle, p: LibPoint2.Point2)
    ensures ContainsRect(a, a)
    ensures ContainsRect(a, b) && ContainsRect(b, c) ==> ContainsRect(a, c)
    ensures ContainsRect(a, b) && ContainsPoint(b, p) ==> ContainsPoint(a, p)
  {
  }

  /** Intersection is symmetric, a well-formed rectangle intersects itself and
      everything it contains, and rectangles that only share an edge intersect. */
  lemma IntersectsProperties(a: Rectangle, b: Rectangle)
    ensures Intersects(a, b) <==> Intersects(b, a)
    ensures WellFormed(a) ==> Intersects(a, a)
    ensures WellFormed(b) && ContainsRect(a, b) ==> Intersects(a, b)
    ensures Intersects(Rectangle(0.0, 0.0, 1.0, 1.0), Rectangle(1.0, 0.0, 2.0, 1.0))
  {
  }

  /** Intersection means a shared point: both contain some common point. */
  lemma IntersectsIffCommonPoint(a: Rectangle, b: Rectangle)
    requires WellFormed(a) && WellFormed(b)
    ensures Intersects(a, b) <==> exists p: LibPoint2.Point2 :: ContainsPoint(a, p) && ContainsPoint(b, p)
  {
    if Intersects(a, b) {
      var p := LibPoint2.Point2(Max(a.Left, b.Left), Max(a.Top, b.Top));
      assert ContainsPoint(a, p) && ContainsPoint(b, p);
    }
  }

  /** Union encloses both inputs horizontally and at the bottom, but its Top
      comes from the Left values: for two copies of the rectangle with edges
      (10, 0, 11, 1) the union has Top 10 and does not contain them. */
  lemma UnionQuirk(r1: Rectangle, r2: Rectangle)
    ensures Union(r1, r2).Left <= r1.Left && Union(r1, r2).Left <= r2.Left
    ensures r1.Right <= Union(r1, r2).Right && r2.Right <= Union(r1, r2).Right
    ensures r1.Bottom <= Union(r1, r2).Bottom && r2.Bottom <= Union(r1, r2).Bottom
    ensures Union(r1, r2).Top <= r1.Top && Union(r1, r2).Top <= r2.Top ==>
      ContainsRect(Union(r1, r2), r1) && ContainsRect(Union(r1, r2), r2)
    ensures var r := Rectangle(10.0, 0.0, 11.0, 1.0); !ContainsRect(Union(r, r), r)
  {
  }

  /** Translation keeps the size, and subtracting a vector undoes adding it. */
  lemma TranslationProperties(r: Rectangle, v: LibVector2.Vector2)
    ensures Width(AddVector(r, v)) == Width(r) && Height(AddVector(r, v)) == Height(r)
    ensures Width(SubVector(r, v)) == Width(r) && Height(SubVector(r, v)) == Height(r)
    ensures SubVector(AddVector(r, v), v) == r && AddVector(SubVector(r, v), v) == r
    ensures TopLeft(AddVector(r, v)) == LibPoint2.AddVector(TopLeft(r), v)
  {
  }

  /** Scaling by one changes nothing, and scaling a well-formed rectangle by
      non-negative factors keeps it well-formed and anchored. */
  lemma ScaleProperties(r: Rectangle, ws: real, hs: real)
    ensures Scale(r, 1.0, 1.0) == r
    ensures WellFormed(r) && 0.0 <= ws && 0.0 <= hs ==> WellFormed(Scale(r, ws, hs))
  {
    if WellFormed(r) && 0.0 <= ws && 0.0 <= hs {
      MulNonNegative(Width(r), ws);
      MulNonNegative(Height(r), hs);
    }
  }

  /** Area and Perimeter are never negative on well-formed edges, and scaling
      multiplies the area by the product of the two factors. */
  lemma MeasuresProperties(r: Rectangle, ws: real, hs: real)
    ensures WellFormed(r) ==> 0.0 <= Area(r) && 0.0 <= Perimeter(r)
    ensures Area(Scale(r, ws, hs)) == Area(r) * (ws * hs)
  {
    if WellFormed(r) {
      MulNonNegative(Width(r), Height(r));
    }
    var s := Scale(r, ws, hs);
    assert Width(s) == Width(r) * ws && Height(s) == Height(r) * hs;
    assert (Width(r) * ws) * (Height(r) * hs) == (Width(r) * Height(r)) * (ws * hs);
  }

  /** Dividing by a positive scale undoes multiplying by it. */
  lemma DivUndoesMul(r: Rectangle, scale: real)
    requires 0.0 < scale
    ensures Mul(r, scale).Ok?
    ensures Div(Mul(r, scale).value, scale) == Ok(r)
  {
    var m := Mul(r, scale).value;
    var inv := 1.0 / scale;
    assert Width(m) * inv == Width(r) by {
      assert Width(m) == Width(r) * scale;
      assert scale * inv == 1.0;
    }
    assert Height(m) * inv == Height(r) by {
      assert Height(m) == Height(r) * scale;
      assert scale * inv == 1.0;
    }
    assert Div(m, scale) == Mul(m, inv);
    assert Mul(m, inv).value == Rectangle(r.Left, r.Top, r.Left + Width(r), r.Top + Height(r));
  }
}
