/** GeometryLib's polygon: a list of vertices, closed by the edge from the
    last vertex back to the first. Area, Perimeter, Contains, Equals and the
    operators walk the list with loops; each loop is a method proved against
    a recursive specification function. */
module LibPolygon {
  import opened Common
  import LibPoint2
  import LibVector2

  datatype Polygon = Polygon(Verticies: seq<LibPoint2.Point2>)

  /** Polygon.UnitPolygon, with the vertices the source lists. */
  const UnitPolygon: Polygon :=
    Polygon([LibPoint2.Point2(0.0, 0.0), LibPoint2.Point2(0.0, 1.0), LibPoint2.Point2(0.0, 1.0)])

  /** Polygon(): no vertices. */
  const Empty: Polygon := Polygon([])

  /** Polygon(verticies): ArgumentNullException for a null list. */
  function New(verticies: Option<seq<LibPoint2.Point2>>): (r: Result<Polygon>)
    ensures r.Err? <==> verticies.None?
    ensures r.Err? ==> r.error == ArgumentNull
    ensures r.Ok? ==> r.value.Verticies == verticies.value && Sides(r.value) == |verticies.value|
  {
    match verticies
    case None => Err(ArgumentNull)
    case Some(vs) => Ok(Polygon(vs))
  }

  /** Sides => Verticies.Count */
  function Sides(p: Polygon): nat {
    |p.Verticies|
  }

  /** The index after i, wrapping from the last vertex to the first. */
  function Next(n: nat, i: nat): (r: nat)
    requires i < n
    ensures r < n
  {
    if i + 1 < n then i + 1 else 0
  }

  /** Next is the source's (i + 1) % Count. */
  lemma NextIsModulo(n: nat, i: nat)
    requires i < n
    ensures Next(n, i) == (i + 1) % n
  {
    if i + 1 == n {
      assert (i + 1) % n == 0;
    } else {
      assert (i + 1) % n == i + 1;
    }
  }

  /** The index before i, wrapping from the first vertex to the last. */
  function Prev(n: nat, i: nat): nat
    requires i < n
  {
    if i == 0 then n - 1 else i - 1
  }

  /** The shoelace term of the edge from p1 to p2. */
  function Cross(p1: LibPoint2.Point2, p2: LibPoint2.Point2): real {
    p1.X * p2.Y - p1.Y * p2.X
  }

  /** The shoelace term of the edge leaving vertex i. */
  function CrossTerm(vs: seq<LibPoint2.Point2>, i: nat): real
    requires i < |vs|
  {
    Cross(vs[i], vs[Next(|vs|, i)])
  }

  /** The sum of the shoelace terms of the first k edges. */
  function CrossSum(vs: seq<LibPoint2.Point2>, k: nat): real
    requires k <= |vs|
  {
    if k == 0 then 0.0 else CrossSum(vs, k - 1) + CrossTerm(vs, k - 1)
  }

  /** The shoelace area: half the absolute value of the full cross sum. */
  function ShoelaceArea(p: Polygon): real {
    Abs(CrossSum(p.Verticies, |p.Verticies|) / 2.0)
  }

  /** Area: accumulates the shoelace terms over every edge, then takes half
      the absolute value. */
  method Area(p: Polygon) returns (area: real)
    ensures area == ShoelaceArea(p)
    ensures 0.0 <= area
  {
    var vs := p.Verticies;
    var sum := 0.0;
    var i := 0;
    while i < |vs|
      invariant 0 <= i <= |vs|
      invariant sum == CrossSum(vs, i)
    {
      var p1 := vs[i];
      var p2 := vs[(i + 1) % |vs|];
      NextIsModulo(|vs|, i);
      sum := sum + (p1.X * p2.Y - p1.Y * p2.X);
      i := i + 1;
    }
    area := Abs(sum / 2.0);
  }

  /** The sum of the lengths of the first k edges. */
  function EdgeSum(vs: seq<LibPoint2.Point2>, k: nat, sqrt: real -> real): real
    requires k <= |vs|
  {
    if k == 0 then 0.0
    else EdgeSum(vs, k - 1, sqrt) + LibPoint2.Distance(vs[k - 1], vs[Next(|vs|, k - 1)], sqrt)
  }

  /** Perimeter: accumulates the distance from each vertex to the next. */
  method Perimeter(p: Polygon, sqrt: real -> real) returns (perimeter: real)
    ensures perimeter == EdgeSum(p.Verticies, |p.Verticies|, sqrt)
  {
    var vs := p.Verticies;
    perimeter := 0.0;
    var i := 0;
    while i < |vs|
      invariant 0 <= i <= |vs|
      invariant perimeter == EdgeSum(vs, i, sqrt)
    {
      NextIsModulo(|vs|, i);
      perimeter := perimeter + LibPoint2.Distance(vs[i], vs[(i + 1) % |vs|], sqrt);
      i := i + 1;
    }
  }

  /** The x coordinate at height y of the line through (xi, yi) and (xj, yj). */
  function EdgeXAt(xi: real, yi: real, xj: real, yj: real, y: real): real
    requires yi != yj
  {
    (xj - xi) * (y - yi) / (yj - yi) + xi
  }

  /** The crossing test for the edge from vertex j to vertex i: the edge
      straddles the horizontal line through the point, and meets it to the
      right of the point. The division only happens when the edge straddles
      the line, so its two y coordinates differ. */
  predicate Crosses(vs: seq<LibPoint2.Point2>, i: nat, j: nat, point: LibPoint2.Point2)
    requires i < |vs| && j < |vs|
  {
    (vs[i].Y > point.Y) != (vs[j].Y > point.Y) &&
    point.X < EdgeXAt(vs[i].X, vs[i].Y, vs[j].X, vs[j].Y, point.Y)
  }

  /** The number of edges (Prev(i), i), for i below k, that the ray from the point crosses. */
  function Crossings(vs: seq<LibPoint2.Point2>, k: nat, point: LibPoint2.Point2): nat
    requires k <= |vs|
  {
    if k == 0 then 0
    else Crossings(vs, k - 1, point) + (if Crosses(vs, k - 1, Prev(|vs|, k - 1), point) then 1 else 0)
  }

  /** Even-odd rule: inside when the polygon has at least three vertices and
      the ray crosses an odd number of edges. */
  predicate Inside(p: Polygon, point: LibPoint2.Point2) {
    |p.Verticies| >= 3 && Crossings(p.Verticies, |p.Verticies|, point) % 2 == 1
  }

  /** Contains(Point2): false below three vertices; otherwise a flag toggled
      once per crossed edge, walking i forward with j one step behind. */
  method Contains(p: Polygon, point: LibPoint2.Point2) returns (isInside: bool)
    ensures isInside <==> Inside(p, point)
    ensures Sides(p) < 3 ==> !isInside
  {
    var vs := p.Verticies;
    if |vs| < 3 {
      return false;
    }
    isInside := false;
    var i := 0;
    var j := |vs| - 1;
    while i < |vs|
      invariant 0 <= i <= |vs|
      invariant i < |vs| ==> j == Prev(|vs|, i)
      invariant isInside <==> Crossings(vs, i, point) % 2 == 1
    {
      if (vs[i].Y > point.Y) != (vs[j].Y > point.Y) &&
         point.X < EdgeXAt(vs[i].X, vs[i].Y, vs[j].X, vs[j].Y, point.Y) {
        isInside := !isInside;
      }
      j := i;
      i := i + 1;
    }
  }

  /** Contains(x, y) */
  method ContainsXY(p: Polygon, x: real, y: real) returns (isInside: bool)
    ensures isInside <==> Inside(p, LibPoint2.Point2(x, y))
  {
    isInside := Contains(p, LibPoint2.Point2(x, y));
  }

  /** Every vertex shifted by the vector. */
  function Shifted(vs: seq<LibPoint2.Point2>, v: LibVector2.Vector2): (r: seq<LibPoint2.Point2>)
    ensures |r| == |vs|
    ensures forall i :: 0 <= i < |vs| ==> r[i] == LibPoint2.AddVector(vs[i], v)
  {
    if vs == [] then [] else Shifted(vs[..|vs| - 1], v) + [LibPoint2.AddVector(vs[|vs| - 1], v)]
  }

  /** operator +(Polygon, Vector2): a new polygon whose vertices are the
      input's, each plus the vector, in order. */
  method Plus(p: Polygon, v: LibVector2.Vector2) returns (output: Polygon)
    ensures output.Verticies == Shifted(p.Verticies, v)
  {
    var verticies: seq<LibPoint2.Point2> := [];
    for k := 0 to |p.Verticies|
      invariant verticies == Shifted(p.Verticies[..k], v)
    {
      assert p.Verticies[..k + 1][..k] == p.Verticies[..k];
      verticies := verticies + [LibPoint2.AddVector(p.Verticies[k], v)];
    }
    assert p.Verticies[..|p.Verticies|] == p.Verticies;
    output := Polygon(verticies);
  }

  /** operator -(Polygon, Vector2): builds its vertices with the same
      addition as operator +, so it shifts by +v, not -v. */
  method Minus(p: Polygon, v: LibVector2.Vector2) returns (output: Polygon)
    ensures output.Verticies == Shifted(p.Verticies, v)
  {
    var verticies: seq<LibPoint2.Point2> := [];
    for k := 0 to |p.Verticies|
      invariant verticies == Shifted(p.Verticies[..k], v)
    {
      assert p.Verticies[..k + 1][..k] == p.Verticies[..k];
      verticies := verticies + [LibPoint2.AddVector(p.Verticies[k], v)];
    }
    assert p.Verticies[..|p.Verticies|] == p.Verticies;
    output := Polygon(verticies);
  }

  /** Equals(Polygon): same vertex count and pairwise equal vertices, in order. */
  method Equals(p: Polygon, other: Polygon) returns (equal: bool)
    ensures equal <==> p.Verticies == other.Verticies
  {
    if |p.Verticies| != |other.Verticies| {
      return false;
    }
    for i := 0 to |p.Verticies|
      invariant p.Verticies[..i] == other.Verticies[..i]
    {
      if !LibPoint2.Equals(p.Verticies[i], Some(other.Verticies[i])) {
        assert p.Verticies[i] != other.Verticies[i];
        return false;
      }
      assert p.Verticies[..i + 1] == p.Verticies[..i] + [p.Verticies[i]];
      assert other.Verticies[..i + 1] == other.Verticies[..i] + [other.Verticies[i]];
    }
    assert p.Verticies == p.Verticies[..|p.Verticies|];
    assert other.Verticies == other.Verticies[..|other.Verticies|];
    return true;
  }

  /** The two shoelace terms of a there-and-back edge pair cancel. */
  lemma TermsCancel(x0: real, y0: real, x1: real, y1: real)
    ensures (x0 * y1 - y0 * x1) + (x1 * y0 - y1 * x0) == 0.0
  {
  }

  /** With fewer than three vertices the shoelace terms cancel, so the area is zero. */
  lemma {:induction false} FewVerticesNoArea(p: Polygon)
    requires Sides(p) < 3
    ensures ShoelaceArea(p) == 0.0
  {
    var vs := p.Verticies;
    if |vs| == 1 {
      assert CrossSum(vs, 1) == CrossTerm(vs, 0);
    } else if |vs| == 2 {
      var p0, p1 := vs[0], vs[1];
      assert CrossTerm(vs, 0) == p0.X * p1.Y - p0.Y * p1.X;
      assert CrossTerm(vs, 1) == p1.X * p0.Y - p1.Y * p0.X;
      TermsCancel(p0.X, p0.Y, p1.X, p1.Y);
      assert CrossSum(vs, 1) == CrossTerm(vs, 0);
      assert CrossSum(vs, 2) == 0.0;
    }
  }

  /** The unit square with corners (0,0), (1,0), (1,1) and (0,1). */
  const UnitSquare: Polygon := Polygon([LibPoint2.Point2(0.0, 0.0), LibPoint2.Point2(1.0, 0.0),
                                        LibPoint2.Point2(1.0, 1.0), LibPoint2.Point2(0.0, 1.0)])

  /** The unit square contains its middle point: exactly one edge, the right
      one, is crossed. */
  lemma UnitSquareContainsMiddle()
    ensures Inside(UnitSquare, LibPoint2.Point2(0.5, 0.5))
  {
    var vs := UnitSquare.Verticies;
    var mid := LibPoint2.Point2(0.5, 0.5);
    assert !Crosses(vs, 0, 3, mid) && !Crosses(vs, 1, 0, mid);
    assert Crosses(vs, 2, 1, mid) && !Crosses(vs, 3, 2, mid);
    assert Crossings(vs, 4, mid) == 1;
  }

  /** A point to the right of the unit square is outside: no edge is crossed. */
  lemma UnitSquareExcludesRight()
    ensures !Inside(UnitSquare, LibPoint2.Point2(2.0, 0.5))
  {
    var vs := UnitSquare.Verticies;
    var right := LibPoint2.Point2(2.0, 0.5);
    assert !Crosses(vs, 0, 3, right) && !Crosses(vs, 1, 0, right);
    assert !Crosses(vs, 2, 1, right) && !Crosses(vs, 3, 2, right);
    assert Crossings(vs, 4, right) == 0;
  }

  /** The shoelace term of an edge whose ends are known. */
  lemma CrossTermValue(vs: seq<LibPoint2.Point2>, i: nat, x1: real, y1: real, x2: real, y2: real)
    requires i < |vs| && vs[i] == LibPoint2.Point2(x1, y1) && vs[Next(|vs|, i)] == LibPoint2.Point2(x2, y2)
    ensures CrossTerm(vs, i) == x1 * y2 - y1 * x2
  {
  }

  /** The cross sum of a quadrilateral is the sum of its four terms. */
  lemma CrossSumOfFour(vs: seq<LibPoint2.Point2>)
    requires |vs| == 4
    ensures CrossSum(vs, 4) == CrossTerm(vs, 0) + CrossTerm(vs, 1) + CrossTerm(vs, 2) + CrossTerm(vs, 3)
  {
    assert CrossSum(vs, 1) == CrossTerm(vs, 0);
    assert CrossSum(vs, 2) == CrossTerm(vs, 0) + CrossTerm(vs, 1);
    assert CrossSum(vs, 3) == CrossTerm(vs, 0) + CrossTerm(vs, 1) + CrossTerm(vs, 2);
  }

  /** The axis-aligned square with top-left corner (x, y) and side s, listed
      the way UnitSquare lists its corners. */
  function Square(x: real, y: real, s: real): seq<LibPoint2.Point2> {
    [LibPoint2.Point2(x, y), LibPoint2.Point2(x + s, y), LibPoint2.Point2(x + s, y + s), LibPoint2.Point2(x, y + s)]
  }

  /** The shoelace terms of a square add up to twice its squared side. */
  lemma SquareCrossSum(x: real, y: real, s: real)
    ensures CrossSum(Square(x, y, s), 4) == 2.0 * (s * s)
  {
    var vs := Square(x, y, s);
    assert Next(4, 0) == 1 && Next(4, 1) == 2 && Next(4, 2) == 3 && Next(4, 3) == 0;
    CrossTermValue(vs, 0, x, y, x + s, y);
    CrossTermValue(vs, 1, x + s, y, x + s, y + s);
    CrossTermValue(vs, 2, x + s, y + s, x, y + s);
    CrossTermValue(vs, 3, x, y + s, x, y);
    CrossSumOfFour(vs);
  }

  /** Area measures a square of side s as s * s, wherever it lies. */
  lemma SquareArea(x: real, y: real, s: real)
    requires 0.0 <= s
    ensures ShoelaceArea(Polygon(Square(x, y, s))) == s * s
  {
    SquareCrossSum(x, y, s);
    MulNonNegative(s, s);
  }

  /** A coordinate difference of plus or minus s squares to s * s. */
  lemma SquareOfSide(d: real, s: real)
    requires d == s || d == -s
    ensures d * d == s * s
  {
    if d == -s {
      assert d * d == (-s) * (-s);
    }
  }

  /** A horizontal or vertical edge spanning s has length s. */
  lemma EdgeLength(p1: LibPoint2.Point2, p2: LibPoint2.Point2, s: real, sqrt: real -> real)
    requires IsSqrt(sqrt) && 0.0 <= s
    requires (Abs(p1.X - p2.X) == s && p1.Y == p2.Y) || (Abs(p1.Y - p2.Y) == s && p1.X == p2.X)
    ensures LibPoint2.Distance(p1, p2, sqrt) == s
  {
    var dx, dy := p1.X - p2.X, p1.Y - p2.Y;
    if p1.Y == p2.Y && Abs(dx) == s {
      SquareOfSide(dx, s);
      assert dx * dx + dy * dy == s * s;
    } else {
      SquareOfSide(dy, s);
      assert dx * dx + dy * dy == s * s;
    }
    HypotEq(sqrt, dx, dy, s, 0.0);
    SqrtUnique(sqrt, s * s + 0.0 * 0.0, s);
  }

  /** Perimeter measures a square of side s as 4 * s. */
  lemma SquarePerimeter(x: real, y: real, s: real, sqrt: real -> real)
    requires IsSqrt(sqrt) && 0.0 <= s
    ensures EdgeSum(Square(x, y, s), 4, sqrt) == 4.0 * s
  {
    var vs := Square(x, y, s);
    assert Next(4, 0) == 1 && Next(4, 1) == 2 && Next(4, 2) == 3 && Next(4, 3) == 0;
    EdgeLength(vs[0], vs[1], s, sqrt);
    EdgeLength(vs[1], vs[2], s, sqrt);
    EdgeLength(vs[2], vs[3], s, sqrt);
    EdgeLength(vs[3], vs[0], s, sqrt);
    assert EdgeSum(vs, 1, sqrt) == s;
    assert EdgeSum(vs, 2, sqrt) == 2.0 * s;
    assert EdgeSum(vs, 3, sqrt) == 3.0 * s;
  }

  /** The unit square has area 1 and perimeter 4. */
  lemma UnitSquareMeasures(sqrt: real -> real)
    requires IsSqrt(sqrt)
    ensures ShoelaceArea(UnitSquare) == 1.0
    ensures EdgeSum(UnitSquare.Verticies, 4, sqrt) == 4.0
  {
    assert UnitSquare == Polygon(Square(0.0, 0.0, 1.0));
    SquareArea(0.0, 0.0, 1.0);
    SquarePerimeter(0.0, 0.0, 1.0, sqrt);
  }

  /** How much the shoelace term of the edge from (x1, y1) to (x2, y2) grows
      when both ends move by (a, b). */
  function Drift(a: real, b: real, x1: real, y1: real, x2: real, y2: real): real {
    b * (x1 - x2) + a * (y2 - y1)
  }

  /** Shifting both ends of an edge by v adds the drift to its shoelace term. */
  lemma ShiftedCross(p1: LibPoint2.Point2, p2: LibPoint2.Point2, v: LibVector2.Vector2)
    ensures Cross(LibPoint2.AddVector(p1, v), LibPoint2.AddVector(p2, v))
         == Cross(p1, p2) + Drift(v.X, v.Y, p1.X, p1.Y, p2.X, p2.Y)
  {
  }

  /** Drifts of consecutive edges add up to the drift of the edge that skips
      the middle vertex. */
  lemma DriftTelescopes(a: real, b: real, x0: real, y0: real, x1: real, y1: real, x2: real, y2: real)
    ensures Drift(a, b, x0, y0, x1, y1) + Drift(a, b, x1, y1, x2, y2) == Drift(a, b, x0, y0, x2, y2)
  {
  }

  /** The drift of an edge from a vertex to itself is zero. */
  lemma DriftOfLoop(a: real, b: real, x: real, y: real)
    ensures Drift(a, b, x, y, x, y) == 0.0
  {
  }

  /** The shoelace term of edge i after the shift. */
  lemma ShiftedTerm(vs: seq<LibPoint2.Point2>, v: LibVector2.Vector2, i: nat)
    requires i < |vs|
    ensures var j := Next(|vs|, i);
      CrossTerm(Shifted(vs, v), i) == CrossTerm(vs, i) + Drift(v.X, v.Y, vs[i].X, vs[i].Y, vs[j].X, vs[j].Y)
  {
    var ws := Shifted(vs, v);
    var j := Next(|vs|, i);
    assert ws[i] == LibPoint2.AddVector(vs[i], v) && ws[j] == LibPoint2.AddVector(vs[j], v);
    ShiftedCross(vs[i], vs[j], v);
  }

  /** After k edges, the shifted cross sum is the original one plus the drift
      from the first vertex to the end of edge k - 1. */
  lemma {:induction false} ShiftedCrossSum(vs: seq<LibPoint2.Point2>, v: LibVector2.Vector2, k: nat)
    requires 0 < k <= |vs|
    ensures var e := Next(|vs|, k - 1);
      CrossSum(Shifted(vs, v), k) == CrossSum(vs, k) + Drift(v.X, v.Y, vs[0].X, vs[0].Y, vs[e].X, vs[e].Y)
  {
    var i := k - 1;
    ShiftedTerm(vs, v, i);
    if k > 1 {
      ShiftedCrossSum(vs, v, i);
      assert Next(|vs|, i - 1) == i;
      var e := Next(|vs|, i);
      DriftTelescopes(v.X, v.Y, vs[0].X, vs[0].Y, vs[i].X, vs[i].Y, vs[e].X, vs[e].Y);
    }
  }

  /** Translating a polygon does not change its area. */
  lemma ShiftPreservesArea(p: Polygon, v: LibVector2.Vector2)
    ensures ShoelaceArea(Polygon(Shifted(p.Verticies, v))) == ShoelaceArea(p)
  {
    var vs := p.Verticies;
    if |vs| > 0 {
      ShiftedCrossSum(vs, v, |vs|);
      assert Next(|vs|, |vs| - 1) == 0;
      DriftOfLoop(v.X, v.Y, vs[0].X, vs[0].Y);
    }
  }

  /** Translating a polygon does not change its vertex count, and the
      shifted vertices are distinct from the originals unless the vector is zero. */
  lemma ShiftKeepsSides(p: Polygon, v: LibVector2.Vector2)
    ensures Sides(Polygon(Shifted(p.Verticies, v))) == Sides(p)
    ensures Sides(p) > 0 ==> (Shifted(p.Verticies, v) == p.Verticies <==> v == LibVector2.Zero)
  {
    if Sides(p) > 0 && Shifted(p.Verticies, v) == p.Verticies {
      assert Shifted(p.Verticies, v)[0] == p.Verticies[0];
    }
  }

  /** A perimeter never is negative. */
  lemma {:induction false} EdgeSumNonNegative(vs: seq<LibPoint2.Point2>, k: nat, sqrt: real -> real)
    requires IsSqrt(sqrt) && k <= |vs|
    ensures 0.0 <= EdgeSum(vs, k, sqrt)
  {
    if k > 0 {
      EdgeSumNonNegative(vs, k - 1, sqrt);
      LibPoint2.DistanceZeroIff(vs[k - 1], vs[Next(|vs|, k - 1)], sqrt);
    }
  }
}
