/** GeometryLib's triangle. Its vertices are Point2 objects; the constructor
    rejects a repeated vertex by comparing references, because GeometryLib's
    Point2 defines no equality operator. */
module LibTriangle {
  import opened Common
  import LibPoint2
  import Heron

  /** Triangle.Type */
  datatype Type = Equilateral | Isosceles | Scalene

  datatype Triangle = Triangle(A: LibPoint2.Point2Ref, B: LibPoint2.Point2Ref, C: LibPoint2.Point2Ref)

  /** Triangle(p1, p2, p3): ArgumentNullException for the first null argument,
      then ArgumentException when two arguments are the same object. Two
      distinct objects at the same location are accepted. */
  function New(p1: Option<LibPoint2.Point2Ref>, p2: Option<LibPoint2.Point2Ref>, p3: Option<LibPoint2.Point2Ref>)
    : (r: Result<Triangle>)
    ensures p1.None? || p2.None? || p3.None? ==> r == Err(ArgumentNull)
    ensures p1.Some? && p2.Some? && p3.Some? ==>
      (r.Err? <==> p1.value == p2.value || p2.value == p3.value || p3.value == p1.value)
    ensures r.Err? ==> r.error in {ArgumentNull, Argument}
    ensures r.Ok? ==> r.value == Triangle(p1.value, p2.value, p3.value)
  {
    if p1.None? || p2.None? || p3.None? then Err(ArgumentNull)
    else if p1.value == p2.value || p2.value == p3.value || p3.value == p1.value then Err(Argument)
    else Ok(Triangle(p1.value, p2.value, p3.value))
  }

  /** The three side lengths |AB|, |BC| and |CA| of the triangle on the given vertices. */
  function SideA(a: LibPoint2.Point2, b: LibPoint2.Point2, c: LibPoint2.Point2, sqrt: real -> real): real {
    LibPoint2.Distance(a, b, sqrt)
  }
  function SideB(a: LibPoint2.Point2, b: LibPoint2.Point2, c: LibPoint2.Point2, sqrt: real -> real): real {
    LibPoint2.Distance(b, c, sqrt)
  }
  function SideC(a: LibPoint2.Point2, b: LibPoint2.Point2, c: LibPoint2.Point2, sqrt: real -> real): real {
    LibPoint2.Distance(c, a, sqrt)
  }

  /** Perimeter: |AB| + |BC| + |CA|, on the vertices' current coordinates. */
  function Perimeter(t: Triangle, sqrt: real -> real): real
    reads t.A, t.B, t.C
  {
    var a, b, c := t.A.Value(), t.B.Value(), t.C.Value();
    SideA(a, b, c, sqrt) + SideB(a, b, c, sqrt) + SideC(a, b, c, sqrt)
  }

  /** The side-equality classification of TriangleType. */
  function Classify(a: real, b: real, c: real): (r: Type)
    ensures r == Equilateral <==> a == b && b == c
    ensures r == Isosceles <==> (a == b || b == c || c == a) && !(a == b && b == c)
    ensures r == Scalene <==> a != b && b != c && c != a
  {
    if a == b && b == c then Equilateral
    else if a == b || b == c || c == a then Isosceles
    else Scalene
  }

  /** TriangleType: the classification of |AB|, |BC| and |CA|. */
  function TriangleType(t: Triangle, sqrt: real -> real): Type
    reads t.A, t.B, t.C
  {
    var a, b, c := t.A.Value(), t.B.Value(), t.C.Value();
    Classify(SideA(a, b, c, sqrt), SideB(a, b, c, sqrt), SideC(a, b, c, sqrt))
  }

  /** Area: the sides are measured, ordered by the three swaps, and Heron's
      product is taken to the power 0.5 and scaled by 0.25. The result
      depends only on the side lengths, not on the order they come in. */
  method Area(t: Triangle, sqrt: real -> real) returns (area: real)
    ensures var a, b, c := t.A.Value(), t.B.Value(), t.C.Value();
      area == Sqrt(sqrt, Heron.Product(SideA(a, b, c, sqrt), SideB(a, b, c, sqrt), SideC(a, b, c, sqrt))) * 0.25
  {
    var pa, pb, pc := t.A.Value(), t.B.Value(), t.C.Value();
    var a, b, c := Heron.SortSides(SideA(pa, pb, pc, sqrt), SideB(pa, pb, pc, sqrt), SideC(pa, pb, pc, sqrt));
    var buffer := (a + (b + c)) * (c - (a - b)) * (c + (a - b)) * (a + (b - c));
    area := Sqrt(sqrt, buffer) * 0.25;
  }

  /** The value Area returns for vertices at a, b and c is never negative,
      and it is positive exactly when the three locations are not collinear. */
  lemma AreaSign(a: LibPoint2.Point2, b: LibPoint2.Point2, c: LibPoint2.Point2, sqrt: real -> real)
    requires IsSqrt(sqrt)
    ensures var area := Sqrt(sqrt, Heron.Product(SideA(a, b, c, sqrt), SideB(a, b, c, sqrt), SideC(a, b, c, sqrt))) * 0.25;
      0.0 <= area && (0.0 < area <==> Heron.Cross(b.X - a.X, b.Y - a.Y, c.X - a.X, c.Y - a.Y) != 0.0)
  {
    Heron.AreaSign(sqrt, a.X, a.Y, b.X, b.Y, c.X, c.Y);
  }

  /** Equals(Triangle): the vertices compared by coordinates, position by position. */
  function Equals(t: Triangle, other: Triangle): (r: bool)
    reads t.A, t.B, t.C, other.A, other.B, other.C
    ensures r <==> t.A.Value() == other.A.Value() && t.B.Value() == other.B.Value() && t.C.Value() == other.C.Value()
  {
    LibPoint2.Equals(t.A.Value(), Some(other.A.Value())) &&
    LibPoint2.Equals(t.B.Value(), Some(other.B.Value())) &&
    LibPoint2.Equals(t.C.Value(), Some(other.C.Value()))
  }

  /** The perimeter is never negative, and does not change when the vertices
      are rotated or listed in reverse. */
  lemma PerimeterProperties(a: LibPoint2.Point2, b: LibPoint2.Point2, c: LibPoint2.Point2, sqrt: real -> real)
    requires IsSqrt(sqrt)
    ensures 0.0 <= SideA(a, b, c, sqrt) + SideB(a, b, c, sqrt) + SideC(a, b, c, sqrt)
    ensures SideA(b, c, a, sqrt) + SideB(b, c, a, sqrt) + SideC(b, c, a, sqrt)
         == SideA(a, b, c, sqrt) + SideB(a, b, c, sqrt) + SideC(a, b, c, sqrt)
    ensures SideA(c, b, a, sqrt) + SideB(c, b, a, sqrt) + SideC(c, b, a, sqrt)
         == SideA(a, b, c, sqrt) + SideB(a, b, c, sqrt) + SideC(a, b, c, sqrt)
  {
    LibPoint2.DistanceZeroIff(a, b, sqrt);
    LibPoint2.DistanceZeroIff(b, c, sqrt);
    LibPoint2.DistanceZeroIff(c, a, sqrt);
    LibPoint2.DistanceSymmetric(a, b, sqrt);
    LibPoint2.DistanceSymmetric(b, c, sqrt);
    LibPoint2.DistanceSymmetric(c, a, sqrt);
  }

  /** The classification does not depend on the order of the sides. */
  lemma ClassifySymmetric(a: real, b: real, c: real)
    ensures Classify(b, a, c) == Classify(a, b, c)
    ensures Classify(a, c, b) == Classify(a, b, c)
    ensures Classify(c, a, b) == Classify(a, b, c)
  {
  }

  /** Because the constructor compares references, three vertices at the same
      location are accepted when they are three different objects; only a
      repeated object is rejected. */
  method RepeatedLocationAccepted() returns (r: Result<Triangle>)
    ensures r.Ok?
    ensures r.value.A.Value() == r.value.B.Value() && r.value.B.Value() == r.value.C.Value()
  {
    var p1 := new LibPoint2.Point2Ref(1.0, 1.0);
    var p2 := new LibPoint2.Point2Ref(1.0, 1.0);
    var p3 := new LibPoint2.Point2Ref(1.0, 1.0);
    r := New(Some(p1), Some(p2), Some(p3));
  }
}
