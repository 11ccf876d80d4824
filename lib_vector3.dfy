/** GeometryLib's three-dimensional displacement, Vector3. */
module LibVector3 {
  import opened Common
  import LibPoint3

  datatype Vector3 = Vector3(X: real, Y: real, Z: real)

  /** Vector3.Zero */
  const Zero: Vector3 := Vector3(0.0, 0.0, 0.0)

  /** The constructor Vector3(Point3): the position vector of the point. */
  function FromPoint3(p: LibPoint3.Point3): (r: Vector3)
    ensures r.X == p.X && r.Y == p.Y && r.Z == p.Z
  {
    Vector3(p.X, p.Y, p.Z)
  }

  /** The constructor Vector3(head, destination): destination - head. */
  function FromHeadDestination(head: LibPoint3.Point3, destination: LibPoint3.Point3): (r: Vector3)
    ensures LibPoint3.Add(head, LibPoint3.Point3(r.X, r.Y, r.Z)) == destination
  {
    Vector3(destination.X - head.X, destination.Y - head.Y, destination.Z - head.Z)
  }

  /** operator + */
  function Add(v1: Vector3, v2: Vector3): Vector3 {
    Vector3(v1.X + v2.X, v1.Y + v2.Y, v1.Z + v2.Z)
  }

  /** operator - */
  function Sub(v1: Vector3, v2: Vector3): Vector3 {
    Vector3(v1.X - v2.X, v1.Y - v2.Y, v1.Z - v2.Z)
  }

  /** operator * (vector times scalar) */
  function Mul(v: Vector3, s: real): Vector3 {
    Vector3(v.X * s, v.Y * s, v.Z * s)
  }

  /** operator /: the source divides without checking the divisor. */
  function Div(v: Vector3, s: real): (r: Vector3)
    requires s != 0.0
    ensures Mul(r, s) == v
  {
    Vector3(v.X / s, v.Y / s, v.Z / s)
  }

  /** Length() = sqrt(X*X + Y*Y + Z*Z) */
  function Length(v: Vector3, sqrt: real -> real): real {
    Hypot3(sqrt, v.X, v.Y, v.Z)
  }

  /** Static DistanceTo(v1, v2): the square root of the summed squared differences. */
  function DistanceTo(v1: Vector3, v2: Vector3, sqrt: real -> real): real {
    Hypot3(sqrt, v1.X - v2.X, v1.Y - v2.Y, v1.Z - v2.Z)
  }

  /** Normalize(v): throws DivideByZeroException for a zero length, otherwise
      scales by the inverse of the length. */
  function Normalized(v: Vector3, sqrt: real -> real): Result<Vector3> {
    var length := Length(v, sqrt);
    if length == 0.0 then Err(DivideByZero) else Ok(Mul(v, 1.0 / length))
  }

  /** Equals(Vector3): component-wise. */
  function Equals(v: Vector3, other: Vector3): (r: bool)
    ensures r <==> v == other
  {
    other.X == v.X && other.Y == v.Y && other.Z == v.Z
  }

  /** Subtraction undoes addition; division undoes multiplication. */
  lemma Inverses(v1: Vector3, v2: Vector3, s: real)
    requires s != 0.0
    ensures Sub(Add(v1, v2), v2) == v1
    ensures Div(Mul(v1, s), s) == v1
  {
    var m := Mul(v1, s);
    assert m.X / s == v1.X && m.Y / s == v1.Y && m.Z / s == v1.Z;
  }

  /** The distance between two vectors is the length of their difference. */
  lemma DistanceIsLengthOfDifference(v1: Vector3, v2: Vector3, sqrt: real -> real)
    ensures DistanceTo(v1, v2, sqrt) == Length(Sub(v1, v2), sqrt)
  {
  }

  /** The distance is symmetric, never negative and zero exactly between equal vectors. */
  lemma DistanceProperties(v1: Vector3, v2: Vector3, sqrt: real -> real)
    requires IsSqrt(sqrt)
    ensures DistanceTo(v1, v2, sqrt) == DistanceTo(v2, v1, sqrt)
    ensures 0.0 <= DistanceTo(v1, v2, sqrt)
    ensures DistanceTo(v1, v2, sqrt) == 0.0 <==> v1 == v2
  {
    Hypot3Eq(sqrt, v1.X - v2.X, v1.Y - v2.Y, v1.Z - v2.Z, v2.X - v1.X, v2.Y - v1.Y, v2.Z - v1.Z);
    Hypot3ZeroIff(sqrt, v1.X - v2.X, v1.Y - v2.Y, v1.Z - v2.Z);
  }

  /** The distance from (0, 0, 0) to (3, 4, 0) is 5. */
  lemma DistanceExample(sqrt: real -> real)
    requires IsSqrt(sqrt)
    ensures DistanceTo(Vector3(0.0, 0.0, 0.0), Vector3(3.0, 4.0, 0.0), sqrt) == 5.0
  {
    SqrtUnique(sqrt, (0.0 - 3.0) * (0.0 - 3.0) + (0.0 - 4.0) * (0.0 - 4.0) + (0.0 - 0.0) * (0.0 - 0.0), 5.0);
  }

  /** Normalization throws exactly for the zero vector. */
  lemma NormalizedFailsIff(v: Vector3, sqrt: real -> real)
    requires IsSqrt(sqrt)
    ensures Normalized(v, sqrt).Err? <==> v == Zero
    ensures Normalized(v, sqrt).Err? ==> Normalized(v, sqrt).error == DivideByZero
  {
    Hypot3ZeroIff(sqrt, v.X, v.Y, v.Z);
  }

  /** Scaling by the inverse of a positive l whose square is the sum of the
      squared components gives squared components that sum to one. */
  lemma InverseScaleIsUnit(v: Vector3, l: real)
    requires 0.0 < l && l * l == v.X * v.X + v.Y * v.Y + v.Z * v.Z
    ensures Mul(v, 1.0 / l).X * Mul(v, 1.0 / l).X + Mul(v, 1.0 / l).Y * Mul(v, 1.0 / l).Y
          + Mul(v, 1.0 / l).Z * Mul(v, 1.0 / l).Z == 1.0
  {
    var inv := 1.0 / l;
    assert l * inv == 1.0;
    calc {
      (v.X * inv) * (v.X * inv) + (v.Y * inv) * (v.Y * inv) + (v.Z * inv) * (v.Z * inv);
      (v.X * v.X + v.Y * v.Y + v.Z * v.Z) * (inv * inv);
      { MulBoth(l * l, v.X * v.X + v.Y * v.Y + v.Z * v.Z, inv * inv); }
      (l * l) * (inv * inv);
      (l * inv) * (l * inv);
      1.0;
    }
  }

  /** A normalized vector has unit length. */
  lemma NormalizedIsUnit(v: Vector3, sqrt: real -> real)
    requires IsSqrt(sqrt) && v != Zero
    ensures Normalized(v, sqrt).Ok?
    ensures Length(Normalized(v, sqrt).value, sqrt) == 1.0
  {
    Hypot3ZeroIff(sqrt, v.X, v.Y, v.Z);
    SqrtSquared(sqrt, v.X * v.X + v.Y * v.Y + v.Z * v.Z);
    var l := Length(v, sqrt);
    InverseScaleIsUnit(v, l);
    var u := Mul(v, 1.0 / l);
    assert Normalized(v, sqrt).value == u;
    SqrtUnique(sqrt, u.X * u.X + u.Y * u.Y + u.Z * u.Z, 1.0);
    assert Hypot3(sqrt, u.X, u.Y, u.Z) == 1.0;
  }
}
