/** GeometryLib's two-dimensional displacement, Vector2. The operators build new
    values; the instance Normalize() overwrites the receiver's coordinates, so
    that one operation is modelled on a mutable cell, Vector2Ref. */
module LibVector2 {
  import opened Common

  datatype Vector2 = Vector2(X: real, Y: real)

  /** Vector2.Zero */
  const Zero: Vector2 := Vector2(0.0, 0.0)

  /** operator + */
  function Add(v1: Vector2, v2: Vector2): Vector2 {
    Vector2(v1.X + v2.X, v1.Y + v2.Y)
  }

  /** operator - */
  function Sub(v1: Vector2, v2: Vector2): Vector2 {
    Vector2(v1.X - v2.X, v1.Y - v2.Y)
  }

  /** operator * (vector times scalar) */
  function Mul(v: Vector2, scale: real): Vector2 {
    Vector2(v.X * scale, v.Y * scale)
  }

  /** operator /: throws DivideByZeroException for a zero divisor. */
  function Div(v: Vector2, scale: real): (r: Result<Vector2>)
    ensures r.Err? <==> scale == 0.0
    ensures r.Err? ==> r.error == DivideByZero
    ensures r.Ok? ==> Mul(r.value, scale) == v
  {
    if scale == 0.0 then Err(DivideByZero) else Ok(Vector2(v.X / scale, v.Y / scale))
  }

  /** Length() = sqrt(X*X + Y*Y) */
  function Length(v: Vector2, sqrt: real -> real): real {
    Hypot(sqrt, v.X, v.Y)
  }

  /** Static Normalize(v): throws DivideByZeroException when the length is
      zero, otherwise scales by the inverse of the length. */
  function Normalized(v: Vector2, sqrt: real -> real): Result<Vector2> {
    var length := Length(v, sqrt);
    if length == 0.0 then Err(DivideByZero) else Ok(Mul(v, 1.0 / length))
  }

  /** Equals(Vector2): false for null, otherwise component-wise. */
  function Equals(v: Vector2, other: Option<Vector2>): (r: bool)
    ensures r <==> other == Some(v)
  {
    match other
    case None => false
    case Some(w) => w.X == v.X && w.Y == v.Y
  }

  /** Subtraction undoes addition. */
  lemma SubUndoesAdd(v1: Vector2, v2: Vector2)
    ensures Sub(Add(v1, v2), v2) == v1
  {
  }

  /** Division by a nonzero scalar undoes multiplication by it. */
  lemma DivUndoesMul(v: Vector2, scale: real)
    requires scale != 0.0
    ensures Div(Mul(v, scale), scale) == Ok(v)
  {
    var m := Mul(v, scale);
    assert m.X / scale == v.X && m.Y / scale == v.Y;
  }

  /** The length is never negative and is zero exactly for the zero vector. */
  lemma LengthZeroIff(v: Vector2, sqrt: real -> real)
    requires IsSqrt(sqrt)
    ensures 0.0 <= Length(v, sqrt)
    ensures Length(v, sqrt) == 0.0 <==> v == Zero
  {
    HypotZeroIff(sqrt, v.X, v.Y);
  }

  /** The opposite vector has the same length. */
  lemma LengthOfNegation(v: Vector2, sqrt: real -> real)
    requires IsSqrt(sqrt)
    ensures Length(Vector2(-v.X, -v.Y), sqrt) == Length(v, sqrt)
  {
    HypotEq(sqrt, -v.X, -v.Y, v.X, v.Y);
  }

  /** Normalization throws exactly for the zero vector. */
  lemma NormalizedFailsIff(v: Vector2, sqrt: real -> real)
    requires IsSqrt(sqrt)
    ensures Normalized(v, sqrt).Err? <==> v == Zero
    ensures Normalized(v, sqrt).Err? ==> Normalized(v, sqrt).error == DivideByZero
  {
    LengthZeroIff(v, sqrt);
  }

  /** Scaling by the inverse of a positive l whose square is the sum of the
      squared components gives squared components that sum to one. */
  lemma InverseScaleIsUnit(v: Vector2, l: real)
    requires 0.0 < l && l * l == v.X * v.X + v.Y * v.Y
    ensures Mul(v, 1.0 / l).X * Mul(v, 1.0 / l).X + Mul(v, 1.0 / l).Y * Mul(v, 1.0 / l).Y == 1.0
  {
    var inv := 1.0 / l;
    assert l * inv == 1.0;
    calc {
      (v.X * inv) * (v.X * inv) + (v.Y * inv) * (v.Y * inv);
      (v.X * v.X + v.Y * v.Y) * (inv * inv);
      { MulBoth(l * l, v.X * v.X + v.Y * v.Y, inv * inv); }
      (l * l) * (inv * inv);
      (l * inv) * (l * inv);
      1.0;
    }
  }

  /** A normalized vector has unit length. */
  lemma NormalizedIsUnit(v: Vector2, sqrt: real -> real)
    requires IsSqrt(sqrt) && v != Zero
    ensures Normalized(v, sqrt).Ok?
    ensures Length(Normalized(v, sqrt).value, sqrt) == 1.0
  {
    LengthZeroIff(v, sqrt);
    SqrtSquared(sqrt, v.X * v.X + v.Y * v.Y);
    var l := Length(v, sqrt);
    InverseScaleIsUnit(v, l);
    var u := Mul(v, 1.0 / l);
    SqrtUnique(sqrt, u.X * u.X + u.Y * u.Y, 1.0);
  }

  /** Normalizing twice gives the same vector as normalizing once. */
  lemma NormalizedIdempotent(v: Vector2, sqrt: real -> real)
    requires IsSqrt(sqrt) && v != Zero
    ensures Normalized(v, sqrt).Ok?
    ensures Normalized(Normalized(v, sqrt).value, sqrt) == Normalized(v, sqrt)
  {
    NormalizedIsUnit(v, sqrt);
    var u := Normalized(v, sqrt).value;
    assert Mul(u, 1.0 / 1.0) == u;
  }

  /** A Vector2 object whose X and Y the instance Normalize() overwrites. */
  class Vector2Ref {
    var X: real
    var Y: real

    constructor (x: real, y: real)
      ensures Value() == Vector2(x, y)
    {
      X, Y := x, y;
    }

    /** The coordinates currently held. */
    function Value(): Vector2
      reads this
    {
      Vector2(X, Y)
    }

    /** Instance Normalize(): the same error rule as the static one, and on
        success the receiver holds exactly what the static one returns. */
    method Normalize(sqrt: real -> real) returns (o: Outcome)
      modifies this
      ensures o.Pass? <==> Normalized(old(Value()), sqrt).Ok?
      ensures o.Pass? ==> Value() == Normalized(old(Value()), sqrt).value
      ensures o.Fail? ==> o.error == DivideByZero && Value() == old(Value())
    {
      var length := Length(Value(), sqrt);
      if length == 0.0 {
        return Fail(DivideByZero);
      }
      var inverse := 1.0 / length;
      X := X * inverse;
      Y := Y * inverse;
      o := Pass;
    }
  }
}
