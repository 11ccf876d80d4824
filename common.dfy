/** Vocabulary shared by both variants of the library: the kinds of exception
    the library throws, result wrappers, the single-precision epsilon that the
    rectangle validation compares against, and the contract of the square root
    that every distance and length is computed with. */
module Common {

  /** The exception classes thrown by the library, one constructor per class. */
  datatype Error =
    | ArgumentNull        // System.ArgumentNullException
    | Argument            // System.ArgumentException
    | ArgumentOutOfRange  // System.ArgumentOutOfRangeException
    | DivideByZero        // System.DivideByZeroException
    | InvalidOperation    // System.InvalidOperationException
    | IndexOutOfRange     // System.IndexOutOfRangeException

  /** A value, or the exception that was thrown instead of producing it. */
  datatype Result<+T> = Ok(value: T) | Err(error: Error)

  /** A reference that may be null (None). */
  datatype Option<+T> = None | Some(value: T)

  /** A void operation that completed (Pass) or threw (Fail). */
  datatype Outcome = Pass | Fail(error: Error)

  /** float.Epsilon, the smallest positive single-precision value: exactly 2^-149. */
  const FloatEpsilon: real := 1.0 / 713623846352979940529142984724747568191373312.0

  /** Math.Abs */
  function Abs(x: real): real {
    if x < 0.0 then -x else x
  }

  /** Math.Min */
  function Min(a: real, b: real): real {
    if a <= b then a else b
  }

  /** Math.Max */
  function Max(a: real, b: real): real {
    if a >= b then a else b
  }

  /** Math.Sqrt is a call into the runtime; the model receives it as a function
      value and relies only on this contract. */
  ghost predicate IsSqrt(sqrt: real -> real) {
    forall x :: 0.0 <= x ==> 0.0 <= sqrt(x) && sqrt(x) * sqrt(x) == x
  }

  /** Math.Sqrt(x), computed by the function value the model receives. */
  function Sqrt(sqrt: real -> real, x: real): real {
    sqrt(x)
  }

  /** The product of two positive numbers is positive. */
  lemma MulPositive(a: real, b: real)
    requires 0.0 < a && 0.0 < b
    ensures 0.0 < a * b
  {
  }

  /** The product of two non-negative numbers is non-negative. */
  lemma MulNonNegative(a: real, b: real)
    requires 0.0 <= a && 0.0 <= b
    ensures 0.0 <= a * b
  {
  }

  /** Both sides of an equation may be multiplied by the same factor. */
  lemma MulBoth(a: real, b: real, c: real)
    requires a == b
    ensures a * c == b * c
  {
  }

  /** A non-negative number whose square is x is the square root of x. */
  lemma SqrtUnique(sqrt: real -> real, x: real, r: real)
    requires IsSqrt(sqrt)
    requires 0.0 <= r && r * r == x
    ensures Sqrt(sqrt, x) == r
  {
    var s := sqrt(x);
    assert 0.0 <= s && s * s == x;
    if s < r {
      MulPositive(r - s, r + s);
    } else if r < s {
      MulPositive(s - r, s + r);
    }
  }

  /** The square root is zero at zero, positive on positive numbers and never
      negative. Stated for every argument at once, so that a caller can apply it
      to a sum of squares written out in full. */
  lemma SqrtSign(sqrt: real -> real)
    requires IsSqrt(sqrt)
    ensures Sqrt(sqrt, 0.0) == 0.0
    ensures forall x {:trigger Sqrt(sqrt, x)} :: 0.0 < x ==> 0.0 < Sqrt(sqrt, x)
    ensures forall x {:trigger Sqrt(sqrt, x)} :: 0.0 <= x ==> 0.0 <= Sqrt(sqrt, x)
  {
    SqrtUnique(sqrt, 0.0, 0.0);
    forall x | 0.0 < x
      ensures 0.0 < Sqrt(sqrt, x)
    {
      assert 0.0 <= sqrt(x) && sqrt(x) * sqrt(x) == x;
    }
  }

  /** The square of the square root gives the argument back. */
  lemma SqrtSquared(sqrt: real -> real, x: real)
    requires IsSqrt(sqrt) && 0.0 <= x
    ensures 0.0 <= Sqrt(sqrt, x)
    ensures Sqrt(sqrt, x) * Sqrt(sqrt, x) == x
  {
  }

  /** sqrt(dx*dx + dy*dy): the Euclidean length of the displacement (dx, dy). */
  function Hypot(sqrt: real -> real, dx: real, dy: real): real {
    Sqrt(sqrt, dx * dx + dy * dy)
  }

  /** sqrt(dx*dx + dy*dy + dz*dz): the Euclidean length of (dx, dy, dz). */
  function Hypot3(sqrt: real -> real, dx: real, dy: real, dz: real): real {
    Sqrt(sqrt, dx * dx + dy * dy + dz * dz)
  }

  /** A planar length is never negative and is zero exactly for (0, 0). */
  lemma HypotZeroIff(sqrt: real -> real, dx: real, dy: real)
    requires IsSqrt(sqrt)
    ensures 0.0 <= Hypot(sqrt, dx, dy)
    ensures Hypot(sqrt, dx, dy) == 0.0 <==> dx == 0.0 && dy == 0.0
  {
    SqrtSign(sqrt);
    if dx == 0.0 && dy == 0.0 {
      assert dx * dx + dy * dy == 0.0;
    }
  }

  /** A spatial length is never negative and is zero exactly for (0, 0, 0). */
  lemma Hypot3ZeroIff(sqrt: real -> real, dx: real, dy: real, dz: real)
    requires IsSqrt(sqrt)
    ensures 0.0 <= Hypot3(sqrt, dx, dy, dz)
    ensures Hypot3(sqrt, dx, dy, dz) == 0.0 <==> dx == 0.0 && dy == 0.0 && dz == 0.0
  {
    SqrtSign(sqrt);
    if dx == 0.0 && dy == 0.0 && dz == 0.0 {
      assert dx * dx + dy * dy + dz * dz == 0.0;
    }
  }

  /** Displacements with the same sum of squares have the same length. */
  lemma HypotEq(sqrt: real -> real, a: real, b: real, c: real, d: real)
    requires IsSqrt(sqrt)
    requires a * a + b * b == c * c + d * d
    ensures Hypot(sqrt, a, b) == Hypot(sqrt, c, d)
  {
    var s := Hypot(sqrt, c, d);
    SqrtSquared(sqrt, c * c + d * d);
    SqrtUnique(sqrt, a * a + b * b, s);
  }

  /** Spatial displacements with the same sum of squares have the same length. */
  lemma Hypot3Eq(sqrt: real -> real, a: real, b: real, c: real, d: real, e: real, f: real)
    requires IsSqrt(sqrt)
    requires a * a + b * b + c * c == d * d + e * e + f * f
    ensures Hypot3(sqrt, a, b, c) == Hypot3(sqrt, d, e, f)
  {
    var s := Hypot3(sqrt, d, e, f);
    SqrtSquared(sqrt, d * d + e * e + f * f);
    SqrtUnique(sqrt, a * a + b * b + c * c, s);
  }
}
