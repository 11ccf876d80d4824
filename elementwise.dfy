/** Element-wise arithmetic on sequences of coordinates: the specification
    that both variants' array-backed VectorN loops are proved against. */
module Elementwise {
  import opened Common

  /** n zeros. */
  function Zeros(n: nat): (r: seq<real>)
    ensures |r| == n && forall i :: 0 <= i < n ==> r[i] == 0.0
  {
    seq(n, _ => 0.0)
  }

  /** n copies of x. */
  function Filled(n: nat, x: real): (r: seq<real>)
    ensures |r| == n && forall i :: 0 <= i < n ==> r[i] == x
  {
    seq(n, _ => x)
  }

  /** The element-wise sum. */
  function Sum(s: seq<real>, t: seq<real>): seq<real>
    requires |s| == |t|
  {
    seq(|s|, i requires 0 <= i < |s| => s[i] + t[i])
  }

  /** The element-wise difference. */
  function Difference(s: seq<real>, t: seq<real>): seq<real>
    requires |s| == |t|
  {
    seq(|s|, i requires 0 <= i < |s| => s[i] - t[i])
  }

  /** Every element negated. */
  function Negated(s: seq<real>): seq<real> {
    seq(|s|, i requires 0 <= i < |s| => -s[i])
  }

  /** Every element multiplied by k. */
  function Scaled(s: seq<real>, k: real): seq<real> {
    seq(|s|, i requires 0 <= i < |s| => s[i] * k)
  }

  /** Every element divided by k. */
  function Divided(s: seq<real>, k: real): seq<real>
    requires k != 0.0
  {
    seq(|s|, i requires 0 <= i < |s| => s[i] / k)
  }

  /** The element-wise blend s * (1 - t) + u * t. */
  function Blend(s: seq<real>, u: seq<real>, t: real): seq<real>
    requires |s| == |u|
  {
    seq(|s|, i requires 0 <= i < |s| => s[i] * (1.0 - t) + u[i] * t)
  }

  /** The sum of the products of the first k element pairs. */
  function Dot(s: seq<real>, t: seq<real>, k: nat): real
    requires |s| == |t| && k <= |s|
  {
    if k == 0 then 0.0 else Dot(s, t, k - 1) + s[k - 1] * t[k - 1]
  }

  /** The sum of the squares of the first k elements. */
  function SumSquares(s: seq<real>, k: nat): real
    requires k <= |s|
  {
    if k == 0 then 0.0 else SumSquares(s, k - 1) + s[k - 1] * s[k - 1]
  }

  /** Every element of s differs from the element of t at the same index. */
  predicate AllDiffer(s: seq<real>, t: seq<real>)
    requires |s| == |t|
  {
    forall i :: 0 <= i < |s| ==> s[i] != t[i]
  }

  /** Subtraction undoes addition, and adding the negation is subtracting. */
  lemma SumDifference(s: seq<real>, t: seq<real>)
    requires |s| == |t|
    ensures Difference(Sum(s, t), t) == s
    ensures Sum(s, Negated(t)) == Difference(s, t)
    ensures Negated(Negated(s)) == s
  {
  }

  /** Dividing by k undoes scaling by k, and dividing is scaling by 1 / k. */
  lemma DividedUndoesScaled(s: seq<real>, k: real)
    requires k != 0.0
    ensures Divided(Scaled(s, k), k) == s
    ensures Scaled(s, 1.0 / k) == Divided(s, k)
  {
    var back := Divided(Scaled(s, k), k);
    forall i | 0 <= i < |s|
      ensures back[i] == s[i]
    {
      assert back[i] == s[i] * k / k;
    }
    assert back == s;
    var viaInverse := Scaled(s, 1.0 / k);
    forall i | 0 <= i < |s|
      ensures viaInverse[i] == Divided(s, k)[i]
    {
      assert s[i] * (1.0 / k) == s[i] / k;
    }
    assert viaInverse == Divided(s, k);
  }

  /** The blend starts at s for t = 0 and ends at u for t = 1. */
  lemma BlendEndpoints(s: seq<real>, u: seq<real>)
    requires |s| == |u|
    ensures Blend(s, u, 0.0) == s
    ensures Blend(s, u, 1.0) == u
  {
  }

  /** The dot product is symmetric. */
  lemma {:induction false} DotSymmetric(s: seq<real>, t: seq<real>, k: nat)
    requires |s| == |t| && k <= |s|
    ensures Dot(s, t, k) == Dot(t, s, k)
  {
    if k > 0 {
      DotSymmetric(s, t, k - 1);
    }
  }

  /** Adding the square x * y (x == y) of a nonzero number to a non-negative
      one gives a positive number. The square is written as a product of two
      parameters so that the solver treats it as a product, not a square. */
  lemma AddSquarePositive(a: real, x: real, y: real)
    requires 0.0 <= a && x == y && x != 0.0
    ensures 0.0 < a + x * y
  {
    if 0.0 < x {
      MulPositive(x, y);
    } else {
      MulPositive(-x, -y);
    }
  }

  /** A sum of squares is never negative, and is zero exactly when every
      element counted is zero. */
  lemma {:induction false} SumSquaresZeroIff(s: seq<real>, k: nat)
    requires k <= |s|
    ensures 0.0 <= SumSquares(s, k)
    ensures SumSquares(s, k) == 0.0 <==> forall i :: 0 <= i < k ==> s[i] == 0.0
  {
    if k > 0 {
      SumSquaresZeroIff(s, k - 1);
      var x := s[k - 1];
      if x != 0.0 {
        AddSquarePositive(SumSquares(s, k - 1), x, x);
      } else {
        assert SumSquares(s, k) == SumSquares(s, k - 1);
      }
    }
  }
}
