/** The side-length computation that both variants' Triangle.Area share:
    three conditional swaps that order the sides, then the product under the
    square root of Heron's formula in its numerically stable arrangement. */
module Heron {
  import opened Common

  /** (a + (b + c)) * (c - (a - b)) * (c + (a - b)) * (a + (b - c)): sixteen
      times the squared area of a triangle with sides a, b and c. */
  function Product(a: real, b: real, c: real): real {
    (a + (b + c)) * (c - (a - b)) * (c + (a - b)) * (a + (b - c))
  }

  /** Product in its symmetric form: the perimeter times the three excesses
      of one side pair over the remaining side. */
  lemma ProductSymmetricForm(a: real, b: real, c: real)
    ensures Product(a, b, c) == (a + b + c) * (b + c - a) * (a + c - b) * (a + b - c)
  {
  }

  /** Product does not depend on the order of a and b. */
  lemma ProductSwapAB(a: real, b: real, c: real)
    ensures Product(b, a, c) == Product(a, b, c)
  {
    ProductSymmetricForm(a, b, c);
    ProductSymmetricForm(b, a, c);
  }

  /** Product does not depend on the order of a and c. */
  lemma ProductSwapAC(a: real, b: real, c: real)
    ensures Product(c, b, a) == Product(a, b, c)
  {
    ProductSymmetricForm(a, b, c);
    ProductSymmetricForm(c, b, a);
  }

  /** Product does not depend on the order of b and c. */
  lemma ProductSwapBC(a: real, b: real, c: real)
    ensures Product(a, c, b) == Product(a, b, c)
  {
    ProductSymmetricForm(a, b, c);
    ProductSymmetricForm(a, c, b);
  }

  /** The three conditional swaps of Area: afterwards a >= b >= c, the three
      values are the inputs rearranged, and so Heron's product is unchanged. */
  method SortSides(a0: real, b0: real, c0: real) returns (a: real, b: real, c: real)
    ensures a >= b >= c
    ensures multiset{a, b, c} == multiset{a0, b0, c0}
    ensures Product(a, b, c) == Product(a0, b0, c0)
  {
    a, b, c := a0, b0, c0;
    var buffer: real;
    if b > a {
      ProductSwapAB(a, b, c);
      buffer := a;
      a := b;
      b := buffer;
    }
    if c > a {
      ProductSwapAC(a, b, c);
      buffer := a;
      a := c;
      c := buffer;
    }
    if c > b {
      ProductSwapBC(a, b, c);
      buffer := b;
      b := c;
      c := buffer;
    }
  }

  /** The product of four non-negative numbers is non-negative. */
  lemma ProductOfFourNonNegative(p: real, q: real, r: real, s: real)
    requires 0.0 <= p && 0.0 <= q && 0.0 <= r && 0.0 <= s
    ensures 0.0 <= p * q * r * s
  {
    assert 0.0 <= p * q;
    assert 0.0 <= p * q * r;
  }

  /** For non-negative sides that satisfy the triangle inequality the product
      under the root is non-negative, so the square root is defined. */
  lemma ProductNonNegative(a: real, b: real, c: real)
    requires 0.0 <= a && 0.0 <= b && 0.0 <= c
    requires a <= b + c && b <= a + c && c <= a + b
    ensures 0.0 <= Product(a, b, c)
  {
    ProductOfFourNonNegative(a + (b + c), c - (a - b), c + (a - b), a + (b - c));
  }

  /** Sides 5, 4 and 3 (a right triangle with legs 3 and 4) give the product
      576 = 16 * 6 * 6, that is area 6. */
  lemma RightTriangleExample(sqrt: real -> real)
    requires IsSqrt(sqrt)
    ensures Product(5.0, 4.0, 3.0) == 576.0
    ensures Sqrt(sqrt, Product(5.0, 4.0, 3.0)) * 0.25 == 6.0
  {
    assert Product(5.0, 4.0, 3.0) == 576.0;
    SqrtUnique(sqrt, 576.0, 24.0);
  }

  /** The z-component of the cross product of (ux, uy) and (vx, vy): twice the
      signed area of the triangle they span, zero exactly when the two
      displacements are parallel. */
  function Cross(ux: real, uy: real, vx: real, vy: real): real {
    ux * vy - uy * vx
  }

  /** The squared Euclidean distance between (x1, y1) and (x2, y2). */
  function SquaredDistance(x1: real, y1: real, x2: real, y2: real): real {
    (x1 - x2) * (x1 - x2) + (y1 - y2) * (y1 - y2)
  }

  /** A squared distance is never negative. */
  lemma SquaredDistanceNonNegative(x1: real, y1: real, x2: real, y2: real)
    ensures 0.0 <= SquaredDistance(x1, y1, x2, y2)
  {
  }

  /** Heron's product written over the squared sides aa, bb and cc. */
  function SquaredForm(aa: real, bb: real, cc: real): real {
    2.0 * (aa * bb + bb * cc + cc * aa) - (aa * aa + bb * bb + cc * cc)
  }

  /** Product depends on the sides only through their squares aa, bb, cc. */
  lemma ProductOfSquaredSides(a: real, b: real, c: real, aa: real, bb: real, cc: real)
    requires a * a == aa && b * b == bb && c * c == cc
    ensures Product(a, b, c) == SquaredForm(aa, bb, cc)
  {
  }

  /** Over the squared distances between three points, SquaredForm is four
      times the square of the cross product of two of the edges. */
  lemma SquaredSidesIdentity(x1: real, y1: real, x2: real, y2: real, x3: real, y3: real)
    ensures var k := Cross(x2 - x1, y2 - y1, x3 - x1, y3 - y1);
      SquaredForm(SquaredDistance(x1, y1, x2, y2), SquaredDistance(x2, y2, x3, y3), SquaredDistance(x3, y3, x1, y1))
        == 4.0 * (k * k)
  {
  }

  /** For the three measured sides of the triangle (x1, y1), (x2, y2),
      (x3, y3), Heron's product equals 4 * k * k, where k is the cross
      product of two edges: it is never negative, whatever the points. */
  lemma ProductOfTriangle(sqrt: real -> real, x1: real, y1: real, x2: real, y2: real, x3: real, y3: real)
    requires IsSqrt(sqrt)
    ensures var k := Cross(x2 - x1, y2 - y1, x3 - x1, y3 - y1);
      Product(Hypot(sqrt, x1 - x2, y1 - y2), Hypot(sqrt, x2 - x3, y2 - y3), Hypot(sqrt, x3 - x1, y3 - y1))
        == 4.0 * (k * k)
  {
    var aa, bb, cc := SquaredDistance(x1, y1, x2, y2), SquaredDistance(x2, y2, x3, y3), SquaredDistance(x3, y3, x1, y1);
    SquaredDistanceNonNegative(x1, y1, x2, y2);
    SquaredDistanceNonNegative(x2, y2, x3, y3);
    SquaredDistanceNonNegative(x3, y3, x1, y1);
    SqrtSquared(sqrt, aa);
    SqrtSquared(sqrt, bb);
    SqrtSquared(sqrt, cc);
    ProductOfSquaredSides(Sqrt(sqrt, aa), Sqrt(sqrt, bb), Sqrt(sqrt, cc), aa, bb, cc);
    SquaredSidesIdentity(x1, y1, x2, y2, x3, y3);
  }

  /** Four times a non-zero square is positive (the square is passed as the
      product of two equal factors). */
  lemma FourSquaresPositive(x: real, y: real, p: real)
    requires x == y && x != 0.0 && p == 4.0 * (x * y)
    ensures 0.0 < p
  {
    if x < 0.0 {
      MulPositive(-x, -y);
    } else {
      MulPositive(x, y);
    }
  }

  /** The area Heron's formula gives for three points is never negative, and
      it is positive exactly when the points are not collinear. */
  lemma AreaSign(sqrt: real -> real, x1: real, y1: real, x2: real, y2: real, x3: real, y3: real)
    requires IsSqrt(sqrt)
    ensures var area := Sqrt(sqrt, Product(Hypot(sqrt, x1 - x2, y1 - y2), Hypot(sqrt, x2 - x3, y2 - y3), Hypot(sqrt, x3 - x1, y3 - y1))) * 0.25;
      0.0 <= area && (0.0 < area <==> Cross(x2 - x1, y2 - y1, x3 - x1, y3 - y1) != 0.0)
  {
    var k := Cross(x2 - x1, y2 - y1, x3 - x1, y3 - y1);
    var p := Product(Hypot(sqrt, x1 - x2, y1 - y2), Hypot(sqrt, x2 - x3, y2 - y3), Hypot(sqrt, x3 - x1, y3 - y1));
    ProductOfTriangle(sqrt, x1, y1, x2, y2, x3, y3);
    assert p == 4.0 * (k * k);
    SqrtSign(sqrt);
    if k != 0.0 {
      FourSquaresPositive(k, k, p);
      assert 0.0 < Sqrt(sqrt, p);
    } else {
      assert p == 0.0;
    }
  }
}
