/** Geometry's N-dimensional vector: a double-precision array that the indexer
    setter, Scale, Normalize, Reset and Copy update in place, and that every
    operator fills element by element in a fresh output vector. The
    dimension-checked constructor throws for fewer than one dimension, so every
    operator that allocates its result through it throws for an empty operand
    as well. */
module GeoVectorN {
  import opened Common
  import opened Elementwise

  class VectorN {
    var Axis: array<real>

    /** VectorN(dimensions, default_value) once the dimension check has passed:
        every axis holds the default value. */
    constructor (dimensions: nat, defaultValue: real)
      requires 1 <= dimensions
      ensures fresh(Axis)
      ensures Axis[..] == Filled(dimensions, defaultValue)
    {
      Axis := new real[dimensions];
      new;
      var i := 0;
      while i < dimensions
        invariant 0 <= i <= dimensions == Axis.Length
        invariant Axis[..i] == Filled(i, defaultValue)
        modifies Axis
      {
        Axis[i] := defaultValue;
        i := i + 1;
      }
      assert Axis[..] == Axis[..dimensions];
    }

    /** The copy constructor VectorN(other), which calls Copy(other). */
    constructor FromVector(other: VectorN)
      ensures fresh(Axis)
      ensures Axis[..] == other.Axis[..]
    {
      Axis := new real[0];
      new;
      Copy(other);
    }

    /** VectorN(dimensions, default_value), and VectorN(dimensions) with a
        default of zero: InvalidOperationException below one dimension,
        otherwise a vector holding the default value on every axis. */
    static method Create(dimensions: int, defaultValue: real) returns (r: Result<VectorN>)
      ensures r.Err? <==> dimensions < 1
      ensures r.Err? ==> r.error == InvalidOperation
      ensures r.Ok? ==> fresh(r.value) && fresh(r.value.Axis)
      ensures r.Ok? ==> r.value.Axis[..] == Filled(dimensions, defaultValue)
    {
      if dimensions < 1 {
        return Err(InvalidOperation);
      }
      var v := new VectorN(dimensions, defaultValue);
      return Ok(v);
    }

    /** The indexer getter: IndexOutOfRangeException outside [0, n). */
    function Get(i: int): (r: Result<real>)
      reads this, Axis
      ensures r.Err? <==> i < 0 || Axis.Length <= i
      ensures r.Err? ==> r.error == IndexOutOfRange
      ensures r.Ok? ==> r.value == Axis[..][i]
    {
      if i < 0 || i >= Axis.Length then Err(IndexOutOfRange) else Ok(Axis[i])
    }

    /** The indexer setter: IndexOutOfRangeException outside [0, n);
        otherwise element i, and no other, becomes the value. */
    method Set(i: int, value: real) returns (o: Outcome)
      modifies Axis
      ensures o.Fail? <==> i < 0 || Axis.Length <= i
      ensures o.Fail? ==> o.error == IndexOutOfRange && Axis[..] == old(Axis[..])
      ensures o.Pass? ==> Axis[..] == old(Axis[..])[i := value]
    {
      if i < 0 || i >= Axis.Length {
        return Fail(IndexOutOfRange);
      }
      Axis[i] := value;
      return Pass;
    }

    /** operator ==: InvalidOperationException for differing dimensions,
        otherwise false at the first differing element. */
    static method Eq(v1: VectorN, v2: VectorN) returns (r: Result<bool>)
      ensures r.Err? <==> v1.Axis.Length != v2.Axis.Length
      ensures r.Err? ==> r.error == InvalidOperation
      ensures r.Ok? ==> (r.value <==> v1.Axis[..] == v2.Axis[..])
    {
      if v1.Axis.Length != v2.Axis.Length {
        return Err(InvalidOperation);
      }
      var i := 0;
      while i < v1.Axis.Length
        invariant 0 <= i <= v1.Axis.Length
        invariant v1.Axis[..i] == v2.Axis[..i]
      {
        if v1.Axis[i] != v2.Axis[i] {
          assert v1.Axis[..][i] != v2.Axis[..][i];
          return Ok(false);
        }
        i := i + 1;
      }
      assert v1.Axis[..] == v1.Axis[..i] && v2.Axis[..] == v2.Axis[..i];
      return Ok(true);
    }

    /** operator !=: InvalidOperationException for differing dimensions,
        otherwise false as soon as one element is equal, so true only when
        every element differs. */
    static method NotEq(v1: VectorN, v2: VectorN) returns (r: Result<bool>)
      ensures r.Err? <==> v1.Axis.Length != v2.Axis.Length
      ensures r.Err? ==> r.error == InvalidOperation
      ensures r.Ok? ==> (r.value <==> AllDiffer(v1.Axis[..], v2.Axis[..]))
    {
      if v1.Axis.Length != v2.Axis.Length {
        return Err(InvalidOperation);
      }
      var i := 0;
      while i < v1.Axis.Length
        invariant 0 <= i <= v1.Axis.Length
        invariant forall j :: 0 <= j < i ==> v1.Axis[j] != v2.Axis[j]
      {
        if v1.Axis[i] == v2.Axis[i] {
          assert v1.Axis[..][i] == v2.Axis[..][i];
          return Ok(false);
        }
        i := i + 1;
      }
      return Ok(true);
    }

    /** Unary operator -: the element-wise negation, allocated through the
        dimension-checked constructor, which throws for an empty vector. */
    static method Negate(v1: VectorN) returns (r: Result<VectorN>)
      ensures r.Err? <==> v1.Axis.Length == 0
      ensures r.Err? ==> r.error == InvalidOperation
      ensures r.Ok? ==> fresh(r.value) && fresh(r.value.Axis)
      ensures r.Ok? ==> r.value.Axis[..] == Negated(v1.Axis[..])
    {
      if v1.Axis.Length < 1 {
        return Err(InvalidOperation);
      }
      var output := new VectorN(v1.Axis.Length, 0.0);
      var i := 0;
      while i < v1.Axis.Length
        invariant 0 <= i <= v1.Axis.Length == output.Axis.Length
        invariant fresh(output.Axis)
        invariant output.Axis[..i] == Negated(v1.Axis[..])[..i]
      {
        output.Axis[i] := -v1.Axis[i];
        i := i + 1;
      }
      assert output.Axis[..] == output.Axis[..i];
      return Ok(output);
    }

    /** Binary operator +: InvalidOperationException for differing dimensions
        (and, through the constructor, for empty operands), otherwise the
        element-wise sum. */
    static method Add(v1: VectorN, v2: VectorN) returns (r: Result<VectorN>)
      ensures r.Err? <==> v1.Axis.Length != v2.Axis.Length || v1.Axis.Length == 0
      ensures r.Err? ==> r.error == InvalidOperation
      ensures r.Ok? ==> fresh(r.value) && fresh(r.value.Axis)
      ensures r.Ok? ==> r.value.Axis[..] == Sum(v1.Axis[..], v2.Axis[..])
    {
      if v1.Axis.Length != v2.Axis.Length {
        return Err(InvalidOperation);
      }
      if v1.Axis.Length < 1 {
        return Err(InvalidOperation);
      }
      var output := new VectorN(v1.Axis.Length, 0.0);
      var i := 0;
      while i < output.Axis.Length
        invariant 0 <= i <= v1.Axis.Length == output.Axis.Length
        invariant fresh(output.Axis)
        invariant output.Axis[..i] == Sum(v1.Axis[..], v2.Axis[..])[..i]
      {
        output.Axis[i] := v1.Axis[i] + v2.Axis[i];
        i := i + 1;
      }
      assert output.Axis[..] == output.Axis[..i];
      return Ok(output);
    }

    /** Binary operator -: InvalidOperationException for differing dimensions
        (and, through the constructor, for empty operands), otherwise the
        element-wise difference. */
    static method Sub(v1: VectorN, v2: VectorN) returns (r: Result<VectorN>)
      ensures r.Err? <==> v1.Axis.Length != v2.Axis.Length || v1.Axis.Length == 0
      ensures r.Err? ==> r.error == InvalidOperation
      ensures r.Ok? ==> fresh(r.value) && fresh(r.value.Axis)
      ensures r.Ok? ==> r.value.Axis[..] == Difference(v1.Axis[..], v2.Axis[..])
    {
      if v1.Axis.Length != v2.Axis.Length {
        return Err(InvalidOperation);
      }
      if v1.Axis.Length < 1 {
        return Err(InvalidOperation);
      }
      var output := new VectorN(v1.Axis.Length, 0.0);
      var i := 0;
      while i < output.Axis.Length
        invariant 0 <= i <= v1.Axis.Length == output.Axis.Length
        invariant fresh(output.Axis)
        invariant output.Axis[..i] == Difference(v1.Axis[..], v2.Axis[..])[..i]
      {
        output.Axis[i] := v1.Axis[i] - v2.Axis[i];
        i := i + 1;
      }
      assert output.Axis[..] == output.Axis[..i];
      return Ok(output);
    }

    /** operator * (vector times scalar): a copy of v1, scaled in place. */
    static method Mul(v1: VectorN, scalar: real) returns (output: VectorN)
      ensures fresh(output) && fresh(output.Axis)
      ensures output.Axis[..] == Scaled(v1.Axis[..], scalar)
    {
      output := new VectorN.FromVector(v1);
      output.Scale(scalar);
    }

    /** operator / (vector by scalar): a copy of v1, scaled in place by the
        inverse of the scalar, which amounts to dividing every element. */
    static method Div(v1: VectorN, scalar: real) returns (output: VectorN)
      requires scalar != 0.0
      ensures fresh(output) && fresh(output.Axis)
      ensures output.Axis[..] == Divided(v1.Axis[..], scalar)
    {
      output := new VectorN.FromVector(v1);
      output.Scale(1.0 / scalar);
      DividedUndoesScaled(v1.Axis[..], scalar);
    }

    /** operator * of two vectors, the dot product: InvalidOperationException
        for differing dimensions, otherwise the sum of the products of the
        elements at equal indices. */
    static method DotProduct(v1: VectorN, v2: VectorN) returns (r: Result<real>)
      ensures r.Err? <==> v1.Axis.Length != v2.Axis.Length
      ensures r.Err? ==> r.error == InvalidOperation
      ensures r.Ok? ==> r.value == Dot(v1.Axis[..], v2.Axis[..], v1.Axis.Length)
    {
      if v1.Axis.Length != v2.Axis.Length {
        return Err(InvalidOperation);
      }
      var output := 0.0;
      var i := 0;
      while i < v1.Axis.Length
        invariant 0 <= i <= v1.Axis.Length
        invariant output == Dot(v1.Axis[..], v2.Axis[..], i)
      {
        var x, y := v1.Axis[i], v2.Axis[i];
        assert v1.Axis[..][i] == x && v2.Axis[..][i] == y;
        output := output + x * y;
        i := i + 1;
      }
      return Ok(output);
    }

    /** Interpolate(v1, v2, t): InvalidOperationException for differing
        dimensions, ArgumentOutOfRangeException for t outside [0, 1],
        InvalidOperationException from the constructor for empty operands,
        otherwise v1 * (1 - t) + v2 * t element by element. */
    static method Interpolate(v1: VectorN, v2: VectorN, t: real) returns (r: Result<VectorN>)
      ensures r.Err? <==> v1.Axis.Length != v2.Axis.Length || t < 0.0 || 1.0 < t || v1.Axis.Length == 0
      ensures r.Err? && v1.Axis.Length != v2.Axis.Length ==> r.error == InvalidOperation
      ensures r.Err? && v1.Axis.Length == v2.Axis.Length && (t < 0.0 || 1.0 < t) ==> r.error == ArgumentOutOfRange
      ensures r.Err? && v1.Axis.Length == v2.Axis.Length && 0.0 <= t <= 1.0 ==> r.error == InvalidOperation
      ensures r.Ok? ==> fresh(r.value) && fresh(r.value.Axis)
      ensures r.Ok? ==> r.value.Axis[..] == Blend(v1.Axis[..], v2.Axis[..], t)
    {
      if v1.Axis.Length != v2.Axis.Length {
        return Err(InvalidOperation);
      }
      if t > 1.0 || t < 0.0 {
        return Err(ArgumentOutOfRange);
      }
      if v1.Axis.Length < 1 {
        return Err(InvalidOperation);
      }
      var output := new VectorN(v1.Axis.Length, 0.0);
      var i := 0;
      while i < output.Axis.Length
        invariant 0 <= i <= v1.Axis.Length == output.Axis.Length
        invariant fresh(output.Axis)
        invariant forall j :: 0 <= j < i ==> output.Axis[j] == v1.Axis[j] * (1.0 - t) + v2.Axis[j] * t
      {
        output.Axis[i] := v1.Axis[i] * (1.0 - t) + v2.Axis[i] * t;
        i := i + 1;
      }
      forall j | 0 <= j < output.Axis.Length
        ensures output.Axis[j] == Blend(v1.Axis[..], v2.Axis[..], t)[j]
      {
        var x, y := v1.Axis[j], v2.Axis[j];
        assert v1.Axis[..][j] == x && v2.Axis[..][j] == y;
      }
      assert output.Axis[..] == Blend(v1.Axis[..], v2.Axis[..], t);
      return Ok(output);
    }

    /** Copy(other): allocates a zeroed array of other's length, then reads
        other's elements into it one by one. When other is this very vector,
        the reads see the new zeroed array, so the vector ends up all zeros. */
    method Copy(other: VectorN)
      modifies this
      ensures fresh(Axis)
      ensures other != this ==> Axis[..] == old(other.Axis[..])
      ensures other == this ==> Axis[..] == Zeros(old(Axis.Length))
    {
      Axis := new real[other.Axis.Length](_ => 0.0);
      var i := 0;
      while i < Axis.Length
        invariant 0 <= i <= Axis.Length
        invariant fresh(Axis)
        invariant Axis.Length == old(other.Axis.Length)
        invariant other != this ==> other.Axis == old(other.Axis)
        invariant other != this ==> Axis[..i] == old(other.Axis[..])[..i]
        invariant other == this ==> Axis[..] == Zeros(Axis.Length)
        modifies Axis
      {
        Axis[i] := other.Axis[i];
        i := i + 1;
      }
      assert Axis[..] == Axis[..i];
    }

    /** Scale(scalar): every element multiplied in place. */
    method Scale(scalar: real)
      modifies Axis
      ensures Axis[..] == Scaled(old(Axis[..]), scalar)
    {
      var i := 0;
      while i < Axis.Length
        invariant 0 <= i <= Axis.Length
        invariant forall j :: 0 <= j < i ==> Axis[j] == old(Axis[j]) * scalar
        invariant forall j :: i <= j < Axis.Length ==> Axis[j] == old(Axis[j])
      {
        Axis[i] := Axis[i] * scalar;
        i := i + 1;
      }
      forall j | 0 <= j < Axis.Length
        ensures Axis[j] == Scaled(old(Axis[..]), scalar)[j]
      {
        var x := old(Axis[j]);
        assert old(Axis[..])[j] == x;
      }
      assert Axis[..] == Scaled(old(Axis[..]), scalar);
    }

    /** GetLength(): the square root of the sum of the squared elements. */
    method GetLength(sqrt: real -> real) returns (length: real)
      ensures length == Sqrt(sqrt, SumSquares(Axis[..], Axis.Length))
    {
      var total := 0.0;
      var i := 0;
      while i < Axis.Length
        invariant 0 <= i <= Axis.Length
        invariant total == SumSquares(Axis[..], i)
      {
        var x := Axis[i];
        assert Axis[..][i] == x;
        total := total + x * x;
        i := i + 1;
      }
      length := Sqrt(sqrt, total);
    }

    /** Normalize(): divides every element by the length, unless the length
        is zero, in which case nothing changes. */
    method Normalize(sqrt: real -> real)
      modifies Axis
      ensures var length := Sqrt(sqrt, SumSquares(old(Axis[..]), Axis.Length));
        (length == 0.0 ==> Axis[..] == old(Axis[..])) &&
        (length != 0.0 ==> Axis[..] == Divided(old(Axis[..]), length))
    {
      var length := GetLength(sqrt);
      if length != 0.0 {
        var i := 0;
        while i < Axis.Length
          invariant 0 <= i <= Axis.Length
          invariant forall j :: 0 <= j < i ==> Axis[j] == old(Axis[j]) / length
          invariant forall j :: i <= j < Axis.Length ==> Axis[j] == old(Axis[j])
        {
          Axis[i] := Axis[i] / length;
          i := i + 1;
        }
        forall j | 0 <= j < Axis.Length
          ensures Axis[j] == Divided(old(Axis[..]), length)[j]
        {
          var x := old(Axis[j]);
          assert old(Axis[..])[j] == x;
        }
        assert Axis[..] == Divided(old(Axis[..]), length);
      }
    }

    /** Reset(): every element becomes zero. */
    method Reset()
      modifies Axis
      ensures Axis[..] == Zeros(Axis.Length)
    {
      var i := 0;
      while i < Axis.Length
        invariant 0 <= i <= Axis.Length
        invariant Axis[..i] == Zeros(i)
      {
        Axis[i] := 0.0;
        i := i + 1;
      }
      assert Axis[..] == Axis[..i];
    }

    /** Equals(VectorN): false for differing dimensions, otherwise true
        exactly when no element differs. */
    method Equals(other: VectorN) returns (equal: bool)
      ensures equal <==> Axis[..] == other.Axis[..]
    {
      if Axis.Length != other.Axis.Length {
        return false;
      }
      var i := 0;
      while i < Axis.Length
        invariant 0 <= i <= Axis.Length
        invariant Axis[..i] == other.Axis[..i]
      {
        if Axis[i] != other.Axis[i] {
          assert Axis[..][i] != other.Axis[..][i];
          return false;
        }
        i := i + 1;
      }
      assert Axis[..] == Axis[..i] && other.Axis[..] == other.Axis[..i];
      return true;
    }
  }

  /** The length that Normalize divides by is zero exactly for the zero
      vector, so Normalize changes every vector except the zero vector. */
  lemma NormalizeLengthZeroIff(s: seq<real>, sqrt: real -> real)
    requires IsSqrt(sqrt)
    ensures 0.0 <= Sqrt(sqrt, SumSquares(s, |s|))
    ensures Sqrt(sqrt, SumSquares(s, |s|)) == 0.0 <==> s == Zeros(|s|)
  {
    SumSquaresZeroIff(s, |s|);
    SqrtSign(sqrt);
    if s == Zeros(|s|) {
      assert SumSquares(s, |s|) == 0.0;
    }
  }

  /** != is not the negation of ==: two vectors that agree on one element and
      differ on another are neither equal nor unequal, and two empty vectors
      are both. */
  lemma NotEqIsNotNegationOfEq()
    ensures var s, t := [1.0, 2.0], [1.0, 3.0]; s != t && !AllDiffer(s, t)
    ensures var e: seq<real> := []; e == e && AllDiffer(e, e)
  {
    var s, t := [1.0, 2.0], [1.0, 3.0];
    assert s[1] != t[1];
    assert s[0] == t[0];
  }

  /** For non-empty vectors, != returning true does imply that == returns
      false. */
  lemma AllDifferImpliesUnequal(s: seq<real>, t: seq<real>)
    requires |s| == |t| && 0 < |s| && AllDiffer(s, t)
    ensures s != t
  {
    assert s[0] != t[0];
  }
}
