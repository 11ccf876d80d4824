/** GeometryLib's N-dimensional vector: a single-precision array that the
    constructors and operators allocate and fill element by element. Every
    operator returns a fresh vector over a fresh array and leaves its operands
    as they were; each is proved to produce the element-wise function of its
    operands that Elementwise defines. */
module LibVectorN {
  import opened Common
  import opened Elementwise

  class VectorN {
    var Axis: array<real>

    /** VectorN(length): an array of exactly length zeros. */
    constructor (length: nat)
      ensures fresh(Axis)
      ensures Axis[..] == Zeros(length)
    {
      Axis := new real[length];
      new;
      var i := 0;
      while i < length
        invariant 0 <= i <= length == Axis.Length
        invariant Axis[..i] == Zeros(i)
        modifies Axis
      {
        Axis[i] := 0.0;
        i := i + 1;
      }
      assert Axis[..] == Axis[..length];
    }

    /** The copy constructor: a fresh array with the same elements. */
    constructor Copy(v: VectorN)
      ensures fresh(Axis)
      ensures Axis[..] == v.Axis[..]
    {
      var n := v.Axis.Length;
      Axis := new real[n];
      new;
      var i := 0;
      while i < n
        invariant 0 <= i <= n == Axis.Length
        invariant Axis[..i] == v.Axis[..i]
        modifies Axis
      {
        Axis[i] := v.Axis[i];
        i := i + 1;
      }
      assert Axis[..] == Axis[..n];
      assert v.Axis[..] == v.Axis[..n];
    }

    /** operator +: InvalidOperationException for unequal lengths, otherwise
        the element-wise sum. */
    static method Add(v1: VectorN, v2: VectorN) returns (r: Result<VectorN>)
      ensures r.Err? <==> v1.Axis.Length != v2.Axis.Length
      ensures r.Err? ==> r.error == InvalidOperation
      ensures r.Ok? ==> fresh(r.value) && fresh(r.value.Axis)
      ensures r.Ok? ==> r.value.Axis[..] == Sum(v1.Axis[..], v2.Axis[..])
    {
      if v1.Axis.Length != v2.Axis.Length {
        return Err(InvalidOperation);
      }
      var output := new VectorN(v1.Axis.Length);
      var i := 0;
      while i < v1.Axis.Length
        invariant 0 <= i <= v1.Axis.Length == output.Axis.Length
        invariant fresh(output.Axis)
        invariant output.Axis[..i] == Sum(v1.Axis[..], v2.Axis[..])[..i]
      {
        output.Axis[i] := v1.Axis[i] + v2.Axis[i];
        i := i + 1;
      }
      assert output.Axis[..] == output.Axis[..i];
      return Ok(output);
    }

    /** operator -: InvalidOperationException for unequal lengths, otherwise
        the element-wise difference. */
    static method Sub(v1: VectorN, v2: VectorN) returns (r: Result<VectorN>)
      ensures r.Err? <==> v1.Axis.Length != v2.Axis.Length
      ensures r.Err? ==> r.error == InvalidOperation
      ensures r.Ok? ==> fresh(r.value) && fresh(r.value.Axis)
      ensures r.Ok? ==> r.value.Axis[..] == Difference(v1.Axis[..], v2.Axis[..])
    {
      if v1.Axis.Length != v2.Axis.Length {
        return Err(InvalidOperation);
      }
      var output := new VectorN(v1.Axis.Length);
      var i := 0;
      while i < v1.Axis.Length
        invariant 0 <= i <= v1.Axis.Length == output.Axis.Length
        invariant fresh(output.Axis)
        invariant output.Axis[..i] == Difference(v1.Axis[..], v2.Axis[..])[..i]
      {
        output.Axis[i] := v1.Axis[i] - v2.Axis[i];
        i := i + 1;
      }
      assert output.Axis[..] == output.Axis[..i];
      return Ok(output);
    }

    /** operator * (vector times scalar): element-wise, same length. */
    static method Mul(v: VectorN, scalar: real) returns (output: VectorN)
      ensures fresh(output) && fresh(output.Axis)
      ensures output.Axis[..] == Scaled(v.Axis[..], scalar)
    {
      output := new VectorN(v.Axis.Length);
      var i := 0;
      while i < v.Axis.Length
        invariant 0 <= i <= v.Axis.Length == output.Axis.Length
        invariant fresh(output.Axis)
        invariant forall j :: 0 <= j < i ==> output.Axis[j] == v.Axis[j] * scalar
      {
        output.Axis[i] := v.Axis[i] * scalar;
        i := i + 1;
      }
      forall j | 0 <= j < output.Axis.Length
        ensures output.Axis[j] == Scaled(v.Axis[..], scalar)[j]
      {
        var x := v.Axis[j];
        assert v.Axis[..][j] == x;
      }
      assert output.Axis[..] == Scaled(v.Axis[..], scalar);
    }

    /** operator / (vector by scalar): element-wise, same length. */
    static method Div(v: VectorN, scalar: real) returns (output: VectorN)
      requires scalar != 0.0
      ensures fresh(output) && fresh(output.Axis)
      ensures output.Axis[..] == Divided(v.Axis[..], scalar)
    {
      output := new VectorN(v.Axis.Length);
      var i := 0;
      while i < v.Axis.Length
        invariant 0 <= i <= v.Axis.Length == output.Axis.Length
        invariant fresh(output.Axis)
        invariant output.Axis[..i] == Divided(v.Axis[..], scalar)[..i]
      {
        output.Axis[i] := v.Axis[i] / scalar;
        i := i + 1;
      }
      assert output.Axis[..] == output.Axis[..i];
    }

    /** Equals(VectorN): false for unequal lengths, otherwise true exactly when
        no element differs. */
    method Equals(v: VectorN) returns (equal: bool)
      ensures equal <==> Axis[..] == v.Axis[..]
    {
      if Axis.Length != v.Axis.Length {
        return false;
      }
      var i := 0;
      while i < Axis.Length
        invariant 0 <= i <= Axis.Length
        invariant Axis[..i] == v.Axis[..i]
      {
        if Axis[i] != v.Axis[i] {
          assert Axis[..][i] != v.Axis[..][i];
          return false;
        }
        i := i + 1;
      }
      assert Axis[..] == Axis[..i] && v.Axis[..] == v.Axis[..i];
      return true;
    }
  }
}
