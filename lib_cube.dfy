/** GeometryLib's axis-aligned box, Cube, given by two opposite corners
    (X1, Y1, Z1) and (X2, Y2, Z2) in any order. */
module LibCube {
  import opened Common
  import LibPoint3

  datatype Cube = Cube(X1: real, Y1: real, Z1: real, X2: real, Y2: real, Z2: real)

  /** Cube.UnitCube */
  const UnitCube: Cube := Cube(0.0, 0.0, 0.0, 1.0, 1.0, 1.0)

  /** Cube(p1, p2): the six-coordinate constructor applied to the two points. */
  function FromPoints(p1: LibPoint3.Point3, p2: LibPoint3.Point3): (c: Cube)
    ensures Low(c) == p1 && High(c) == p2
  {
    Cube(p1.X, p1.Y, p1.Z, p2.X, p2.Y, p2.Z)
  }

  /** The first corner, (X1, Y1, Z1). */
  function Low(c: Cube): LibPoint3.Point3 {
    LibPoint3.Point3(c.X1, c.Y1, c.Z1)
  }

  /** The second corner, (X2, Y2, Z2). */
  function High(c: Cube): LibPoint3.Point3 {
    LibPoint3.Point3(c.X2, c.Y2, c.Z2)
  }

  /** The same box with its two defining corners exchanged. */
  function Swapped(c: Cube): Cube {
    Cube(c.X2, c.Y2, c.Z2, c.X1, c.Y1, c.Z1)
  }

  /** The indexer this[i]: corners 0 to 3 on the Z1 face, 4 to 7 on the Z2
      face; IndexOutOfRangeException for any other index. */
  function Corner(c: Cube, i: int): (r: Result<LibPoint3.Point3>)
    ensures r.Err? <==> i < 0 || 7 < i
    ensures r.Err? ==> r.error == IndexOutOfRange
    ensures r.Ok? ==> r.value.X == (if (i / 2) % 2 == 0 then c.X1 else c.X2)
    ensures r.Ok? ==> r.value.Y == (if i % 2 == 0 then c.Y1 else c.Y2)
    ensures r.Ok? ==> r.value.Z == (if i < 4 then c.Z1 else c.Z2)
  {
    match i
    case 0 => Ok(LibPoint3.Point3(c.X1, c.Y1, c.Z1))
    case 1 => Ok(LibPoint3.Point3(c.X1, c.Y2, c.Z1))
    case 2 => Ok(LibPoint3.Point3(c.X2, c.Y1, c.Z1))
    case 3 => Ok(LibPoint3.Point3(c.X2, c.Y2, c.Z1))
    case 4 => Ok(LibPoint3.Point3(c.X1, c.Y1, c.Z2))
    case 5 => Ok(LibPoint3.Point3(c.X1, c.Y2, c.Z2))
    case 6 => Ok(LibPoint3.Point3(c.X2, c.Y1, c.Z2))
    case 7 => Ok(LibPoint3.Point3(c.X2, c.Y2, c.Z2))
    case _ => Err(IndexOutOfRange)
  }

  /** Volume => |X2 - X1| * |Y2 - Y1| * |Z2 - Z1| */
  function Volume(c: Cube): real {
    Abs(c.X2 - c.X1) * Abs(c.Y2 - c.Y1) * Abs(c.Z2 - c.Z1)
  }

  /** SurfaceArea: twice the sum of the three face areas of the absolute extents. */
  function SurfaceArea(c: Cube): real {
    var x := Abs(c.X2 - c.X1);
    var y := Abs(c.Y2 - c.Y1);
    var z := Abs(c.Z2 - c.Z1);
    x * y * 2.0 + y * z * 2.0 + z * x * 2.0
  }

  /** Contains(x, y, z): strictly between the two corners on every axis
      (which needs X1 < X2, Y1 < Y2 and Z1 < Z2). */
  function ContainsXYZ(c: Cube, x: real, y: real, z: real): bool {
    (c.X1 < x && c.X2 > x) && (c.Y1 < y && c.Y2 > y) && (c.Z1 < z && c.Z2 > z)
  }

  /** Contains(Point3) */
  function ContainsPoint(c: Cube, p: LibPoint3.Point3): bool {
    ContainsXYZ(c, p.X, p.Y, p.Z)
  }

  /** Contains(Cube): every path through the chain of corner checks returns false. */
  function ContainsCube(c: Cube, other: Cube): (r: bool)
    ensures !r
  {
    if !ContainsXYZ(other, c.X1, c.Y1, c.Z1) then false
    else if !ContainsXYZ(other, c.X1, c.Y1, c.Z2) then false
    else if !ContainsXYZ(other, c.X1, c.Y2, c.Z2) then false
    else if !ContainsXYZ(other, c.X2, c.Y2, c.Z2) then false
    else if !ContainsXYZ(other, c.X2, c.Y2, c.Z1) then false
    else if !ContainsXYZ(other, c.X2, c.Y1, c.Z1) then false
    else if !ContainsXYZ(other, c.X2, c.Y1, c.Z2) then false
    else if !ContainsXYZ(other, c.X1, c.Y2, c.Z1) then false
    else false
  }

  /** Intersects(Cube): true as soon as one of this cube's corners is not
      strictly inside the other. */
  function Intersects(c: Cube, other: Cube): bool {
    if !ContainsXYZ(other, c.X1, c.Y1, c.Z1) then true
    else if !ContainsXYZ(other, c.X1, c.Y1, c.Z2) then true
    else if !ContainsXYZ(other, c.X1, c.Y2, c.Z2) then true
    else if !ContainsXYZ(other, c.X2, c.Y2, c.Z2) then true
    else if !ContainsXYZ(other, c.X2, c.Y2, c.Z1) then true
    else if !ContainsXYZ(other, c.X2, c.Y1, c.Z1) then true
    else if !ContainsXYZ(other, c.X2, c.Y1, c.Z2) then true
    else if !ContainsXYZ(other, c.X1, c.Y2, c.Z1) then true
    else false
  }

  /** Equals(Cube): all six coordinates equal. */
  function Equals(c: Cube, other: Cube): (r: bool)
    ensures r <==> c == other
  {
    c.X1 == other.X1 && c.X2 == other.X2 && c.Y1 == other.Y1 &&
    c.Y2 == other.Y2 && c.Z1 == other.Z1 && c.Z2 == other.Z2
  }

  /** The indexer enumerates eight corners: the two defining ones among them. */
  lemma CornersIncludeDefiningPoints(c: Cube)
    ensures Corner(c, 0) == Ok(Low(c)) && Corner(c, 7) == Ok(High(c))
    ensures forall i :: 0 <= i < 8 ==> Corner(c, i).Ok?
  {
  }

  /** Volume and surface area are never negative and do not depend on which
      corner is given first. */
  lemma MeasuresProperties(c: Cube)
    ensures 0.0 <= Volume(c) && 0.0 <= SurfaceArea(c)
    ensures Volume(Swapped(c)) == Volume(c)
    ensures SurfaceArea(Swapped(c)) == SurfaceArea(c)
  {
    var x, y, z := Abs(c.X2 - c.X1), Abs(c.Y2 - c.Y1), Abs(c.Z2 - c.Z1);
    MulNonNegative(x, y);
    MulNonNegative(x * y, z);
    MulNonNegative(y, z);
    MulNonNegative(z, x);
    assert Abs(c.X1 - c.X2) == x && Abs(c.Y1 - c.Y2) == y && Abs(c.Z1 - c.Z2) == z;
  }

  /** The unit cube has volume 1 and surface area 6. */
  lemma UnitCubeMeasures()
    ensures Volume(UnitCube) == 1.0 && SurfaceArea(UnitCube) == 6.0
  {
    var c := UnitCube;
    assert Abs(c.X2 - c.X1) == 1.0 && Abs(c.Y2 - c.Y1) == 1.0 && Abs(c.Z2 - c.Z1) == 1.0;
  }

  /** Containment is strict: no corner of a cube lies inside that cube, and
      the cube's middle lies inside exactly when X1 < X2, Y1 < Y2 and Z1 < Z2. */
  lemma ContainsIsStrict(c: Cube, i: int)
    requires 0 <= i < 8
    ensures !ContainsPoint(c, Corner(c, i).value)
    ensures ContainsXYZ(c, (c.X1 + c.X2) / 2.0, (c.Y1 + c.Y2) / 2.0, (c.Z1 + c.Z2) / 2.0)
        <==> c.X1 < c.X2 && c.Y1 < c.Y2 && c.Z1 < c.Z2
  {
  }

  /** Intersects holds exactly when some corner of c lies outside other; in
      particular every cube intersects itself. */
  lemma IntersectsIffCornerOutside(c: Cube, other: Cube)
    ensures Intersects(c, other) <==> exists i :: 0 <= i < 8 && !ContainsPoint(other, Corner(c, i).value)
    ensures Intersects(c, c)
  {
    if Intersects(c, other) {
      // Once the first three listed corners are inside, Intersects can only
      // hold because (X2, Y2, Z2) is outside: the other four corners combine
      // coordinates already known to be inside.
      if !ContainsXYZ(other, c.X1, c.Y1, c.Z1) { assert !ContainsPoint(other, Corner(c, 0).value); }
      else if !ContainsXYZ(other, c.X1, c.Y1, c.Z2) { assert !ContainsPoint(other, Corner(c, 4).value); }
      else if !ContainsXYZ(other, c.X1, c.Y2, c.Z2) { assert !ContainsPoint(other, Corner(c, 5).value); }
      else { assert !ContainsPoint(other, Corner(c, 7).value); }
    }
    assert !ContainsPoint(c, Corner(c, 0).value);
  }

  /** A small cube strictly inside a bigger one does not intersect it,
      although the bigger one contains all of it. */
  lemma NestedCubeDoesNotIntersect()
    ensures !Intersects(Cube(1.0, 1.0, 1.0, 2.0, 2.0, 2.0), Cube(0.0, 0.0, 0.0, 3.0, 3.0, 3.0))
    ensures !ContainsCube(Cube(0.0, 0.0, 0.0, 3.0, 3.0, 3.0), Cube(1.0, 1.0, 1.0, 2.0, 2.0, 2.0))
  {
  }
}
