# Geometry value types, modelled in Dafny

This project models the C# geometry library `hroger1030/Geometry`: small 2D
and 3D value types whose logic is comparisons and polynomial arithmetic on
coordinates. The repository holds two diverging copies of several types, and
each is modelled in its own modules:

- `Lib*` modules follow `GeometryLib/Objects/`: Rectangle (stored as four
  edges), Circle, Polygon, Cube, Triangle, Vector2, Vector3, VectorN, Point2,
  Point3 and Line2.
- `Geo*` modules follow the older `Geometry/Objects/`: Rectangle (stored as
  left, top, width and height, with setters and an in-place Scale), VectorN,
  Triangle, Point2, Point3 and LineSegment.
- `Common` holds the exception kinds, the `Result`/`Option`/`Outcome`
  wrappers, `float.Epsilon` and the square-root contract.
- `Heron` holds the side sort and Heron product that both triangles share.
- `Elementwise` holds the element-wise sequence functions that both VectorN
  classes are specified by.

Conventions:

- Coordinates are `real`.
- `float.Epsilon` is the exact value 2^-149.
- A thrown exception is an `Err(kind)` result, or a `Fail(kind)` outcome for a
  void operation.
- A reference that may be null is an `Option`. This is used only where the
  source has an explicit null branch.
- `Math.Sqrt` (and `Math.Pow(x, 0.5)`) is a function value `sqrt` passed in.
  Every property that depends on it assumes only `Common.IsSqrt(sqrt)`: for
  x >= 0, sqrt(x) is non-negative and squares back to x.

Values are datatypes and functions. Where the source updates objects in
place, the model uses classes:

- `GeoRectangle.Rectangle`: setters and `Scale`.
- `LibVector2.Vector2Ref`: the instance `Normalize()`.
- The two `VectorN` classes: an `array<real>` filled by loops.
- `LibPoint2.Point2Ref`: the GeometryLib triangle compares its vertices by
  reference.

The following behaviours are modelled as written:

- GeometryLib `Union` takes Top from the two Lefts.
- GeometryLib `Center` is half the size and ignores Left and Top.
- Polygon `-` adds the vector.
- `Cube.Contains(Cube)` is always false.
- Geometry VectorN `!=` holds only when every element differs, so it is not
  the negation of `==`.
- GeometryLib Triangle rejects repeated vertex objects, not repeated
  locations.
- Geometry VectorN `Copy(this)` allocates the new array before reading the
  old one, so copying a vector onto itself zeroes it.
- Geometry Rectangle `* 0` throws `ArgumentException`, because the
  constructor rejects the zero size. `/` checks for a zero scale itself and
  throws `ArgumentException` before dividing.

## Model

| member | source | states |
|---|---|---|
| LibVector2.Div | GeometryLib/Objects/Vector2.cs:69-75 | DivideByZero exactly when the scale is 0; otherwise the quotient times the scale gives the vector back |
| LibVector2.Equals | GeometryLib/Objects/Vector2.cs:128-134 | false for null, otherwise true exactly for equal components |
| LibVector2.Add | GeometryLib/Objects/Vector2.cs:46-52 | the component-wise sum, undone by `-` (SubUndoesAdd) |
| LibVector2.Sub | GeometryLib/Objects/Vector2.cs:54-60 | the component-wise difference, which undoes `+` (SubUndoesAdd) |
| LibVector2.Mul | GeometryLib/Objects/Vector2.cs:62-67 | both components times the scale; a nonzero scale is undone by `/` (DivUndoesMul) |
| LibVector2.Length | GeometryLib/Objects/Vector2.cs:113-116 | the Euclidean norm: non-negative, zero exactly for (0, 0), equal for opposite vectors (LengthZeroIff, LengthOfNegation) |
| LibVector2.Normalized | GeometryLib/Objects/Vector2.cs:77-93 | DivideByZero exactly for the zero vector; otherwise a vector of length 1 that normalizing again keeps (NormalizedFailsIff, NormalizedIsUnit, NormalizedIdempotent) |
| LibVector2.SubUndoesAdd | GeometryLib/Objects/Vector2.cs:46-60 | (v1 + v2) - v2 = v1 |
| LibVector2.DivUndoesMul | GeometryLib/Objects/Vector2.cs:62-75 | dividing by a nonzero scale undoes multiplying by it |
| LibVector2.LengthZeroIff | GeometryLib/Objects/Vector2.cs:113-116 | the length is non-negative and zero exactly for (0, 0) |
| LibVector2.LengthOfNegation | GeometryLib/Objects/Vector2.cs:113-116 | the opposite vector has the same length |
| LibVector2.NormalizedFailsIff | GeometryLib/Objects/Vector2.cs:77-93 | static Normalize throws DivideByZero exactly for the zero vector |
| LibVector2.NormalizedIsUnit | GeometryLib/Objects/Vector2.cs:77-93 | a normalized nonzero vector has length 1 |
| LibVector2.NormalizedIdempotent | GeometryLib/Objects/Vector2.cs:77-93 | normalizing the result again gives the same vector |
| LibVector2.Vector2Ref.constructor | GeometryLib/Objects/Vector2.cs:40-44 | the object holds the given coordinates |
| LibVector2.Vector2Ref.Normalize | GeometryLib/Objects/Vector2.cs:95-106 | fails with DivideByZero and leaves X, Y unchanged exactly when the static Normalize fails; otherwise X, Y become the static result |
| LibVector3.FromPoint3 | GeometryLib/Objects/Vector3.cs:38 | the components are the point's coordinates |
| LibVector3.FromHeadDestination | GeometryLib/Objects/Vector3.cs:40 | head plus the vector is the destination |
| LibVector3.Div | GeometryLib/Objects/Vector3.cs:64-67 | the quotient times the divisor gives the vector back |
| LibVector3.Equals | GeometryLib/Objects/Vector3.cs:115-118 | true exactly for equal components |
| LibVector3.Add | GeometryLib/Objects/Vector3.cs:49-52 | the component-wise sum, undone by `-` (Inverses) |
| LibVector3.Sub | GeometryLib/Objects/Vector3.cs:54-57 | the component-wise difference, which undoes `+` (Inverses) |
| LibVector3.Mul | GeometryLib/Objects/Vector3.cs:59-62 | every component times the scalar; a nonzero scalar is undone by `/` (Inverses) |
| LibVector3.Length | GeometryLib/Objects/Vector3.cs:100-103 | the Euclidean norm; the distance between two vectors is the length of their difference (DistanceIsLengthOfDifference), and a normalized vector has length 1 (NormalizedIsUnit) |
| LibVector3.DistanceTo | GeometryLib/Objects/Vector3.cs:86-93 | symmetric, non-negative and zero exactly between equal vectors (DistanceProperties) |
| LibVector3.Normalized | GeometryLib/Objects/Vector3.cs:69-84 | DivideByZero exactly for the zero vector; otherwise length 1 (NormalizedFailsIff, NormalizedIsUnit) |
| LibVector3.Inverses | GeometryLib/Objects/Vector3.cs:49-67 | `-` undoes `+`, `/` undoes `*` |
| LibVector3.DistanceIsLengthOfDifference | GeometryLib/Objects/Vector3.cs:86-93 | DistanceTo(v1, v2) is the length of v1 - v2 |
| LibVector3.DistanceProperties | GeometryLib/Objects/Vector3.cs:86-98 | the distance is symmetric, non-negative and zero exactly between equal vectors |
| LibVector3.DistanceExample | GeometryTests/Geometry/Vector3Tests.cs:34-48 | (0,0,0) to (3,4,0) is 5 |
| LibVector3.NormalizedFailsIff | GeometryLib/Objects/Vector3.cs:69-84 | Normalize throws DivideByZero exactly for the zero vector |
| LibVector3.NormalizedIsUnit | GeometryLib/Objects/Vector3.cs:69-84 | a normalized nonzero vector has length 1 |
| LibPoint2.FromInts | GeometryLib/Objects/Point2.cs:40-42 | the int constructor keeps the integer values |
| LibPoint2.Length | GeometryLib/Objects/Point2.cs:34 | a point's Length is 0 |
| LibPoint2.DistanceTo | GeometryLib/Objects/Point2.cs:50-63 | ArgumentNull exactly when an operand is null; otherwise the Euclidean distance |
| LibPoint2.Equals | GeometryLib/Objects/Point2.cs:103-109 | false for null, otherwise true exactly for equal coordinates |
| LibPoint2.Distance | GeometryLib/Objects/Point2.cs:57-63 | symmetric, non-negative and zero exactly between equal points (DistanceSymmetric, DistanceZeroIff) |
| LibPoint2.AddVector | GeometryLib/Objects/Point2.cs:65-77 | moves the point by the vector, as far as the vector is long, and is undone by `-` (AddVectorDisplacement, SubVectorUndoesAddVector) |
| LibPoint2.SubVector | GeometryLib/Objects/Point2.cs:79-91 | undoes `+` and is undone by it (SubVectorUndoesAddVector) |
| LibPoint2.SubVectorUndoesAddVector | GeometryLib/Objects/Point2.cs:65-91 | (p + v) - v = p and (p - v) + v = p |
| LibPoint2.AddVectorDisplacement | GeometryLib/Objects/Point2.cs:57-77 | p + v lies the length of v away from p |
| LibPoint2.DistanceSymmetric | GeometryLib/Objects/Point2.cs:57-63 | the distance is symmetric |
| LibPoint2.DistanceZeroIff | GeometryLib/Objects/Point2.cs:57-63 | the distance is non-negative and zero exactly between equal points |
| LibPoint2.DistanceExample | GeometryTests/Geometry/Point2Tests.cs:31-38 | (0,0) to (3,4) is 5 |
| LibPoint2.Point2Ref.constructor | GeometryLib/Objects/Point2.cs:44-48 | the object holds the given coordinates |
| LibPoint3.Copy | GeometryLib/Objects/Point3.cs:42-47 | the copy is Equals to the original both ways |
| LibPoint3.FromPoint2 | GeometryLib/Objects/Point3.cs:49-54 | X and Y are kept and Z is 0 |
| LibPoint3.Equals | GeometryLib/Objects/Point3.cs:86-94 | false for null, otherwise true exactly for equal coordinates |
| LibPoint3.Add | GeometryLib/Objects/Point3.cs:56-64 | commutative, with the origin as neutral element, and undone by `-` (AddCommutes, AddSubInverse) |
| LibPoint3.Sub | GeometryLib/Objects/Point3.cs:66-74 | undoes `+` both ways, and p - p is the origin (AddSubInverse) |
| LibPoint3.AddSubInverse | GeometryLib/Objects/Point3.cs:33-74 | `-` undoes `+` both ways; the origin is neutral; p - p is the origin |
| LibPoint3.AddCommutes | GeometryLib/Objects/Point3.cs:56-64 | `+` is commutative |
| LibLine2.FromCoordinates | GeometryLib/Objects/Line2.cs:31 | Point1 = (p1x, p1y) and Point2 = (p2x, p2y) |
| LibLine2.Equals | GeometryLib/Objects/Line2.cs:49-52 | true exactly when both endpoints are equal, in order |
| LibLine2.Length | GeometryLib/Objects/Line2.cs:29 | never negative and unchanged by reversing the line (LengthNonNegative, ReversedLine) |
| LibLine2.ReversedLine | GeometryLib/Objects/Line2.cs:29-52 | a reversed line has the same length and is Equals to the original exactly when its endpoints coincide, i.e. when its length is 0 |
| LibLine2.LengthNonNegative | GeometryLib/Objects/Line2.cs:29 | the length is never negative |
| LibRectangle.New | GeometryLib/Objects/Rectangle.cs:86-98 | Argument exactly when the width or height is below float.Epsilon; otherwise the given top-left, width and height, edges in order, positive area |
| LibRectangle.FromSize | GeometryLib/Objects/Rectangle.cs:84 | the four-argument constructor at the origin, where Center is the midpoint |
| LibRectangle.FromCenter | GeometryLib/Objects/Rectangle.cs:100-115 | ArgumentNull for a null center; Argument exactly for a size below float.Epsilon; otherwise the given size with its midpoint at the center |
| LibRectangle.Scale | GeometryLib/Objects/Rectangle.cs:144-153 | the top-left corner is kept; width and height are multiplied by their factors, unvalidated |
| LibRectangle.Union | GeometryLib/Objects/Rectangle.cs:198-207 | min Left, max Right and Bottom, and Top = the smaller Left |
| LibRectangle.Mul | GeometryLib/Objects/Rectangle.cs:246-261 | Argument exactly for a negative scale; otherwise top-left kept and both sizes multiplied |
| LibRectangle.Div | GeometryLib/Objects/Rectangle.cs:263-269 | DivideByZero for 0, Argument for a negative scale; for a positive scale the top-left corner is kept, the sizes times the scale give the old sizes, and the result is `*` by 1/scale |
| LibRectangle.Equals | GeometryLib/Objects/Rectangle.cs:281-284 | true exactly for four equal edges |
| LibRectangle.Width | GeometryLib/Objects/Rectangle.cs:51 | the given width for a constructed rectangle (New, FromCenter); kept by translation, multiplied by `*` and Scale (TranslationProperties, Mul, Scale) |
| LibRectangle.Height | GeometryLib/Objects/Rectangle.cs:53 | the given height for a constructed rectangle (New, FromCenter); kept by translation, multiplied by `*` and Scale (TranslationProperties, Mul, Scale) |
| LibRectangle.Area | GeometryLib/Objects/Rectangle.cs:78 | positive for every constructed rectangle (New), never negative on ordered edges, multiplied by both factors under Scale (MeasuresProperties) |
| LibRectangle.Perimeter | GeometryLib/Objects/Rectangle.cs:80 | never negative on ordered edges (MeasuresProperties); 10 for the 2 by 3 rectangle (AreaPerimeterExample) |
| LibRectangle.Center | GeometryLib/Objects/Rectangle.cs:76 | the midpoint exactly when Left and Top are 0 (CenterIsMidpointIff) |
| LibRectangle.ContainsXY | GeometryLib/Objects/Rectangle.cs:130-133 | the inclusive edge test that Contains(Point2) applies; a rectangle contains its corners and midpoint (ContainsOwnCorners) |
| LibRectangle.ContainsPoint | GeometryLib/Objects/Rectangle.cs:125-128 | holds for the corners and the midpoint, and is carried along by containment (ContainsOwnCorners, ContainsRectPreorder) |
| LibRectangle.ContainsRect | GeometryLib/Objects/Rectangle.cs:135-138 | the same as containing the four corners; reflexive and transitive (ContainsRectIffCorners, ContainsRectPreorder) |
| LibRectangle.Intersects | GeometryLib/Objects/Rectangle.cs:158-175 | true exactly when a point lies in both; symmetric and true for touching rectangles (IntersectsIffCommonPoint, IntersectsProperties) |
| LibRectangle.AddVector | GeometryLib/Objects/Rectangle.cs:212-227 | keeps the size, moves the top-left corner by the vector, and is undone by `-` (TranslationProperties) |
| LibRectangle.SubVector | GeometryLib/Objects/Rectangle.cs:229-244 | keeps the size, moves the top-left corner against the vector, and undoes `+` (TranslationProperties) |
| LibRectangle.AreaPerimeterExample | GeometryLib/Objects/Rectangle.cs:78-98 | the 2 by 3 rectangle has area 6 and perimeter 10 |
| LibRectangle.CenterIsMidpointIff | GeometryLib/Objects/Rectangle.cs:76 | Center is the midpoint exactly when Left and Top are 0 |
| LibRectangle.ContainsOwnCorners | GeometryLib/Objects/Rectangle.cs:125-133 | a well-formed rectangle contains its four corners and its midpoint |
| LibRectangle.ContainsRectIffCorners | GeometryLib/Objects/Rectangle.cs:125-138 | containing a well-formed rectangle is the same as containing its four corners |
| LibRectangle.ContainsRectPreorder | GeometryLib/Objects/Rectangle.cs:125-138 | containment is reflexive and transitive and carries contained points along |
| LibRectangle.IntersectsProperties | GeometryLib/Objects/Rectangle.cs:158-175 | intersection is symmetric, reflexive on well-formed rectangles, implied by containment and true for rectangles that only touch |
| LibRectangle.IntersectsIffCommonPoint | GeometryLib/Objects/Rectangle.cs:125-175 | two well-formed rectangles intersect exactly when some point lies in both |
| LibRectangle.UnionQuirk | GeometryLib/Objects/Rectangle.cs:198-207 | Union encloses both inputs except at the top, and there is a rectangle its union with itself does not contain |
| LibRectangle.TranslationProperties | GeometryLib/Objects/Rectangle.cs:212-244 | translating keeps the size, moves the top-left by the vector, and `-` undoes `+` |
| LibRectangle.ScaleProperties | GeometryLib/Objects/Rectangle.cs:144-153 | Scale(1, 1) is the identity; non-negative factors keep the edges in order |
| LibRectangle.MeasuresProperties | GeometryLib/Objects/Rectangle.cs:78-80 | area and perimeter are non-negative on ordered edges; Scale multiplies the area by the product of its factors |
| LibRectangle.DivUndoesMul | GeometryLib/Objects/Rectangle.cs:246-269 | for a positive scale, `/` undoes `*` |
| LibCircle.New | GeometryLib/Objects/Circle.cs:57-64 | ArgumentOutOfRange exactly for a radius <= 0; otherwise the given center and radius |
| LibCircle.FromRadius | GeometryLib/Objects/Circle.cs:53 | the three-argument constructor at the origin |
| LibCircle.FromPosition | GeometryLib/Objects/Circle.cs:51 | radius 1 at the point, always accepted |
| LibCircle.Copy | GeometryLib/Objects/Circle.cs:55 | fails exactly for a non-positive radius; otherwise an equal circle |
| LibCircle.AddVector | GeometryLib/Objects/Circle.cs:112-115 | the center moves by the vector and the radius is revalidated |
| LibCircle.SubVector | GeometryLib/Objects/Circle.cs:117-120 | the center moves against the vector and the radius is revalidated |
| LibCircle.Mul | GeometryLib/Objects/Circle.cs:122-125 | ArgumentOutOfRange exactly when the scaled radius is <= 0; otherwise same center, scaled radius |
| LibCircle.Div | GeometryLib/Objects/Circle.cs:127-130 | ArgumentOutOfRange exactly when the divided radius is <= 0; otherwise same center, and the radius times the scale is the old radius |
| LibCircle.Equals | GeometryLib/Objects/Circle.cs:142-145 | true exactly for equal centers and radii |
| LibCircle.Left | GeometryLib/Objects/Circle.cs:33 | a radius left of the center; a contained point is not further left (BoundingEdges, ContainedPointWithinEdges) |
| LibCircle.Right | GeometryLib/Objects/Circle.cs:35 | a radius right of the center, a diameter from Left; a contained point is not further right (BoundingEdges, ContainedPointWithinEdges) |
| LibCircle.Top | GeometryLib/Objects/Circle.cs:37 | a radius above the center; a contained point is not higher (BoundingEdges, ContainedPointWithinEdges) |
| LibCircle.Bottom | GeometryLib/Objects/Circle.cs:39 | a radius below the center, a diameter from Top; a contained point is not lower (BoundingEdges, ContainedPointWithinEdges) |
| LibCircle.Diameter | GeometryLib/Objects/Circle.cs:45 | the span between opposite edges (BoundingEdges); 4 for radius 2 (BoundingEdgesExample) |
| LibCircle.Intersects | GeometryLib/Objects/Circle.cs:70-80 | symmetric; true for tangent circles, for equal centers and when one contains the other's center; false for separated circles (IntersectsProperties, IntersectsSameCenter, ContainedCenterIntersects) |
| LibCircle.IntersectsRect | GeometryLib/Objects/Circle.cs:82-92 | implied by containing the rectangle, and implies Rectangle.Intersects(Circle) (RectangleTests) |
| LibCircle.ContainsPoint | GeometryLib/Objects/Circle.cs:94-100 | the squared-distance test with the boundary included; holds for the center and the rim, moves along under translation (ContainsPointIff, ContainsCenterAndRim, TranslationProperties) |
| LibCircle.ContainsRect | GeometryLib/Objects/Circle.cs:102-110 | implies IntersectsRect (RectangleTests) |
| LibCircle.RectangleIntersects | GeometryLib/Objects/Rectangle.cs:180-193 | holds when the circle's center is inside the rectangle, yet fails for a circle that only crosses an edge (RectangleTests, RectangleIntersectsMissesEdge) |
| LibCircle.BoundingEdges | GeometryLib/Objects/Circle.cs:33-45 | the edges are a radius from the center and span the diameter |
| LibCircle.BoundingEdgesExample | GeometryLib/Objects/Circle.cs:33-45 | center (4, 5), radius 2: edges 2, 6, 3, 7 and diameter 4 |
| LibCircle.ContainsPointIff | GeometryLib/Objects/Circle.cs:94-100 | Contains(point) is the squared-distance test, boundary included |
| LibCircle.ContainedPointWithinEdges | GeometryLib/Objects/Circle.cs:94-100 | a contained point lies within the bounding edges |
| LibCircle.ContainsCenterAndRim | GeometryLib/Objects/Circle.cs:94-100 | the center and a rim point are contained |
| LibCircle.IntersectsProperties | GeometryLib/Objects/Circle.cs:70-80 | intersection is symmetric; tangent circles intersect, separated ones do not |
| LibCircle.IntersectsSameCenter | GeometryLib/Objects/Circle.cs:70-80 | circles with the same center always intersect |
| LibCircle.ContainedCenterIntersects | GeometryLib/Objects/Circle.cs:70-100 | valid circles intersect when one contains the other's center |
| LibCircle.RectangleTests | GeometryLib/Objects/Circle.cs:82-110 | containing a rectangle implies intersecting it, which implies the rectangle's own circle test; a contained center also passes that test |
| LibCircle.RectangleIntersectsMissesEdge | GeometryLib/Objects/Rectangle.cs:180-193 | a circle crossing only a rectangle's edge fails Rectangle.Intersects(Circle) |
| LibCircle.TranslationProperties | GeometryLib/Objects/Circle.cs:94-120 | `-` undoes `+`, and translating moves containment along |
| LibCircle.ScaleProperties | GeometryLib/Objects/Circle.cs:122-130 | a positive scale succeeds and `/` undoes `*` |
| LibPolygon.New | GeometryLib/Objects/Polygon.cs:65-74 | ArgumentNull exactly for a null list; otherwise the list is stored and Sides is its count |
| LibPolygon.NextIsModulo | GeometryLib/Objects/Polygon.cs:40 | the next index is (i + 1) % Count |
| LibPolygon.Area | GeometryLib/Objects/Polygon.cs:31-46 | the loop yields the shoelace area, which is non-negative |
| LibPolygon.Perimeter | GeometryLib/Objects/Polygon.cs:48-63 | the loop yields the sum of the edge lengths, wrapping around |
| LibPolygon.Contains | GeometryLib/Objects/Polygon.cs:81-99 | the flag ends as the parity of the crossed edges; false below three vertices |
| LibPolygon.ContainsXY | GeometryLib/Objects/Polygon.cs:76-79 | the same test on the point (x, y) |
| LibPolygon.Shifted | GeometryLib/Objects/Polygon.cs:117-118 | same length, every vertex plus the vector |
| LibPolygon.Plus | GeometryLib/Objects/Polygon.cs:107-121 | the new vertex list is every vertex plus the vector, in order |
| LibPolygon.Minus | GeometryLib/Objects/Polygon.cs:123-137 | the same list as `+`: the vector is added |
| LibPolygon.Equals | GeometryLib/Objects/Polygon.cs:151-163 | true exactly for equal vertex lists, in order |
| LibPolygon.Sides | GeometryLib/Objects/Polygon.cs:65 | the vertex count, which New sets from the list and translation keeps (New, ShiftKeepsSides) |
| LibPolygon.Next | GeometryLib/Objects/Polygon.cs:40 | the following index stays below the count and is (i + 1) % Count (NextIsModulo) |
| LibPolygon.ShoelaceArea | GeometryLib/Objects/Polygon.cs:31-46 | what Area computes; 0 below three vertices, unchanged by translation, s * s for a square of side s (FewVerticesNoArea, ShiftPreservesArea, SquareArea) |
| LibPolygon.EdgeSum | GeometryLib/Objects/Polygon.cs:48-63 | what Perimeter computes; never negative, 4s for a square of side s (EdgeSumNonNegative, SquarePerimeter) |
| LibPolygon.Inside | GeometryLib/Objects/Polygon.cs:81-99 | what Contains computes; false below three vertices, true for the middle of the unit square and false right of it (Contains, UnitSquareContainsMiddle, UnitSquareExcludesRight) |
| LibPolygon.FewVerticesNoArea | GeometryLib/Objects/Polygon.cs:31-46 | fewer than three vertices give area 0 |
| LibPolygon.UnitSquareContainsMiddle | GeometryLib/Objects/Polygon.cs:81-99 | the unit square contains (0.5, 0.5) |
| LibPolygon.UnitSquareExcludesRight | GeometryLib/Objects/Polygon.cs:81-99 | the unit square does not contain (2, 0.5) |
| LibPolygon.ShiftPreservesArea | GeometryLib/Objects/Polygon.cs:107-121 | translating does not change the area |
| LibPolygon.ShiftKeepsSides | GeometryLib/Objects/Polygon.cs:107-121 | translating keeps the vertex count, and changes a non-empty polygon unless the vector is zero |
| LibPolygon.EdgeSumNonNegative | GeometryLib/Objects/Polygon.cs:48-63 | the perimeter is never negative |
| LibPolygon.SquareCrossSum | GeometryLib/Objects/Polygon.cs:31-46 | the shoelace sum over the square of side s at (x, y) is 2 s^2 |
| LibPolygon.SquareArea | GeometryLib/Objects/Polygon.cs:31-46 | a square of side s >= 0 has area s * s wherever it is placed |
| LibPolygon.EdgeLength | GeometryLib/Objects/Polygon.cs:48-63 | a horizontal or vertical edge spanning s is s long |
| LibPolygon.SquarePerimeter | GeometryLib/Objects/Polygon.cs:48-63 | a square of side s >= 0 has perimeter 4s |
| LibPolygon.UnitSquareMeasures | GeometryLib/Objects/Polygon.cs:31-63 | the unit square has area 1 and perimeter 4 |
| LibCube.FromPoints | GeometryLib/Objects/Cube.cs:80 | the two points become the two defining corners |
| LibCube.Corner | GeometryLib/Objects/Cube.cs:42-64 | IndexOutOfRange exactly outside 0..7; otherwise the corner picked by the index bits |
| LibCube.ContainsCube | GeometryLib/Objects/Cube.cs:102-114 | always false |
| LibCube.Equals | GeometryLib/Objects/Cube.cs:140-150 | true exactly for six equal coordinates |
| LibCube.Volume | GeometryLib/Objects/Cube.cs:66 | non-negative, independent of the corner order, 1 for the unit cube (MeasuresProperties, UnitCubeMeasures) |
| LibCube.SurfaceArea | GeometryLib/Objects/Cube.cs:68-78 | non-negative, independent of the corner order, 6 for the unit cube (MeasuresProperties, UnitCubeMeasures) |
| LibCube.ContainsPoint | GeometryLib/Objects/Cube.cs:92-95 | the strict test: false for every corner, true for the middle (ContainsIsStrict) |
| LibCube.ContainsXYZ | GeometryLib/Objects/Cube.cs:97-100 | the strict coordinate test that Contains(Point3) applies (ContainsIsStrict) |
| LibCube.Intersects | GeometryLib/Objects/Cube.cs:116-128 | true exactly when some corner lies outside the other cube; false for a cube nested strictly inside (IntersectsIffCornerOutside, NestedCubeDoesNotIntersect) |
| LibCube.CornersIncludeDefiningPoints | GeometryLib/Objects/Cube.cs:42-64 | corners 0 and 7 are the defining points; all eight indices succeed |
| LibCube.MeasuresProperties | GeometryLib/Objects/Cube.cs:66-78 | volume and surface area are non-negative and do not depend on the corner order |
| LibCube.UnitCubeMeasures | GeometryLib/Objects/Cube.cs:66-78 | the unit cube has volume 1 and surface area 6 |
| LibCube.ContainsIsStrict | GeometryLib/Objects/Cube.cs:92-100 | no corner is contained; the middle point is |
| LibCube.IntersectsIffCornerOutside | GeometryLib/Objects/Cube.cs:116-128 | Intersects holds exactly when some corner lies outside the other cube; a cube intersects itself |
| LibCube.NestedCubeDoesNotIntersect | GeometryLib/Objects/Cube.cs:102-128 | a cube strictly inside another neither intersects it nor is contained by it |
| LibTriangle.New | GeometryLib/Objects/Triangle.cs:99-111 | ArgumentNull for a null point; Argument exactly when two arguments are the same object; otherwise the three vertices |
| LibTriangle.Classify | GeometryLib/Objects/Triangle.cs:81-97 | Equilateral iff all sides equal, Isosceles iff some but not all are, Scalene iff none are |
| LibTriangle.Area | GeometryLib/Objects/Triangle.cs:43-79 | 0.25 times the root of Heron's product of the unsorted sides, which AreaSign shows is non-negative and positive exactly for non-collinear vertices |
| LibTriangle.Equals | GeometryLib/Objects/Triangle.cs:123-126 | true exactly for position-wise equal vertex coordinates |
| LibTriangle.SideA | GeometryLib/Objects/Triangle.cs:50 | |AB|; with the other two sides it gives a non-negative perimeter and an area that is positive exactly for non-collinear vertices (PerimeterProperties, AreaSign) |
| LibTriangle.SideB | GeometryLib/Objects/Triangle.cs:51 | |BC|, used as SideA is (PerimeterProperties, AreaSign) |
| LibTriangle.SideC | GeometryLib/Objects/Triangle.cs:52 | |CA|, used as SideA is (PerimeterProperties, AreaSign) |
| LibTriangle.Perimeter | GeometryLib/Objects/Triangle.cs:38-41 | the sum of the three sides, non-negative and unchanged by rotating or reversing the vertices (PerimeterProperties) |
| LibTriangle.TriangleType | GeometryLib/Objects/Triangle.cs:81-97 | Classify applied to the three sides, independent of their order (Classify, ClassifySymmetric) |
| LibTriangle.AreaSign | GeometryLib/Objects/Triangle.cs:43-79 | the area is non-negative, and positive exactly when the cross product of AB and AC is nonzero, i.e. the vertices are not collinear |
| LibTriangle.PerimeterProperties | GeometryLib/Objects/Triangle.cs:38-41 | the perimeter is non-negative and unchanged by rotating or reversing the vertices |
| LibTriangle.ClassifySymmetric | GeometryLib/Objects/Triangle.cs:81-97 | the type does not depend on the order of the sides |
| LibTriangle.RepeatedLocationAccepted | GeometryLib/Objects/Triangle.cs:99-111 | three distinct objects at one location are accepted |
| Heron.ProductSymmetricForm | GeometryLib/Objects/Triangle.cs:76 | Heron's product equals its symmetric form |
| Heron.ProductSwapAB | GeometryLib/Objects/Triangle.cs:54-76 | exchanging the first two sides keeps the product |
| Heron.ProductSwapAC | GeometryLib/Objects/Triangle.cs:54-76 | exchanging the first and last sides keeps the product |
| Heron.ProductSwapBC | GeometryLib/Objects/Triangle.cs:54-76 | exchanging the last two sides keeps the product |
| Heron.SortSides | GeometryLib/Objects/Triangle.cs:54-74 | after the three swaps a >= b >= c, a permutation of the inputs with the same product |
| Heron.ProductNonNegative | GeometryLib/Objects/Triangle.cs:76 | side lengths obeying the triangle inequality give a non-negative product |
| Heron.RightTriangleExample | Geometry/Objects/Triangle.cs:56-57 | sides 5, 4, 3 give product 576 and area 6 |
| Heron.ProductOfFourNonNegative | GeometryLib/Objects/Triangle.cs:76 | a product of four non-negative factors is non-negative |
| Heron.ProductOfSquaredSides | GeometryLib/Objects/Triangle.cs:76 | Heron's product depends on the sides only through their squares |
| Heron.SquaredSidesIdentity | GeometryLib/Objects/Triangle.cs:76 | on the squared side lengths of any three points, that form is four times the squared cross product |
| Heron.ProductOfTriangle | GeometryLib/Objects/Triangle.cs:50-76 | Heron's product of the three measured sides is 4 k^2, k the cross product of AB and AC; so it is never negative |
| Heron.FourSquaresPositive | GeometryLib/Objects/Triangle.cs:76 | 4 x^2 is positive for nonzero x |
| Heron.AreaSign | GeometryLib/Objects/Triangle.cs:43-79 | the area formula is non-negative and positive exactly when the three points are not collinear |
| Elementwise.Zeros | GeometryLib/Objects/VectorN.cs:30-36 | n elements, all 0 |
| Elementwise.Filled | Geometry/Objects/VectorN.cs:52-61 | n elements, all equal to the given value |
| Elementwise.SumDifference | Geometry/Objects/VectorN.cs:101-135 | (s + t) - t = s; adding the negation is subtracting; negating twice is the identity |
| Elementwise.DividedUndoesScaled | Geometry/Objects/VectorN.cs:137-151 | dividing by k undoes multiplying by k; dividing is scaling by 1/k |
| Elementwise.BlendEndpoints | Geometry/Objects/VectorN.cs:182-196 | interpolating at 0 gives v1 and at 1 gives v2 |
| Elementwise.DotSymmetric | Geometry/Objects/VectorN.cs:156-167 | the dot product is symmetric |
| Elementwise.SumSquaresZeroIff | Geometry/Objects/VectorN.cs:273-281 | the sum of squares is non-negative and zero exactly when every element is 0 |
| LibVectorN.VectorN.constructor | GeometryLib/Objects/VectorN.cs:30-36 | a fresh array of `length` zeros |
| LibVectorN.VectorN.Copy | GeometryLib/Objects/VectorN.cs:41-47 | a fresh array with the same elements |
| LibVectorN.VectorN.Add | GeometryLib/Objects/VectorN.cs:49-60 | InvalidOperation exactly for unequal lengths; otherwise a fresh element-wise sum |
| LibVectorN.VectorN.Sub | GeometryLib/Objects/VectorN.cs:62-73 | InvalidOperation exactly for unequal lengths; otherwise a fresh element-wise difference |
| LibVectorN.VectorN.Mul | GeometryLib/Objects/VectorN.cs:75-83 | a fresh array of every element times the scalar |
| LibVectorN.VectorN.Div | GeometryLib/Objects/VectorN.cs:85-93 | a fresh array of every element divided by the scalar |
| LibVectorN.VectorN.Equals | GeometryLib/Objects/VectorN.cs:105-117 | true exactly for equal lengths and equal elements |
| GeoVectorN.VectorN.constructor | Geometry/Objects/VectorN.cs:52-61 | a fresh array of `dimensions` copies of the default value |
| GeoVectorN.VectorN.FromVector | Geometry/Objects/VectorN.cs:45-48 | a fresh array with the other vector's elements |
| GeoVectorN.VectorN.Create | Geometry/Objects/VectorN.cs:50-61 | InvalidOperation exactly for fewer than one dimension; otherwise the filled vector |
| GeoVectorN.VectorN.Get | Geometry/Objects/VectorN.cs:17-25 | IndexOutOfRange exactly outside [0, n); otherwise element i |
| GeoVectorN.VectorN.Set | Geometry/Objects/VectorN.cs:17-33 | IndexOutOfRange, nothing changed, exactly outside [0, n); otherwise only element i changes |
| GeoVectorN.VectorN.Eq | Geometry/Objects/VectorN.cs:73-85 | InvalidOperation exactly for unequal lengths; otherwise true exactly for equal elements |
| GeoVectorN.VectorN.NotEq | Geometry/Objects/VectorN.cs:87-99 | InvalidOperation exactly for unequal lengths; otherwise true exactly when every element differs |
| GeoVectorN.VectorN.Negate | Geometry/Objects/VectorN.cs:101-109 | InvalidOperation for an empty vector; otherwise a fresh negation |
| GeoVectorN.VectorN.Add | Geometry/Objects/VectorN.cs:111-122 | InvalidOperation exactly for unequal lengths or none; otherwise a fresh element-wise sum |
| GeoVectorN.VectorN.Sub | Geometry/Objects/VectorN.cs:124-135 | InvalidOperation exactly for unequal lengths or none; otherwise a fresh element-wise difference |
| GeoVectorN.VectorN.Mul | Geometry/Objects/VectorN.cs:137-143 | a fresh vector of every element times the scalar; the operand is untouched |
| GeoVectorN.VectorN.Div | Geometry/Objects/VectorN.cs:145-151 | a fresh vector of every element divided by the scalar |
| GeoVectorN.VectorN.DotProduct | Geometry/Objects/VectorN.cs:156-167 | InvalidOperation exactly for unequal lengths; otherwise the sum of the products |
| GeoVectorN.VectorN.Interpolate | Geometry/Objects/VectorN.cs:182-196 | InvalidOperation for unequal lengths, then ArgumentOutOfRange for t outside [0, 1], then InvalidOperation for an empty vector; otherwise v1(1 - t) + v2 t element-wise |
| GeoVectorN.VectorN.Copy | Geometry/Objects/VectorN.cs:208-214 | a fresh array with the other's elements; copying from itself yields zeros |
| GeoVectorN.VectorN.Scale | Geometry/Objects/VectorN.cs:216-220 | every element is multiplied in place |
| GeoVectorN.VectorN.GetLength | Geometry/Objects/VectorN.cs:273-281 | the square root of the sum of squares |
| GeoVectorN.VectorN.Normalize | Geometry/Objects/VectorN.cs:222-231 | unchanged when the length is 0; otherwise every element divided by the length |
| GeoVectorN.VectorN.Reset | Geometry/Objects/VectorN.cs:233-237 | every element becomes 0 and the length is kept |
| GeoVectorN.VectorN.Equals | Geometry/Objects/VectorN.cs:249-261 | true exactly for equal lengths and equal elements |
| GeoVectorN.NormalizeLengthZeroIff | Geometry/Objects/VectorN.cs:222-231 | the length is non-negative and zero exactly for the all-zero vector, the one Normalize leaves alone |
| GeoVectorN.NotEqIsNotNegationOfEq | Geometry/Objects/VectorN.cs:73-99 | unequal vectors that are not `!=` exist, and empty vectors are both `==` and `!=` |
| GeoVectorN.AllDifferImpliesUnequal | Geometry/Objects/VectorN.cs:73-99 | on non-empty vectors, `!=` implies not `==` |
| GeoPoint2.Eq | Geometry/Objects/Point2.cs:65-75 | true exactly when both are null or both have equal coordinates |
| GeoPoint2.NotEq | Geometry/Objects/Point2.cs:77-80 | the negation of `==` |
| GeoPoint2.Equals | Geometry/Objects/Point2.cs:95-98 | true exactly for equal coordinates |
| GeoPoint2.DistanceTo | Geometry/Objects/Point2.cs:40-43 | symmetric, non-negative and zero exactly between equal points (DistanceProperties) |
| GeoPoint2.AddVector | Geometry/Objects/Point2.cs:45-53 | moves the point as far as the vector is long, and is undone by `-` (AddVectorDistance, SubVectorUndoesAddVector) |
| GeoPoint2.SubVector | Geometry/Objects/Point2.cs:55-63 | undoes `+` and is undone by it (SubVectorUndoesAddVector) |
| GeoPoint2.SubVectorUndoesAddVector | Geometry/Objects/Point2.cs:45-63 | (p + v) - v = p and (p - v) + v = p |
| GeoPoint2.DistanceProperties | Geometry/Objects/Point2.cs:35-43 | the distance is symmetric, non-negative and zero exactly between equal points |
| GeoPoint2.AddVectorDistance | Geometry/Objects/Point2.cs:40-53 | p + v lies the length of v away from p |
| GeoPoint3.Div | Geometry/Objects/Point3.cs:70-79 | the component-wise quotient times the divisor gives the dividend back |
| GeoPoint3.Eq | Geometry/Objects/Point3.cs:81-91 | true exactly when both are null or both have equal coordinates |
| GeoPoint3.NotEq | Geometry/Objects/Point3.cs:93-96 | the negation of `==` |
| GeoPoint3.Equals | Geometry/Objects/Point3.cs:108-120 | true exactly for equal X, Y and Z |
| GeoPoint3.Add | Geometry/Objects/Point3.cs:37-46 | commutative, with the origin as neutral element, undone by `-` (AddSubProperties) |
| GeoPoint3.Sub | Geometry/Objects/Point3.cs:48-57 | undoes `+` (AddSubProperties) |
| GeoPoint3.Mul | Geometry/Objects/Point3.cs:59-68 | component-wise product, undone by `/` (DivUndoesMul) |
| GeoPoint3.AddSubProperties | Geometry/Objects/Point3.cs:28-57 | `-` undoes `+`; the origin is neutral; `+` is commutative |
| GeoPoint3.DivUndoesMul | Geometry/Objects/Point3.cs:59-79 | `/` undoes component-wise `*` |
| GeoLineSegment.New | Geometry/Objects/LineSegment.cs:18-28 | Argument exactly when an endpoint is null; otherwise the endpoints in order |
| GeoLineSegment.FromCoordinates | Geometry/Objects/LineSegment.cs:16 | the two-point constructor on (p1x, p1y) and (p2x, p2y), which succeeds |
| GeoLineSegment.Equals | Geometry/Objects/LineSegment.cs:53-56 | true exactly for equal endpoints, in order |
| GeoLineSegment.Length | Geometry/Objects/LineSegment.cs:11-14 | unchanged by reversing the segment, and 0 exactly when the reversed segment is Equals to the original (ReversedSegment) |
| GeoLineSegment.ReversedSegment | Geometry/Objects/LineSegment.cs:53-56 | a reversed segment has the same length and is Equals to the original exactly when its length is 0 |
| GeoTriangle.New | Geometry/Objects/Triangle.cs:61-78 | Argument exactly when a point is null or two points have equal coordinates; otherwise the three points |
| GeoTriangle.Area | Geometry/Objects/Triangle.cs:23-59 | 0.25 times the root of Heron's product of the unsorted sides, which AreaSign shows is non-negative and positive exactly for non-collinear points |
| GeoTriangle.Equals | Geometry/Objects/Triangle.cs:103-106 | true exactly for position-wise equal points |
| GeoTriangle.SideA | Geometry/Objects/Triangle.cs:30 | |Point1 Point2|; with the other two sides it gives an area that is positive exactly for non-collinear points (Area, AreaSign) |
| GeoTriangle.SideB | Geometry/Objects/Triangle.cs:31 | |Point2 Point3|, used as SideA is (Area, AreaSign) |
| GeoTriangle.SideC | Geometry/Objects/Triangle.cs:32 | |Point3 Point1|, used as SideA is (Area, AreaSign) |
| GeoTriangle.Perimeter | Geometry/Objects/Triangle.cs:18-21 | non-negative and unchanged by rotating or reversing the points (RelabellingInvariance) |
| GeoTriangle.AreaSign | Geometry/Objects/Triangle.cs:23-59 | the area is non-negative, and positive exactly when the three points are not collinear |
| GeoTriangle.AcceptedSidesPositive | Geometry/Objects/Triangle.cs:61-78 | every accepted triangle has three sides of positive length |
| GeoTriangle.RelabellingInvariance | Geometry/Objects/Triangle.cs:18-57 | perimeter non-negative; perimeter and area product unchanged by rotating or reversing the points |
| GeoRectangle.New | Geometry/Objects/Rectangle.cs:149-161 | Argument exactly when the width or height is below float.Epsilon; otherwise valid, at (x, y), with the given size |
| GeoRectangle.FromCenter | Geometry/Objects/Rectangle.cs:163-178 | ArgumentNull for a null center; Argument exactly for a size below float.Epsilon; otherwise valid with the given size and center |
| GeoRectangle.Union | Geometry/Objects/Rectangle.cs:262-267 | min Left and Top, max Right and Bottom, containing both inputs; succeeds whenever the first input is valid |
| GeoRectangle.AddVector | Geometry/Objects/Rectangle.cs:269-272 | succeeds exactly for a valid rectangle; top-left moved by the vector, size kept |
| GeoRectangle.SubVector | Geometry/Objects/Rectangle.cs:274-277 | succeeds exactly for a valid rectangle; top-left moved against the vector, size kept |
| GeoRectangle.Mul | Geometry/Objects/Rectangle.cs:279-285 | Argument for a negative scale; otherwise the constructor on the scaled size |
| GeoRectangle.Div | Geometry/Objects/Rectangle.cs:287-293 | Argument exactly when the scale is 0 or a divided size is below float.Epsilon; otherwise the constructor on (Left, Top, Width / scale, Height / scale), keeping the top-left corner |
| GeoRectangle.Eq | Geometry/Objects/Rectangle.cs:295-306 | true exactly when both are null or both are field-wise equal |
| GeoRectangle.NotEq | Geometry/Objects/Rectangle.cs:308-311 | the negation of `==` |
| GeoRectangle.Equals | Geometry/Objects/Rectangle.cs:323-326 | true exactly for four equal fields |
| GeoRectangle.Right | Geometry/Objects/Rectangle.cs:75-79 | Left + Width: read back by SetRight and SetLeft, the exclusive edge of the integer test (Rectangle.SetRight, ContainsIntHalfOpen) |
| GeoRectangle.Bottom | Geometry/Objects/Rectangle.cs:91-95 | Top + Height: read back by SetBottom and SetTop, the exclusive edge of the integer test (Rectangle.SetBottom, ContainsIntHalfOpen) |
| GeoRectangle.Center | Geometry/Objects/Rectangle.cs:127-135 | contained in the rectangle; set by FromCenter and SetCenter (ContainmentProperties, FromCenter, Rectangle.SetCenter) |
| GeoRectangle.TopLeft | Geometry/Objects/Rectangle.cs:47-50 | the location: set by the constructor, moved by the vector under `+` and `-`, kept by `/` (New, AddVector, SubVector, Div) |
| GeoRectangle.TopRight | Geometry/Objects/Rectangle.cs:51-54 | a corner the rectangle contains (ContainmentProperties) |
| GeoRectangle.BottomLeft | Geometry/Objects/Rectangle.cs:55-58 | a corner the rectangle contains (ContainmentProperties) |
| GeoRectangle.BottomRight | Geometry/Objects/Rectangle.cs:59-62 | a corner the rectangle contains (ContainmentProperties) |
| GeoRectangle.Area | Geometry/Objects/Rectangle.cs:136-139 | positive for a valid rectangle, multiplied by both factors of an in-place Scale (MeasuresProperties) |
| GeoRectangle.Perimeter | Geometry/Objects/Rectangle.cs:140-143 | positive for a valid rectangle (MeasuresProperties); 10 for (0, 0, 2, 3) (BasicPropertiesExample) |
| GeoRectangle.ContainsInt | Geometry/Objects/Rectangle.cs:188-191 | the float test with the right and bottom edges excluded (ContainsIntHalfOpen) |
| GeoRectangle.ContainsXY | Geometry/Objects/Rectangle.cs:193-196 | the inclusive test that the integer test narrows (ContainsIntHalfOpen) |
| GeoRectangle.ContainsPoint | Geometry/Objects/Rectangle.cs:198-201 | holds for the corners and the center, and moves along under translation (ContainmentProperties, TranslationProperties) |
| GeoRectangle.ContainsRect | Geometry/Objects/Rectangle.cs:203-206 | reflexive and transitive; the union contains both inputs (ContainmentProperties, Union) |
| GeoRectangle.Intersects | Geometry/Objects/Rectangle.cs:227-230 | true exactly when the interiors share a point; symmetric, false for touching rectangles (IntersectsIffCommonInteriorPoint, IntersectsProperties) |
| GeoRectangle.IntersectsCircle | Geometry/Objects/Rectangle.cs:235-257 | true exactly when the rectangle's point nearest the center is within the radius (IntersectsCircleIffNearestPointWithin) |
| GeoRectangle.BasicPropertiesExample | GeometryTests/Geometry/RectangleTests.cs:31-48 | (0, 0, 2, 3): perimeter 10, area 6, right 2, bottom 3, center (1, 1.5) |
| GeoRectangle.ContainsIntHalfOpen | Geometry/Objects/Rectangle.cs:188-196 | the integer test is the float test with the right and bottom edges excluded |
| GeoRectangle.ContainmentProperties | Geometry/Objects/Rectangle.cs:193-206 | a rectangle contains its corners, its center and itself; containment is transitive |
| GeoRectangle.ContainsExamples | GeometryTests/Geometry/RectangleTests.cs:52-83 | the containment cases of TestContainsGeometry |
| GeoRectangle.IntersectsProperties | Geometry/Objects/Rectangle.cs:227-230 | symmetric; a positive-size rectangle intersects itself and what it contains; touching rectangles do not intersect |
| GeoRectangle.IntersectsIffCommonInteriorPoint | Geometry/Objects/Rectangle.cs:227-230 | valid rectangles intersect exactly when their interiors share a point |
| GeoRectangle.IntersectsExamples | GeometryTests/Geometry/RectangleTests.cs:87-108 | the cases of TestRectangleIntersectsGeometry |
| GeoRectangle.MovedUnitSquaresExample | GeometryTests/Geometry/RectangleTests.cs:87-108 | the unit square moved by (1, 1) and by (-1, -1) gives (1, 1, 1, 1) and (-1, -1, 1, 1), which do not intersect |
| GeoRectangle.MeasuresProperties | Geometry/Objects/Rectangle.cs:136-143 | a valid rectangle has positive area and perimeter; scaling the sizes by w and h multiplies the area by w h |
| GeoRectangle.OffsetTestIffGaps | Geometry/Objects/Rectangle.cs:235-257 | the chain of early returns equals the test on the distances to the nearest edge |
| GeoRectangle.IntersectsCircleIffNearestPointWithin | Geometry/Objects/Rectangle.cs:235-257 | Intersects(Circle) holds exactly when the rectangle's point nearest the center is within the radius |
| GeoRectangle.CircleIntersectionExamples | GeometryTests/Geometry/RectangleTests.cs:114-125 | the five circle cases of Rectangle_RectangleCircleIntersection_Pass |
| GeoRectangle.ContainedCenterIntersects | Geometry/Objects/Rectangle.cs:235-257 | a circle whose center is contained intersects |
| GeoRectangle.UnionProperties | Geometry/Objects/Rectangle.cs:262-267 | Union is symmetric; (0,0,2,2) with (1,1,2,2) gives (0,0,3,3) as in TestUnion |
| GeoRectangle.TranslationProperties | Geometry/Objects/Rectangle.cs:269-277 | `-` undoes `+`, and translating moves containment along |
| GeoRectangle.ScaleOperatorProperties | Geometry/Objects/Rectangle.cs:279-293 | `* 0` throws Argument, `/` by a negative scale throws Argument, `/` undoes a successful `*` |
| GeoRectangle.OperatorExamples | GeometryTests/Geometry/RectangleTests.cs:157-178 | the cases of TestOperatorOverloads |
| GeoRectangle.Rectangle.Create | Geometry/Objects/Rectangle.cs:149-161 | fails exactly when the value constructor fails; otherwise a fresh object holding its value |
| GeoRectangle.Rectangle.Copy | Geometry/Objects/Rectangle.cs:180-186 | the copy holds the same fields and is `==` to the original |
| GeoRectangle.Rectangle.SetWidth | Geometry/Objects/Rectangle.cs:24-34 | Argument and no change exactly below float.Epsilon; otherwise only the width changes |
| GeoRectangle.Rectangle.SetHeight | Geometry/Objects/Rectangle.cs:35-45 | Argument and no change exactly below float.Epsilon; otherwise only the height changes |
| GeoRectangle.Rectangle.SetRight | Geometry/Objects/Rectangle.cs:75-79 | Right reads back the value; only Left changes |
| GeoRectangle.Rectangle.SetBottom | Geometry/Objects/Rectangle.cs:91-95 | Bottom reads back the value; only Top changes |
| GeoRectangle.Rectangle.SetLeft | Geometry/Objects/Rectangle.cs:67-71 | only Left changes; the top-left corner's X reads back the value and Right moves with it; the X setter stores the same field |
| GeoRectangle.Rectangle.SetTop | Geometry/Objects/Rectangle.cs:83-87 | only Top changes; the top-left corner's Y reads back the value and Bottom moves with it; the Y setter stores the same field |
| GeoRectangle.Rectangle.SetCenter | Geometry/Objects/Rectangle.cs:127-135 | Center reads back the value; the size is kept |
| GeoRectangle.Rectangle.SetLocation | Geometry/Objects/Rectangle.cs:99-107 | the top-left corner reads back the value; the size is kept |
| GeoRectangle.Rectangle.SetSize | Geometry/Objects/Rectangle.cs:111-122 | the size becomes the value, unvalidated; the location is kept |
| GeoRectangle.Rectangle.Scale | Geometry/Objects/Rectangle.cs:212-222 | Argument and no change exactly when a factor is below float.Epsilon; otherwise the size is multiplied in place, as in Rectangle_Scale_Pass |

## Left out

- IEEE-754 single and double precision: rounding, overflow to infinity, NaN and the float/double casts are not modelled; coordinates are exact reals.
- `Math.Sqrt` and `Math.Pow(x, 0.5)` are a parameter with only the square-root contract. Heron's product of three measured sides is never negative (`Heron.ProductOfTriangle`), so the NaN that `Math.Pow` gives for a negative argument can come only from float rounding, which is not modelled.
- `Math.Cos`/`Math.Sin` in the Vector2 rotation constructor, `Math.Atan2` in `VectorToRotation`, and the π-based Circle Area and Circumference depend on transcendental functions and are not modelled.
- Geometry VectorN `Length`, `IsNormalized`, `<`, `>`, `CreateVectorToTarget` and `DistanceTo` depend on exact square-root equality with 1.0 and are not modelled; `GetLength` is.
- `GetHashCode`, `ToString` and `Equals(object)`'s type dispatch are not modelled; each typed `Equals` is.
- Null operands of the arithmetic operators, and the null checks inside them, are not modelled: operands are values. Null is modelled where the source states it as behaviour (typed `Equals`, Geometry `==`/`!=`, and the Polygon, Point2.DistanceTo, LineSegment, Triangle and Rectangle-from-center constructors).
- The property setters of the point, line and triangle types, which can later store a null or a repeated point, are not modelled; values are fixed at construction. (The Geometry Rectangle setters are modelled.)
- Polygon keeps a reference to the caller's list; the model stores the list's contents, so later changes through another reference are not modelled.
- The Geometry project's `Vector2` and `Circle` classes are not part of this model; minimal `GeoPoint2.Vector2` and `GeoRectangle.Circle` datatypes stand in for them.
- The Point2 constructors from `double` and `short` are the real-valued constructor; `LibPoint2.FromInts` covers the integer one. Geometry `Point2`'s own int and short constructors are not modelled separately.
- LibVector3.Div: requires a nonzero divisor; .NET's division by zero yields infinities or NaN.
- LibVectorN.VectorN.Div: requires a nonzero divisor, for the same reason.
- GeoVectorN.VectorN.Div: requires a nonzero divisor, for the same reason.
- LibCircle.Div: requires a nonzero divisor, for the same reason.
- GeoPoint3.Div: requires every component of the divisor to be nonzero, for the same reason.
- LibVectorN.VectorN.constructor: takes a `nat` length; a negative length, which makes .NET throw `OverflowException`, is not modelled.
- GeoVectorN.VectorN.constructor: requires at least one dimension; `GeoVectorN.VectorN.Create` models the `InvalidOperationException` for fewer.
- GeoTriangle.Area and LibTriangle.Area: the contract states the area as a function of the unsorted sides; that the value does not depend on the order is proved through `Heron.SortSides` and the product swap lemmas, and its sign through the separate `AreaSign` lemmas.
