# A Dafny model of 3d-with-ascii

3d-with-ascii draws triangle meshes as a grid of ASCII glyphs. It is written twice, once in Python and once in TypeScript. A camera:

- places every shape's vertices in the world (scale, then rotate by a quaternion, then translate);
- drops the faces turned away from it;
- projects each remaining triangle onto its screen;
- fills the triangle's pixels through a z-buffer, with a glyph chosen by the angle between the face normal and the viewing direction.

A frame loop writes every rendered frame to a text file, each cell doubled.

This project models that core in Dafny and proves properties of the model. The parts are:

- the `Vector3` and `Quaternion` algebra of both languages;
- mesh placement and face normals, and the built-in cube and tetrahedron;
- the two OBJ readers;
- the projection `world_to_screen_space`;
- the z-buffered rasterizer and `render`;
- the Python `Environment` with its `create_*` helpers and its frame writer;
- the TypeScript scene registry;
- TypeScript's `zip`.

Modules and files:

| module | file | models |
|---|---|---|
| `Wrappers` | wrappers.dfy | `Result`/`Option`; exceptions become `Failure(e)` |
| `Numerics` | numerics.dfy | `sqrt`, `sin` and `cos` as a parameter `MathLib` with per-point laws; Python's `int()` truncation |
| `Sequences` | util.dfy | Python list indexing, JavaScript array reads, `zip` of util.ts |
| `Text` | text.dfy | `strip`/`trim`, splitting and tokenising lines |
| `Vectors`, `VectorLaws` | vector.dfy | `Vector3` and its laws |
| `Quaternions` | quaternion.dfy | `Quaternion`, inverse, rotation, `from_axis_angle`, `from_euler` |
| `QuaternionLaws` | quaternion_laws.dfy | Hamilton product laws, inverse law, rotation round trip |
| `AxisAngleLaws` | axis_angle.dfy | the axis-angle construction, as written and corrected |
| `Meshes` | mesh.dfy | `Shape`/`PolyShape`, `location_of_vertex`, normals, `Cube`, `Tetrahedron` |
| `ObjFiles` | obj.dfy | `from_obj` / `fromObj` over already-read lines |
| `Projection` | projection.dfy | `world_to_screen_space` |
| `Raster` | raster.dfy | `clear_screen`, `_is_in_bounds`, the scan of `_render_triangle` |
| `Rendering` | render.dfy | `render`: culling, glyph choice, depth, the loops over shapes and faces |
| `Output` | output.dfy | the row-doubling writer of `main_loop` |
| `Scenes` | scene.dfy | the Python `Environment`, its `create_*` methods and `render` |
| `Registry` | registry.dfy | the TypeScript `Environment` registry |

## How the model treats the source

- **Numbers.** Coordinates are Dafny `real`s. `sqrt`, `sin` and `cos` are fields of a `MathLib` value passed to every operation that needs them. A ghost predicate `Lawful()` states the laws the proofs rely on:
  - `sqrt(x) >= 0` and `sqrt(x)^2 = x` for `x >= 0`;
  - `sin^2 + cos^2 = 1`.
  
  The parity and angle-addition laws are a separate predicate, `AngleLaws()`.
- **Errors.** A Python or TypeScript exception is a `Failure` carrying an `Error`:
  - division by zero (a float division by `0.0`, `divideByScalar(0)`, the inverse of the zero quaternion);
  - an index out of range;
  - a face with neither three nor four corners;
  - a malformed number;
  - a missing file;
  - `render` on an environment with no main camera.
  
  Each operation fails exactly where the source raises, and in the source's order.
- **Order of evaluation.** The model keeps the source's order wherever it decides which error is reported. For example, `calculate_normals` reads `vertices[a]` and places it before reading `vertices[b]`, while `triangleCoords` reads all three vertices first.
- **Rasterizer.** The rasterizer is written twice:
  - `Raster.Shade`, a function that says what drawing a triangle does to each cell;
  - `Raster.RenderTriangle`, a pair of nested loops with the source's bounds, proved to compute it.
  
  `Rendering.RenderScene` is the loop of `render`, proved equal to the functional `Rendering.Render`. The depth of a pixel is the formula of main.py:314, kept as a function from pixel to `Option<real>`; `None` stands for the zero division.
- **Duplicate code.** main.py repeats the vector algebra of Python/math_3d.py and the `Camera` of asciithree.py. Both copies are modelled once; rows below cite one of the copies.

Some details of the code that decide what the model does:

- Each pixel's glyph is the triangle's table entry `intensities[int(cos * 5.9)]`, written directly into the cell.
- Screen coordinates are `width // 2 + int(zoom * u)` and `height // 2 - int(zoom * v)`: `//` floors and `int()` truncates toward zero.
- The basis component divided by is the first of `x`, `y`, `z` whose magnitude reaches `1e-4`, and otherwise `z`.
- The stored depth is `(a - cam) . n * (|p'| / p' . n)`. This is the plane distance scaled by the ray length `|p'|`.
- Float division by zero raises in Python.
- A blank cell is `' '`. For a perspective camera, a face with `cos` in `[-1, -1/5.9]` gives a negative table position and so reads the table from the end (a Python negative index). A face with `cos` in `(-1/5.9, 0]` gives position 0, the first glyph `'.'`.

## Model

| member | source | states |
|---|---|---|
| Sequences.PyIndex | asciithree.py:64 | `vertices[i]` succeeds exactly for `-len <= i < len`; a negative index counts from the end; otherwise `IndexError` |
| Sequences.JsIndex | Typescript/src/builtins/shape.ts:26 | a JavaScript array read is defined exactly for `0 <= i < length` and is then the element |
| Sequences.PyIndexAgreesWithJsIndex | Typescript/src/builtins/shape.ts:26 | for non-negative indices the two languages' reads agree, error included |
| Sequences.Zip | Typescript/src/util.ts:8-13 | `zip(a, b)` has length `min(|a|, |b|)` |
| Sequences.ZipElements | Typescript/src/util.ts:9-12 | whichever branch runs, element `i` is `(a[i], b[i])`; the longer array's extra elements are dropped |
| Sequences.ZipSwap | Typescript/src/util.ts:8-13 | `zip(b, a)` is `zip(a, b)` with every pair swapped, although the two calls can take different branches |
| Sequences.ZipExamples | Typescript/test/utilTest.ts:7-21 | the three examples of the unit test |
| Numerics.Trunc | main.py:356 | `int(x)` truncates toward zero: it lies within 1 of `x` on the side of zero |
| Numerics.TruncMonotone | main.py:356 | truncation is monotone |
| Vectors.DivideByScalar | Typescript/src/math/vector.ts:105-111 | fails with division by zero exactly when the divisor is 0; otherwise scaling the result by the divisor gives the vector back |
| Vectors.SquareMagnitude | Typescript/src/math/vector.ts:66-68 | the squared length is non-negative and zero only for the zero vector |
| Vectors.MagnitudeLaws | Python/math_3d.py:109-110 | the length is non-negative, squares to the squared length, and is zero only for the zero vector |
| Vectors.DirectionLaws | Python/math_3d.py:112-117 | `direction()` of the zero vector is the zero vector (no error); any other vector is its direction times its positive length |
| VectorLaws.DotCommutes | Typescript/src/math/vector.ts:33-35 | the dot product is commutative |
| VectorLaws.DotWithZero | Typescript/test/vectorTest.ts:10-11 | the dot product with the zero vector is 0 on either side |
| VectorLaws.CrossIsOrthogonal | Typescript/src/math/vector.ts:42-48 | `a x b` is orthogonal to `a` and to `b` |
| VectorLaws.CrossAnticommutes | Typescript/test/vectorTest.ts:19-20 | `a x b = -(b x a)` |
| VectorLaws.CrossWithSelfOrZero | Typescript/test/vectorTest.ts:17-18 | `v x v`, `v x 0` and `0 x v` are the zero vector |
| VectorLaws.HadamardLaws | Typescript/src/math/vector.ts:55-61 | the elementwise product commutes, is annihilated by zero, keeps only `x` with `left` and is the identity with `UNIT_SCALING` |
| VectorLaws.SquareMagnitudeLaws | Typescript/test/vectorTest.ts:36-37 | the squared length is the self dot product, and 0 for the zero vector |
| VectorLaws.ScaleByZero | Typescript/test/vectorTest.ts:58 | scaling by 0 gives the zero vector |
| VectorLaws.ScaleThenDivide | Typescript/src/math/vector.ts:95-111 | dividing by 0 fails; for `k != 0`, scaling by `k` then dividing by `k` returns the vector |
| VectorLaws.NegComponents | Python/math_3d.py:148-149 | negation (multiplication by -1) negates each component |
| VectorLaws.SubComponents | Python/math_3d.py:133-137 | `a - b`, written as `a + -b`, subtracts componentwise |
| VectorLaws.AddZero | Typescript/test/vectorTest.ts:72 | adding the zero vector on either side returns the vector |
| VectorLaws.SubZero | Typescript/test/vectorTest.ts:75 | subtracting the zero vector returns the vector |
| VectorLaws.SubThenAdd | Python/math_3d.py:133-137 | `(a - b) + b = a` |
| VectorLaws.DirectionIsUnit | Typescript/src/math/vector.ts:76-88 | the direction of a non-zero vector has length 1 |
| Quaternions.NormSquared | Python/math_3d.py:59 | `real**2 + vec.square_magnitude()` is non-negative and zero only for the zero quaternion |
| Quaternions.DivideByScalar | Typescript/src/math/quaternion.ts:73-78 | division by a number fails exactly when the number is 0 |
| Quaternions.Inverse | Python/math_3d.py:58-59 | the inverse fails (through `1 / 0`) exactly for the zero quaternion |
| Quaternions.DivideBy | Typescript/src/math/quaternion.ts:130-132 | division by a quaternion fails exactly when the divisor is the zero quaternion |
| Quaternions.Rotate | Python/math_3d.py:124-125 | `rotate_by_quaternion` fails exactly for the zero quaternion |
| Quaternions.FromAxisAngleAsWritten | Python/math_3d.py:76-85 | real part `cos(angle/2)`; vector part the axis direction scaled by `sqrt(1 - cos^2)`, which is `|sin(angle/2)|` |
| Quaternions.FromAxisAngleAsWrittenTs | Typescript/src/math/quaternion.ts:47-54 | `fromAxisAngle`, scaling by `abs(sin(angle/2))`, equals the Python construction under a lawful math library |
| Quaternions.FromAxisAngle | Python/math_3d.py:77-79 | the rotation by `angle` about `axis` that the docstring describes: the direction scaled by `sin(angle/2)`, sign kept; no contract of its own, its laws are the `AxisAngleLaws.FromAxisAngle*` rows |
| Quaternions.RotateAboutAxis | Python/math_3d.py:119-122 | `rotate_about_axis`: rotation by the as-written `from_axis_angle`; no contract of its own, see `AxisAngleLaws.RotateAboutAxisByZero` and `AxisAngleLaws.AsWrittenOppositeIsNotInverse` |
| Quaternions.FromEulerAsWritten | Python/math_3d.py:61-72 | `from_euler` as written: `q_y * q_x * q_z` of as-written `from_axis_angle` factors; no contract of its own, see the `AxisAngleLaws.FromEulerAsWritten*` rows |
| Quaternions.FromEulerAsWrittenTs | Typescript/src/math/quaternion.ts:33-39 | `fromEuler` as written, from the `abs(sin)` construction, equals the Python `from_euler` under a lawful math library |
| Quaternions.FromEuler | Python/math_3d.py:63-66 | the corrected Euler rotation the docstring describes (z, then x, then y), built from the corrected construction; no contract of its own, see `AxisAngleLaws.FromEulerAbout*` |
| QuaternionLaws.MulComponents | Python/math_3d.py:32-37 | the Hamilton product written out in the sixteen component products |
| QuaternionLaws.MulAssociative | Python/math_3d.py:32-37 | the Hamilton product is associative, so `q_y * q_x * q_z` needs no brackets |
| QuaternionLaws.MulVectorIsMulPure | Python/math_3d.py:38-42 | `Quaternion * Vector3` is the product with the pure quaternion `(0, v)` |
| QuaternionLaws.IdentityIsUnit | Python/math_3d.py:32-37 | `IDENTITY` is a two-sided unit of the product |
| QuaternionLaws.MulByRealScales | Typescript/src/math/quaternion.ts:114-122 | a real quaternion `(r, 0)` times `q`, on either side, scales every component of `q` by `r` |
| QuaternionLaws.MulConjugate | Python/math_3d.py:58-59 | `q * conj(q)` and `conj(q) * q` are the real quaternion of the squared norm |
| QuaternionLaws.MixedArithmetic | Python/math_3d.py:10-30 | `__add__` with a vector or a number adds `(0, v)` or `(k, 0)`; `k - q` through `__rsub__` is `(k, 0) - q` |
| QuaternionLaws.DivideByScalarLaws | Typescript/src/math/quaternion.ts:73-78 | division by 0 fails; for `k != 0`, division undoes `multiplyByScalar(k)` |
| QuaternionLaws.NegComponents | Typescript/src/math/quaternion.ts:103-105 | `negate` negates all four components |
| QuaternionLaws.SubComponents | Typescript/src/math/quaternion.ts:96-98 | `subtract`, written as `add(negate)`, subtracts componentwise |
| QuaternionLaws.AddSubZero | Typescript/test/quaternionTest.ts:60-63 | adding or subtracting the zero quaternion returns `q` |
| QuaternionLaws.SubThenAdd | Typescript/src/math/quaternion.ts:87-98 | `(p - q) + q = p` |
| QuaternionLaws.InverseLaw | Typescript/src/math/quaternion.ts:134-146 | for non-zero `q`, `q * q.inverse()` and `q.inverse() * q` are `IDENTITY` |
| QuaternionLaws.InverseUnique | Python/math_3d.py:58-59 | a left inverse of a non-zero quaternion is its `inverse()` |
| QuaternionLaws.InverseInvolutive | Typescript/src/math/quaternion.ts:139-146 | the inverse of the inverse is the quaternion |
| QuaternionLaws.MulZero | Typescript/test/quaternionTest.ts:42 | multiplying by the zero quaternion gives zero |
| QuaternionLaws.DivideByExample | Typescript/test/quaternionTest.ts:45 | `(0,(0,2,3)) / (0,(1,0,0)) = (0,(0,-3,2))` |
| QuaternionLaws.RotateByIdentity | Python/math_3d.py:124-125 | rotating by `IDENTITY` returns the vector |
| QuaternionLaws.ConjugationIsPure | Python/math_3d.py:124-125 | `q * v * q^-1` has real part 0, so taking `.vec` loses nothing |
| QuaternionLaws.RotateRoundTrip | Python/math_3d.py:124-125 | for non-zero `q`, rotating by `q` and then by `q.inverse()` returns the vector |
| AxisAngleLaws.FromAxisAngleOfZero | Python/math_3d.py:76-85 | the rotation by angle 0 is `IDENTITY`, both for the intended and for the as-written construction |
| AxisAngleLaws.FromAxisAngleComposes | Python/math_3d.py:76-85 | rotations by `a` and by `b` about one axis compose to the rotation by `a + b` |
| AxisAngleLaws.FromAxisAngleOpposite | Python/math_3d.py:76-85 | the rotation by `-t` undoes the rotation by `t` |
| AxisAngleLaws.FromAxisAngleIsUnit | Python/math_3d.py:77-79 | about a non-zero axis, the intended rotation quaternion has norm 1 |
| AxisAngleLaws.AsWrittenIsUnit | Typescript/src/math/quaternion.ts:47-54 | about a non-zero axis, the as-written quaternion of both languages has norm 1: dropping the sign does not change the norm |
| AxisAngleLaws.AsWrittenIgnoresSign | Python/math_3d.py:80-85 | as written, the angles `t` and `-t` give the same quaternion |
| AxisAngleLaws.AsWrittenAgreesIff | Typescript/src/math/quaternion.ts:47-54 | as written, the construction is the intended one exactly when `sin(t/2) >= 0` |
| AxisAngleLaws.AsWrittenOppositeIsNotInverse | Python/math_3d.py:80-85 | as written, the rotation by `-t` does not undo the rotation by `t` when `sin(t/2)` and `cos(t/2)` are non-zero |
| AxisAngleLaws.FromEulerAsWrittenAboutX | Python/math_3d.py:61-72 | as written, `from_euler(t, 0, 0)` and `fromEuler(t, 0, 0)` are the as-written rotation by `t` about `LEFT`, for every `t` |
| AxisAngleLaws.FromEulerAsWrittenAboutY | Typescript/src/math/quaternion.ts:33-39 | as written, `fromEuler(0, t, 0)` and `from_euler(0, t, 0)` are the as-written rotation by `t` about `up` |
| AxisAngleLaws.FromEulerAsWrittenAboutZ | Typescript/src/math/quaternion.ts:33-39 | as written, `fromEuler(0, 0, t)` and `from_euler(0, 0, t)` are the as-written rotation by `t` about `forward` |
| AxisAngleLaws.FromEulerAsWrittenAgrees | Python/math_3d.py:61-72 | as written, `from_euler(x, y, z)` is the intended Euler rotation whenever `sin(x/2)`, `sin(y/2)` and `sin(z/2)` are all non-negative |
| AxisAngleLaws.FromEulerAsWrittenDiffers | Python/math_3d.py:68-72 | as written, `from_euler(t, 0, 0)` and `fromEuler(t, 0, 0)` differ from the intended rotation whenever `sin(t/2) < 0` |
| AxisAngleLaws.FromEulerAboutX | Python/math_3d.py:63-66 | the corrected Euler rotation with the other two angles zero is the rotation by `t` about `LEFT`, for every `t` |
| AxisAngleLaws.FromEulerAboutY | Python/math_3d.py:63-66 | the corrected Euler rotation with the other two angles zero is the rotation by `t` about `UP` |
| AxisAngleLaws.FromEulerAboutZ | Python/math_3d.py:63-66 | the corrected Euler rotation with the other two angles zero is the rotation by `t` about `FORWARD` |
| AxisAngleLaws.RotateAboutAxisByZero | Python/math_3d.py:119-122 | `rotate_about_axis` by angle 0 returns the vector |
| Meshes.LocationOfVertex | asciithree.py:70-71 | placing a vertex fails exactly when the rotation is the zero quaternion |
| Meshes.LocationAtRest | asciithree.py:70-71 | at the origin with no rotation and unit scaling a vertex stays where it is |
| Meshes.PlaceVertexTs | Typescript/src/builtins/shape.ts:26-30 | the TypeScript placement `elementwiseProduct(scaling).rotate(rotation).add(position)`, with `rotate` and `add` (which vector.ts does not define) taken as parameters; no contract of its own, see `Meshes.PlaceVertexAgrees` |
| Meshes.LocationOfVertexInverts | asciithree.py:70-71 | placement is scale, then rotate, then translate: untranslating and rotating back by the inverse gives the scaled vertex |
| Meshes.PlaceVertexAgrees | Typescript/src/builtins/shape.ts:26-30 | if the undefined `rotate` is `rotate_by_quaternion` and `add` is componentwise (`Meshes.IntendedMethods`), the TypeScript placement puts every vertex where the Python one does and fails exactly when it does |
| Meshes.PlaceVertexInRender | main.py:374-377 | the renderer's placement `(vertex * scaling).rotate_by_quaternion(rotation) + position`; no contract of its own, see `Meshes.PlaceVertexInRenderAgrees` |
| Meshes.PlaceVertexInRenderAgrees | main.py:389-395 | the renderer places every vertex where `location_of_vertex` does, and fails exactly when it does |
| Meshes.FaceNormalIsOrthogonal | asciithree.py:66 | a face normal is orthogonal to both edges `b - a` and `c - a` |
| Meshes.FaceNormalLength | asciithree.py:66 | a degenerate face has the zero normal; any other face has a unit normal |
| Meshes.FaceNormal | asciithree.py:66 | `((b - a) x (c - a)).direction()`; no contract of its own, see `Meshes.FaceNormalIsOrthogonal` and `Meshes.FaceNormalLength` |
| Meshes.PlacedTriangleFails | asciithree.py:64 | a triangle's corners can be placed exactly when the rotation is non-zero and all three indices are valid |
| Meshes.PlacedTriangleCorners | asciithree.py:64 | each placed corner is the location of the vertex its index selects |
| Meshes.CalculateNormals | asciithree.py:60-68 | one normal per triangle, in triangle order, each that triangle's normal; fails exactly when some triangle fails |
| Meshes.NormalIsFaceNormal | asciithree.py:63-68 | normal `i` is the face normal of triangle `i`'s placed corners |
| Meshes.NormalsAreOrthogonal | asciithree.py:63-68 | every stored normal is orthogonal to its triangle's edges, and zero for a degenerate triangle |
| Meshes.CalculateNormalsSucceedsIff | asciithree.py:60-68 | the normals can be computed exactly when every index is valid and the rotation is non-zero (or there are no triangles) |
| Meshes.NewShape | asciithree.py:44-58 | the constructor keeps mesh and placement, sets `hidden` false, stores one normal per triangle, normal `i` being the face normal of triangle `i`'s placed corners, and raises when the normals do |
| Meshes.TriangleCoords | Typescript/src/builtins/shape.ts:22-36 | one placed triple per triangle, in order; fails exactly when some triangle fails |
| Meshes.TriangleCoordsArePlaced | Typescript/src/builtins/shape.ts:26-30 | if the undefined vector methods mean what `Meshes.IntendedMethods` says, each coordinate is the vertex scaled, rotated and translated as `location_of_vertex` does it |
| Meshes.TsFaceNormalAgrees | Typescript/src/builtins/shape.ts:13-14 | with a componentwise `subtract` (undefined in vector.ts), the TypeScript face normal is the Python one |
| Meshes.TsFaceNormal | Typescript/src/builtins/shape.ts:13-14 | `b.subtract(a).crossProduct(c.subtract(a)).direction`, with `subtract` a parameter; no contract of its own, see `Meshes.TsFaceNormalAgrees` |
| Meshes.Normals | Typescript/src/builtins/shape.ts:9-20 | one normal per triangle; fails exactly when `triangleCoords` does |
| Meshes.TriangleCoordAgrees | Typescript/src/builtins/shape.ts:22-36 | with non-negative indices, and if the undefined `rotate` and `add` mean what `Meshes.IntendedMethods` says, both languages place a triangle's corners alike and fail alike |
| Meshes.NormalsFailTogether | Typescript/src/builtins/shape.ts:9-20 | with non-negative indices, and if the undefined vector methods mean what `Meshes.IntendedMethods` says, the TypeScript normals fail exactly when the Python ones do |
| Meshes.NormalsAgree | Typescript/src/builtins/shape.ts:9-20 | with non-negative indices, and if the undefined `rotate`, `add` and `subtract` mean what `Meshes.IntendedMethods` says, the TypeScript normals are the Python shape's normals |
| Meshes.CubeTable | asciithree.py:117-118 | the cube has 8 vertices and 12 triangles with indices in 0..7 |
| Meshes.TetrahedronTable | asciithree.py:123-124 | the tetrahedron has 4 vertices and 4 triangles with indices in 0..3 |
| Meshes.Cube | asciithree.py:115-119 | `Cube(position, rotation, scaling)`: the shape constructor on the cube's tables; no contract of its own, see `Meshes.BuiltinsSucceedIff` and `Meshes.CubeFacesPointOutward` |
| Meshes.Tetrahedron | asciithree.py:121-125 | `Tetrahedron(position, rotation, scaling)`: the shape constructor on the tetrahedron's tables; no contract of its own, see `Meshes.BuiltinsSucceedIff` and `Meshes.TetrahedronFacesPointOutward` |
| Meshes.CubeFacesPointOutward | asciithree.py:117-118 | every cube triangle is wound so that its right-hand normal points away from the centre |
| Meshes.TetrahedronFacesPointOutward | asciithree.py:123-124 | every tetrahedron triangle is wound outward |
| Meshes.BuiltinsSucceedIff | asciithree.py:115-125 | `Cube` and `Tetrahedron` raise exactly for the zero rotation, and then store 12 and 4 normals |
| ObjFiles.BeforeSlash | asciithree.py:101 | `tok.split("/")[0]` is the longest prefix of `tok` free of `/` |
| ObjFiles.Triangulate | asciithree.py:102-110 | a face has a triangulation exactly when it has three or four corners |
| ObjFiles.TriangulateUsesCorners | asciithree.py:102-108 | a face of `n` corners gives `n - 2` triangles made of its corners minus one, and every corner is used |
| ObjFiles.PyCorners | asciithree.py:101 | the face indices parse exactly when every token's index parses, one index per token, in order |
| ObjFiles.PyLine | asciithree.py:87-110 | one iteration of the `from_obj` loop; no contract of its own, see `ObjFiles.PyRejectsOtherFaces`, `ObjFiles.PyRejectsShortVertex` and `ObjFiles.SameLine` |
| ObjFiles.ReadAll | asciithree.py:86-110 | the `for` loop over the lines, stopping at the first line that raises; no contract of its own, see `ObjFiles.ReadAllAppend`, `ObjFiles.ReadAllSucceedsIff` and `ObjFiles.ReadAllFirstError` |
| ObjFiles.PyParse | asciithree.py:86-110 | the lists `from_obj` reads, `ReadAll` with `PyLine`; no contract of its own, see `ObjFiles.PyParseLines` and `ObjFiles.SameParse` |
| ObjFiles.ReadAllAppend | asciithree.py:87-110 | reading `a + b` is reading `a` and then `b`; the first error wins |
| ObjFiles.ReadAllSucceedsIff | asciithree.py:87-110 | reading succeeds exactly when every line can be read |
| ObjFiles.ReadAllFirstError | asciithree.py:87-110 | a failed read reports the error of the first unreadable line |
| ObjFiles.PyParseLines | asciithree.py:93-97 | blank, `#` and unknown-keyword lines can be removed without changing the result |
| ObjFiles.PyRejectsOtherFaces | asciithree.py:109-110 | a face of neither three nor four corners raises `ValueError` |
| ObjFiles.PyRejectsShortVertex | asciithree.py:98-99 | a `v` line with fewer than three coordinates raises `IndexError` |
| ObjFiles.TsLookup | Typescript/src/builtins/shape.ts:73 | `tokens[i]` is defined exactly below the length, and `undefined` past it |
| ObjFiles.TsCorners | Typescript/src/builtins/shape.ts:77 | one index per corner token, read before the first `/` |
| ObjFiles.TsLine | Typescript/src/builtins/shape.ts:63-92 | one iteration of the `fromObj` loop, which never throws; no contract of its own, see `ObjFiles.TsVertexLine` and `ObjFiles.TsDropsOtherFaces` |
| ObjFiles.TsParse | Typescript/src/builtins/shape.ts:62-93 | the vertex and triangle lists `fromObj` builds; no contract of its own, see `ObjFiles.TsParseAppend` and `ObjFiles.SameParse` |
| ObjFiles.TsParseAppend | Typescript/src/builtins/shape.ts:62-93 | reading `a + b` concatenates what `a` and `b` read |
| ObjFiles.TsVertexLine | Typescript/src/builtins/shape.ts:72-74 | a `v` line appends exactly one vertex, built from tokens 1..3, and no triangle |
| ObjFiles.TsDropsOtherFaces | Typescript/src/builtins/shape.ts:79-87 | a face of neither three nor four corners is dropped silently |
| ObjFiles.TsTrimIsRedundant | Typescript/src/builtins/shape.ts:63-64 | `trim` before a whitespace split changes no token |
| ObjFiles.SameTokens | asciithree.py:88-91 | on a line separated by plain spaces, both languages see the same tokens |
| ObjFiles.SameLine | asciithree.py:87-110 | where Python reads a line without raising, TypeScript reads the same thing |
| ObjFiles.SameParse | Typescript/src/builtins/shape.ts:62-93 | a plain-space file that Python reads gives TypeScript the same vertices and triangles |
| ObjFiles.PyShapeFromObj | asciithree.py:79-113 | `from_obj` succeeds exactly when the lines read and the normals can be computed; the shape holds the lists read |
| ObjFiles.TsShapeFromObj | Typescript/src/builtins/shape.ts:49-96 | `fromObj` builds a shape from the lists read, with the given placement and `hidden` flag |
| Projection.ScreenBasisIsOrthogonal | main.py:329-331 | the screen axes are orthogonal to the viewing direction and to each other |
| Projection.ScreenBasis | main.py:329-331 | `x = (b x up).direction()`, `y = (x x b).direction()`; no contract of its own, see `Projection.ScreenBasisIsOrthogonal` |
| Projection.Offset | main.py:336-342 | the offset fails only by division by zero: for a perspective camera when `|b|` or `(p - a) . b` is 0, for an orthographic one when `b` is zero |
| Projection.PerspectiveOffset | main.py:338-340 | the perspective offset fails exactly when `|b|` or `(p - a) . b` is 0 |
| Projection.OrthographicOffset | main.py:341-342 | the orthographic offset fails exactly when `b` is the zero vector |
| Projection.OrthographicOffsetIsOrthogonal | asciithree.py:207-208 | in orthographic mode `d_vec . b = 0` |
| Projection.PerspectiveOffsetIsOrthogonal | main.py:338-340 | in perspective mode `d_vec` also lies in the screen plane orthogonal to `b` |
| Projection.OrthographicOffsetOfParallel | main.py:341-342 | an orthographic camera gives a point on its line of sight the zero offset |
| Projection.PlaneCoordinates | main.py:344-354 | solving for `(u, v)` fails exactly when neither of the first two components of `x x y` reaches `1e-4` and the third is 0 |
| Projection.Cramer | main.py:346-354 | the component chosen is the first whose magnitude reaches `1e-4`, or `z`; only a zero `z` raises |
| Projection.PlaneCoordinatesRecover | main.py:344-354 | for `d = u x + v y`, the solve returns `(u, v)` |
| Projection.PlaneCoordinatesOfZero | main.py:344-354 | the zero offset has coordinates `(0, 0)` |
| Projection.CentredMonotone | main.py:356 | screen x grows with `u` and screen y falls as `v` grows (y is flipped) |
| Projection.HalfFloors | main.py:356 | `width // 2` floors, also for negative sizes |
| Projection.ToPixelCentre | main.py:356 | `(u, v) = (0, 0)` lands on `(width // 2, height // 2)` |
| Projection.ToPixel | main.py:356 | `(width // 2 + int(zoom * u), height // 2 - int(zoom * v))`; no contract of its own, see `Projection.CentredMonotone`, `Projection.HalfFloors` and `Projection.ToPixelCentre` |
| Projection.WorldToScreen | main.py:324-356 | projecting fails exactly when the offset or the solve divides by zero |
| Projection.OrthographicLineOfSight | asciithree.py:202-222 | an orthographic camera maps every point on its line of sight to the centre pixel |
| Projection.OrthographicScreenPoint | main.py:324-356 | an orthographic camera draws the point `a + u x + v y` at the pixel of `(u, v)` |
| Raster.ClearScreen | main.py:320-322 | `height` rows of `width` cells, every glyph `' '` and every depth `+inf` |
| Raster.InBoundsIsCell | main.py:275-277 | `_is_in_bounds` holds exactly for the cells of the grid |
| Raster.Edge | main.py:298-304 | the cross product `x_p[0]*x_q[1] - x_q[0]*x_p[1]`; no contract of its own, see `Raster.EdgeSwap` |
| Raster.Covered | main.py:306 | all three edge values `<= 0`, or all `>= 0`; no contract of its own, see `Raster.CoveredPermutation` and `Raster.CornersCovered` |
| Raster.EdgeSwap | main.py:302-304 | swapping an edge's ends negates its chirality value |
| Raster.CoveredPermutation | main.py:298-306 | the coverage test does not depend on the order of the corners |
| Raster.CornersCovered | main.py:298-306 | each projected corner passes the coverage test |
| Raster.BoundingBox | main.py:282-285 | the box holds all three corners and its bounds are corner coordinates |
| Raster.Shade | main.py:293-318 | drawing fails exactly when some in-bounds covered pixel of the box has no depth; it keeps the grid's shape |
| Raster.ShadeAt | main.py:293-318 | a cell changes exactly when it is in the box, covered and strictly closer, and then it takes the glyph and depth together |
| Raster.ShadeLeavesOthers | main.py:282-306 | a cell outside the box, or not covered, is unchanged |
| Raster.ShadeDepthNeverIncreases | main.py:316-318 | no depth increases, and a glyph changes only where the depth decreases |
| Raster.ShadeDraws | main.py:316-318 | a candidate pixel with a closer depth receives the triangle's glyph and depth |
| Raster.ShadeOrderIndependent | main.py:316-318 | for two triangles covering a cell, the nearer one's glyph and depth win in either order |
| Raster.ShadeRow | main.py:294-318 | the inner loop over one row computes that row of `Shade`, failing exactly where it does |
| Raster.ScanRows | main.py:293-318 | the outer loop over the box's rows fails exactly when `Shade` does, and otherwise computes the frame row by row |
| Raster.RenderTriangle | main.py:279-318 | `_render_triangle`'s pixel loops compute `Shade` |
| Rendering.ViewingNormal | main.py:362 | the viewing direction fails exactly for the zero camera rotation |
| Rendering.ViewingNormalAtRest | main.py:362 | an unrotated camera looks along `FORWARD` |
| Rendering.Facing | main.py:371 | the cosine fails exactly when the viewing direction has length 0; otherwise `cos * |vn| = -n . vn` |
| Rendering.FacingIsCosine | main.py:371 | for a normal of length at most 1 the cosine lies in `[-1, 1]` |
| Rendering.Skipped | main.py:374-384 | orthographic cameras skip `cos <= 0`; perspective cameras read and place the first corner, and fail exactly when that fails |
| Rendering.SkippedInPerspective | main.py:374-380 | a perspective camera skips exactly when `(corner - camera) . normal >= 0`, with the corner placed as `location_of_vertex` places it |
| Rendering.RenderCornersArePlaced | main.py:386-397 | the corners `render` places are those the normals were computed from, and fail for the same triangles |
| Rendering.RenderCorners | main.py:386-397 | `_triangle_index_to_triangle` and the placement of each corner; no contract of its own, see `Rendering.RenderCornersArePlaced` |
| Rendering.Glyph | main.py:399 | the glyph is an entry of `intensities`; a position past the table raises `IndexError` |
| Rendering.GlyphOfCosine | main.py:399 | a cosine in `[-1, 1]` gives a table position in `-5..5`, which never raises |
| Rendering.GlyphOfFrontFace | main.py:383-399 | for `0 < cos <= 1` the position lies in `0..5` and grows with `cos` |
| Rendering.GlyphHeadOn | main.py:7 | a face seen head-on gets `@` |
| Rendering.DepthFailsWhenParallel | main.py:314 | a pixel's depth raises exactly when its ray is parallel to the triangle's plane |
| Rendering.DepthIsDistanceToPlane | main.py:308-314 | otherwise the depth is the ray parameter where the ray meets the plane, times the ray's length, and that point lies on the plane |
| Rendering.DepthAt | main.py:308-314 | the depth formula at a pixel, `None` where it divides by zero; no contract of its own, see `Rendering.DepthFailsWhenParallel` and `Rendering.DepthIsDistanceToPlane` |
| Rendering.Projected | main.py:280 | projecting the three corners fails only by division by zero |
| Rendering.OrthographicBackFaceSkipped | main.py:381-384 | an orthographic camera draws nothing of a face with `cos <= 0` |
| Rendering.PerspectiveBackFaceSkipped | main.py:374-380 | a perspective camera draws nothing of a face whose plane it is not in front of, whatever the cosine |
| Rendering.DrawTriangleGlyphSafe | main.py:371-399 | a unit or zero normal never makes the glyph lookup raise |
| Rendering.DrawTriangle | main.py:371-399 | one face: cosine, skip test, corners, glyph, projection and scan, raising as the source does; the frame keeps the screen's size |
| Rendering.DrawFaces | main.py:370-399 | the loop over `zip(shape.triangles, shape.normals)`, ended by the first face that raises; the frame keeps the screen's size |
| Rendering.DrawShape | main.py:365-399 | a hidden shape leaves the frame unchanged, a visible one draws its faces; the frame keeps the screen's size |
| Rendering.Visible | main.py:365-367 | the visible shapes are exactly the shapes that are not hidden |
| Rendering.HiddenShapesInvisible | main.py:365-367 | drawing a scene is drawing its visible shapes: hidden shapes contribute nothing |
| Rendering.Render | main.py:358-401 | `render`: clear, find the viewing direction, draw the visible shapes in order; no contract of its own, see `Rendering.RenderIsScreenSized`, `Rendering.EmptySceneIsBlank` and `Rendering.RenderPalette` |
| Rendering.RenderNeedsRotation | main.py:358-362 | a camera with the zero rotation raises before drawing anything |
| Rendering.RenderIsScreenSized | main.py:358-401 | the rendered screen has `height` rows of `width` glyphs |
| Rendering.EmptySceneIsBlank | main.py:358-401 | a scene whose shapes are all hidden renders the cleared screen |
| Rendering.RenderPalette | main.py:358-401 | every rendered cell is `' '` or a glyph of `intensities` |
| Rendering.DrawTriangleScan | main.py:279-318 | one face drawn with the pixel loops agrees with the functional definition |
| Rendering.DrawFacesLoop | main.py:370-399 | the loop over `zip(shape.triangles, shape.normals)` agrees with the functional definition |
| Rendering.RenderScene | main.py:358-401 | the nested loops of `render` compute `Render` |
| Output.Doubled | asciithree.py:334 | each cell appears twice, side by side: the doubled row has twice the length and cells `2i`, `2i+1` are cell `i` |
| Output.Serialise | asciithree.py:332-336 | the file text: each row doubled and ended by `\n`; no contract of its own, see `Output.SerialiseLength` and `Output.ReadBack` |
| Output.WriteScreen | asciithree.py:332-336 | the loop over rows and `zip(row, row)` pairs builds the serialised screen |
| Output.SerialiseLength | asciithree.py:332-336 | the text has one line break per row plus two characters per cell |
| Output.UndoubleDoubled | asciithree.py:334 | keeping every other character of a doubled row gives the row back |
| Output.ReadBack | asciithree.py:332-336 | a screen with no line-break cell can be read back from the text: splitting at line breaks and halving gives the screen |
| Scenes.NewEnvironment | asciithree.py:278-292 | missing lists become empty lists, given lists are kept, and there is no main camera |
| Scenes.RenderEnvironment | asciithree.py:299-300 | with no main camera `render` raises; otherwise it is the camera's render of the shapes |
| Scenes.ShapeFromFile | asciithree.py:84-85 | a missing file raises; otherwise the shape is built from the file's lines |
| Scenes.PresetPath | asciithree.py:311 | the path is `presets/`, then the name, then `.obj` |
| Scenes.Create | asciithree.py:302-321 | the common body of the `create_*` methods: it raises exactly when the constructor does; otherwise it appends the new shape at the end, leaves the rest unchanged and returns the shape |
| Scenes.CreateCube | asciithree.py:313-316 | raises only for the zero rotation; otherwise appends the 12-triangle cube with the given placement and returns it |
| Scenes.CreateTetrahedron | asciithree.py:318-321 | raises only for the zero rotation; otherwise appends the 4-triangle tetrahedron and returns it |
| Scenes.CreateShapeFromFile | asciithree.py:302-305 | a missing file raises before anything is appended; otherwise the environment grows by the shape `from_obj` builds, exactly when it builds |
| Scenes.CreatePresetShape | asciithree.py:310-311 | the same as `create_shape_from_file` on `presets/<name>.obj` |
| Scenes.PopulateAppends | asciithree.py:302-321 | a sequence of `create_*` calls appends the shapes in call order after the existing ones, changes nothing else, and raises exactly when one call does, with that call's error |
| Scenes.RenderedFrameReadsBack | asciithree.py:324-338 | the file `main_loop` writes for a rendered frame reads back as that frame |
| Registry.Empty | Typescript/src/environment.ts:9-15 | a new environment has no shapes, cameras or lights and no main camera |
| Registry.AddShape | Typescript/src/environment.ts:29-31 | `addShape` appends at the end; cameras, lights and main camera are unchanged; the main-camera invariant is kept |
| Registry.AddLight | Typescript/src/environment.ts:51-53 | `addLight` appends at the end; shapes, cameras and main camera are unchanged |
| Registry.AddCamera | Typescript/src/environment.ts:39-44 | `addCamera` appends; the camera becomes main only when there was none |
| Registry.GetObjects | Typescript/src/environment.ts:60-65 | `getObjects` is the shapes, then the cameras, then the lights, each in insertion order |
| Registry.KindsOfAppend | Typescript/src/environment.ts:60-65 | sorting entities by kind distributes over concatenation |
| Registry.ObjectsByKind | Typescript/src/environment.ts:60-80 | the shapes, cameras and lights in `getObjects` are exactly `getShapes()`, the cameras and `getLights()` |
| Registry.ApplyAppends | Typescript/src/environment.ts:29-53 | one call appends its entity to the list of its kind and keeps the main-camera invariant |
| Registry.RunAppends | Typescript/src/environment.ts:29-53 | after any sequence of calls each list is its earlier contents followed by the entities of its kind, in call order |
| Registry.RunKeepsValid | Typescript/src/environment.ts:39-44 | every sequence of calls keeps the main camera equal to the first camera |
| Registry.MainCameraIsFirst | Typescript/src/environment.ts:13-44 | from a new environment, the main camera is undefined exactly while no camera has been added, and is then the first camera added |

## Findings

| source | as written | input that shows it | evidently intended | confidence | as-written member | corrected member |
|---|---|---|---|---|---|---|
| Python/math_3d.py:80-85 | the vector part of `from_axis_angle` is scaled by `sqrt(1 - cos(angle/2)**2)`, which is never negative | `angle = -pi/2` about `UP` gives the same quaternion as `angle = pi/2`, so `rotate_about_axis(v, axis, -t)` turns `v` the same way as `+t` | scale by `sin(angle/2)`, as the docstring's "rotation by angle around axis" requires, so that `-t` undoes `t` | high; not executed | AxisAngleLaws.AsWrittenOppositeIsNotInverse | AxisAngleLaws.FromAxisAngleOpposite |
| Typescript/src/math/quaternion.ts:47-54 | `fromAxisAngle` scales the vector part by `Math.abs(Math.sin(angle / 2))` | any angle with `sin(angle/2) < 0`, e.g. `-pi/2`, gives the rotation by `+pi/2` | scale by `Math.sin(angle / 2)` | high; not executed | AxisAngleLaws.AsWrittenAgreesIff | AxisAngleLaws.FromAxisAngleComposes |
| Python/math_3d.py:68-72 | `from_euler` composes three as-written `from_axis_angle` quaternions, so it inherits the dropped sign; `fromEuler` at Typescript/src/math/quaternion.ts:33-39 does the same with `abs` | `from_euler(-pi/2, 0, 0)` is the rotation by `+pi/2` about `LEFT`; every call in the program passes angles in `[0, 2 pi]`, where the two agree | build the three factors with the sign of `sin(angle/2)` kept | high; not executed | AxisAngleLaws.FromEulerAsWrittenDiffers | AxisAngleLaws.FromEulerAboutX |

The corrected constructions are `Quaternions.FromAxisAngle` and `Quaternions.FromEuler`. The as-written ones stay in the model as `Quaternions.FromAxisAngleAsWritten`, `Quaternions.FromEulerAsWritten` and their TypeScript twins. `Quaternions.RotateAboutAxis` uses the as-written construction, because it models `rotate_about_axis` itself. `AxisAngleLaws.FromEulerAsWrittenAgrees` shows the two Euler constructions agree on every angle the program passes.

## Left out

- create_custom_shape (asciithree.py:307-308): its directory `CUSTOM_SHAPES_DIR` comes from config.py, which is not part of this model. It only forwards to `create_shape_from_file`, which is modelled.
- `Environment.update`, `Shape.update` and the `Behavior` dispatch of asciithree.py: they are animation glue driven by timestamps. So is `Shape.rotate` of main.py.
- main.py's `Environment` builds a fixed camera in its constructor. The model follows asciithree.py's `Environment`, whose main camera starts as `None`.
- The infinite `while True` loops, `sleep` and the file writes of `main_loop` and the scripts. Only the text one frame becomes is modelled.
- Opening a file: `open(...).readlines()` is a parameter mapping a path to its lines or to nothing. `fetch` in `fromObj` is left out; the TypeScript reader starts from its lines.
- Number parsing: Python's `float()`/`int()` and JavaScript's `Number()` are parameters of the readers. The TypeScript face index text's `Number(...)` is narrowed to an `int`. A fractional or NaN value, whose index `value - 1` reads `undefined` from the vertex array, stands for any integer whose index lies outside the array, which fails the same way; the readers do not constrain the parameter to choose one.
- Meshes.PlaceVertexTs: Typescript/src/math/vector.ts defines no `rotate`, `add`, `subtract` or `negate`, yet shape.ts:13-14 and :28-29 and quaternion.ts:88 and :104 call them. The TypeScript placement and normals take `rotate`, `add` and `subtract` as parameters (`Meshes.TsVectorMethods`). Every agreement with the Python shape holds only under `Meshes.IntendedMethods`: `rotate` is `rotate_by_quaternion`, including its division by zero for the zero quaternion, and `add` and `subtract` are componentwise, as vectorTest.ts:67-78 expects. The TypeScript quaternion methods that call the missing vector methods are modelled with componentwise vector addition and negation as well: `add` (quaternion.ts:88), `negate` (:104), `multiply` (`add` at :119-120), and through it `divideBy` (:130), and `inverse` (`negate` at :145). The rows citing these TypeScript lines hold under that assumption; Python's `__add__`, `__mul__`, `__neg__` and `inverse` (math_3d.py) define the same operations.
- The TypeScript `Environment.render`, `index.ts`, `AsciiCamera.render` and the servers: canvas and HTTP I/O. The `getEnvironment` singleton is left out too, because object identity has no meaning over values.
- `as_tuple`, `as_int_tuple`, `toString`, `asArray`, `asAxisAngle` and `asEuler`: formatting, or unimplemented.
- `Quaternion.__add__` with any other type raises `Exception("Huh?")`, and `__rmul__`/`__radd__` only reorder their arguments. Dynamic type dispatch is not modelled; each typed case is a function of its own.
- IEEE-754 behaviour: rounding, NaN, infinities and the test tolerances. Arithmetic is exact over `real`, and `sqrt`, `sin`, `cos` satisfy only the stated laws.
- Rendering.FacingIsCosine: the bound `-1 <= cos <= 1` is proved for normals of length at most 1, the only normals `calculate_normals` produces. For other normals the glyph index can go past the table, as in the source.
- Projection.ToPixel: monotonicity is proved for the centring step (`Projection.CentredMonotone`) and for truncation (`Numerics.TruncMonotone`) separately, not for their composition with `zoom`.
- Projection.Cramer: the `1e-4` thresholds only decide which component is divided by. No numeric claim is made about how close to zero the skipped components are.
- The depth formula of main.py:314 is modelled exactly (`Rendering.DepthAt`). The only claims about it are that it fails for rays parallel to the plane and that it equals the ray parameter times the ray length. Depth ordering between different rays is not claimed.
- Scenes.RenderEnvironment: a Python `Camera` keeps the environment it was built with (asciithree.py:135) and `render` draws that environment's shapes (asciithree.py:231). The model draws the shapes of the environment whose `render` is called, so it assumes the main camera was built with that same environment, as Python/main_engine.py:13-38 and main.py:414-424 do. A camera wired to a different environment is not modelled.
- Scenes.NewEnvironment: `Environment(shapes)` stores the caller's list itself (asciithree.py:279), so a later `create_*` call also grows the caller's list. Lists are values in the model, and this sharing is not modelled.
- Text.PySpace and Text.JsSpace: the two whitespace sets are fixed code-point lists, Python's `str.isspace` and ECMAScript's WhiteSpace and LineTerminator. Changes in later Unicode versions are not followed. Splitting the TypeScript file contents at `\r?\n` happens before the modelled loop and is left out with `fetch`.
- Raster.Shade: degenerate triangles (collinear projected corners) are drawn exactly as the closed coverage test dictates. No claim is made about which pixels that covers.
