/** Triangle meshes: vertex placement, face normals and the built-in shapes.

    Python's `Shape` (asciithree.py) computes its normals once, when it is built;
    TypeScript's `PolyShape` (Typescript/src/builtins/shape.ts) recomputes them from
    `triangleCoords` on every read.  Both place a vertex by scaling it elementwise,
    rotating it and then translating it, and both take the normal of a face `(a, b, c)` to
    be the direction of `(b - a) x (c - a)`.  The TypeScript side calls `Vector3` methods
    that Typescript/src/math/vector.ts does not define, so its functions take them as a
    parameter, and its agreement with the Python side is stated under `IntendedMethods`. */
module Meshes {
  import opened Wrappers
  import opened Numerics
  import opened Sequences
  import V = Vectors
  import VectorLaws
  import Q = Quaternions
  import QuaternionLaws

  /** Three vertex indices; the face's front side follows the right-hand rule. */
  type Triangle = (int, int, int)

  /** A vertex table and the triangles indexing into it. */
  datatype Mesh = Mesh(vertices: seq<V.Vector3>, triangles: seq<Triangle>)

  /** Where an object sits in the world: `Object_3D`'s position, rotation and scaling. */
  datatype Placement = Placement(position: V.Vector3, rotation: Q.Quaternion, scaling: V.Vector3)

  /** Python's `Shape`: the mesh, its placement, `hidden`, and the normals computed when it
      was built (one per triangle). */
  datatype Shape = Shape(mesh: Mesh, placement: Placement, hidden: bool, normals: seq<V.Vector3>)

  /** TypeScript's `PolyShape`, whose normals are derived on demand. */
  datatype PolyShape = PolyShape(mesh: Mesh, placement: Placement, hidden: bool)

  /** `location_of_vertex`: `position + (vertex * scaling).rotate_by_quaternion(rotation)`.
      It fails only when the rotation is the zero quaternion, whose inverse does not exist. */
  function LocationOfVertex(p: Placement, vertex: V.Vector3): (r: Result<V.Vector3>)
    ensures r.Failure? <==> p.rotation == Q.ZeroQuaternion
  {
    var rotated :- Q.Rotate(V.Hadamard(vertex, p.scaling), p.rotation);
    Success(V.Add(p.position, rotated))
  }

  /** An object at the origin with no rotation and unit scaling leaves its vertices where
      they are. */
  lemma LocationAtRest(vertex: V.Vector3)
    ensures LocationOfVertex(Placement(V.Zero, Q.Identity, V.UnitScaling), vertex) == Success(vertex)
  {
    VectorLaws.HadamardLaws(vertex, V.UnitScaling);
    QuaternionLaws.RotateByIdentity(vertex);
    VectorLaws.AddZero(vertex);
  }

  /** Placing a vertex is undone by un-translating, rotating back by the inverse and
      dividing out the scaling: scale, rotate and translate are applied in that order. */
  lemma LocationOfVertexInverts(p: Placement, vertex: V.Vector3)
    requires p.rotation != Q.ZeroQuaternion
    ensures Q.Rotate(V.Sub(LocationOfVertex(p, vertex).value, p.position), Q.Inverse(p.rotation).value)
            == Success(V.Hadamard(vertex, p.scaling))
  {
    var scaled := V.Hadamard(vertex, p.scaling);
    var rotated := Q.Rotate(scaled, p.rotation).value;
    assert LocationOfVertex(p, vertex).value == V.Add(p.position, rotated);
    VectorLaws.AddCommutes(p.position, rotated);
    VectorLaws.SubThenAdd(rotated, p.position);
    AddCancels(rotated, p.position);
    QuaternionLaws.RotateRoundTrip(scaled, p.rotation);
  }

  lemma AddCancels(a: V.Vector3, b: V.Vector3)
    ensures V.Sub(V.Add(b, a), b) == a
  {
    VectorLaws.SubComponents(V.Add(b, a), b);
  }

  /** The renderer's placement of a vertex, `(vertex * scaling).rotate_by_quaternion(rotation)
      + position`: the same terms as `location_of_vertex`, added the other way round. */
  function PlaceVertexInRender(p: Placement, vertex: V.Vector3): Result<V.Vector3> {
    var rotated :- Q.Rotate(V.Hadamard(vertex, p.scaling), p.rotation);
    Success(V.Add(rotated, p.position))
  }

  /** The renderer places a vertex where the shape's own `location_of_vertex` does. */
  lemma PlaceVertexInRenderAgrees(p: Placement, vertex: V.Vector3)
    ensures PlaceVertexInRender(p, vertex) == LocationOfVertex(p, vertex)
  {
    if p.rotation != Q.ZeroQuaternion {
      VectorLaws.AddCommutes(Q.Rotate(V.Hadamard(vertex, p.scaling), p.rotation).value, p.position);
    }
  }

  /** The three `Vector3` methods that shape.ts calls but Typescript/src/math/vector.ts
      does not define: `rotate(q)`, `add(w)` and `subtract(w)`.  The TypeScript placement
      and normals below are stated for any meaning of them. */
  datatype TsVectorMethods = TsVectorMethods(
    rotate: (V.Vector3, Q.Quaternion) -> Result<V.Vector3>,
    add: (V.Vector3, V.Vector3) -> V.Vector3,
    subtract: (V.Vector3, V.Vector3) -> V.Vector3)

  /** The meaning the agreement lemmas assume for the missing methods: `rotate` is Python's
      `rotate_by_quaternion` (`q v q^-1`, failing with a division by zero for the zero
      quaternion), and `add` and `subtract` are componentwise, as vectorTest.ts:67-78
      expects of them. */
  ghost predicate IntendedMethods(ts: TsVectorMethods) {
    && (forall v, q :: ts.rotate(v, q) == Q.Rotate(v, q))
    && (forall a, b :: ts.add(a, b) == V.Add(a, b))
    && (forall a, b :: ts.subtract(a, b) == V.Sub(a, b))
  }

  /** The TypeScript placement `v.elementwiseProduct(scaling).rotate(rotation).add(position)`,
      through whatever `rotate` and `add` mean. */
  function PlaceVertexTs(ts: TsVectorMethods, p: Placement, vertex: V.Vector3): Result<V.Vector3> {
    var rotated :- ts.rotate(V.Hadamard(vertex, p.scaling), p.rotation);
    Success(ts.add(rotated, p.position))
  }

  /** If the missing `rotate` and `add` mean `rotate_by_quaternion` and componentwise
      addition, the TypeScript placement puts every vertex where the Python one does, and
      fails exactly when it does. */
  lemma PlaceVertexAgrees(ts: TsVectorMethods, p: Placement, vertex: V.Vector3)
    requires IntendedMethods(ts)
    ensures PlaceVertexTs(ts, p, vertex) == LocationOfVertex(p, vertex)
  {
    var scaled := V.Hadamard(vertex, p.scaling);
    assert ts.rotate(scaled, p.rotation) == Q.Rotate(scaled, p.rotation);
    if p.rotation != Q.ZeroQuaternion {
      var rotated := Q.Rotate(scaled, p.rotation).value;
      assert ts.add(rotated, p.position) == V.Add(rotated, p.position);
    }
    PlaceVertexInRenderAgrees(p, vertex);
  }

  /** The normal of a face with corners `a`, `b`, `c`: `((b - a) x (c - a)).direction()`. */
  function FaceNormal(m: MathLib, a: V.Vector3, b: V.Vector3, c: V.Vector3): V.Vector3 {
    V.Direction(m, V.Cross(V.Sub(b, a), V.Sub(c, a)))
  }

  lemma DotOfScale(d: V.Vector3, k: real, e: V.Vector3)
    ensures V.Dot(V.Scale(d, k), e) == k * V.Dot(d, e)
  {
  }

  /** A vector that becomes orthogonal to `e` once scaled by a non-zero factor was already
      orthogonal to it. */
  lemma OrthogonalUnscaled(d: V.Vector3, k: real, e: V.Vector3)
    requires k != 0.0 && V.Dot(V.Scale(d, k), e) == 0.0
    ensures V.Dot(d, e) == 0.0
  {
    DotOfScale(d, k, e);
    ZeroProduct(k, V.Dot(d, e));
  }

  /** A direction is orthogonal to whatever its vector is orthogonal to. */
  lemma DirectionKeepsOrthogonality(m: MathLib, v: V.Vector3, e: V.Vector3)
    requires m.Lawful() && V.Dot(v, e) == 0.0
    ensures V.Dot(V.Direction(m, v), e) == 0.0
  {
    V.DirectionLaws(m, v);
    if v != V.Zero {
      OrthogonalUnscaled(V.Direction(m, v), V.Magnitude(m, v), e);
    }
  }

  /** A face normal is orthogonal to both edges leaving `a`. */
  lemma FaceNormalIsOrthogonal(m: MathLib, a: V.Vector3, b: V.Vector3, c: V.Vector3)
    requires m.Lawful()
    ensures V.Dot(FaceNormal(m, a, b, c), V.Sub(b, a)) == 0.0
    ensures V.Dot(FaceNormal(m, a, b, c), V.Sub(c, a)) == 0.0
  {
    var e1, e2 := V.Sub(b, a), V.Sub(c, a);
    VectorLaws.CrossIsOrthogonal(e1, e2);
    DirectionKeepsOrthogonality(m, V.Cross(e1, e2), e1);
    DirectionKeepsOrthogonality(m, V.Cross(e1, e2), e2);
  }

  /** A degenerate face (collinear corners) has the zero normal; any other face has a
      unit normal. */
  lemma FaceNormalLength(m: MathLib, a: V.Vector3, b: V.Vector3, c: V.Vector3)
    requires m.Lawful()
    ensures V.Cross(V.Sub(b, a), V.Sub(c, a)) == V.Zero ==> FaceNormal(m, a, b, c) == V.Zero
    ensures V.Cross(V.Sub(b, a), V.Sub(c, a)) != V.Zero ==> V.SquareMagnitude(FaceNormal(m, a, b, c)) == 1.0
  {
    var cr := V.Cross(V.Sub(b, a), V.Sub(c, a));
    V.DirectionLaws(m, cr);
    if cr != V.Zero {
      VectorLaws.DirectionIsUnit(m, cr);
    }
  }

  /** The placed corners of a triangle, as the list comprehension of `calculate_normals`
      reads them: index `t.0` through `vertices[i]` (negative indices count from the end)
      and place it, then `t.1`, then `t.2`.  Placing fails only for the zero rotation, so
      after the first index that failure is the only one placing can add. */
  function PlacedTriangle(p: Placement, vertices: seq<V.Vector3>, t: Triangle): Result<(V.Vector3, V.Vector3, V.Vector3)> {
    var va :- PyIndex(vertices, t.0);
    if p.rotation == Q.ZeroQuaternion then Failure(DivisionByZero)
    else
      var vb :- PyIndex(vertices, t.1);
      var vc :- PyIndex(vertices, t.2);
      Success((LocationOfVertex(p, va).value, LocationOfVertex(p, vb).value, LocationOfVertex(p, vc).value))
  }

  /** The corners of a triangle can be placed exactly when the rotation is non-zero and
      all three indices are valid Python indices. */
  lemma PlacedTriangleFails(p: Placement, vertices: seq<V.Vector3>, t: Triangle)
    ensures PlacedTriangle(p, vertices, t).Failure? <==>
            || p.rotation == Q.ZeroQuaternion || PyIndex(vertices, t.0).Failure?
            || PyIndex(vertices, t.1).Failure? || PyIndex(vertices, t.2).Failure?
  {
  }

  /** Each placed corner is the location of the vertex its index selects. */
  lemma PlacedTriangleCorners(p: Placement, vertices: seq<V.Vector3>, t: Triangle)
    requires PlacedTriangle(p, vertices, t).Success?
    ensures var r := PlacedTriangle(p, vertices, t).value;
            && LocationOfVertex(p, PyIndex(vertices, t.0).value) == Success(r.0)
            && LocationOfVertex(p, PyIndex(vertices, t.1).value) == Success(r.1)
            && LocationOfVertex(p, PyIndex(vertices, t.2).value) == Success(r.2)
  {
  }

  /** The normal `calculate_normals` appends for one triangle. */
  function TriangleNormal(m: MathLib, p: Placement, vertices: seq<V.Vector3>, t: Triangle): Result<V.Vector3> {
    var corners :- PlacedTriangle(p, vertices, t);
    Success(FaceNormal(m, corners.0, corners.1, corners.2))
  }

  /** `calculate_normals`: one normal per triangle, in triangle order.  It fails, as the
      loop raises, as soon as one triangle fails. */
  function CalculateNormals(m: MathLib, p: Placement, mesh: Mesh): (r: Result<seq<V.Vector3>>)
    decreases |mesh.triangles|
    ensures r.Success? ==> |r.value| == |mesh.triangles|
    ensures r.Success? ==> forall i :: 0 <= i < |mesh.triangles| ==>
              TriangleNormal(m, p, mesh.vertices, mesh.triangles[i]) == Success(r.value[i])
    ensures r.Failure? <==> exists i :: (0 <= i < |mesh.triangles| &&
              TriangleNormal(m, p, mesh.vertices, mesh.triangles[i]).Failure?)
  {
    if |mesh.triangles| == 0 then Success([])
    else
      var first := TriangleNormal(m, p, mesh.vertices, mesh.triangles[0]);
      var rest := CalculateNormals(m, p, Mesh(mesh.vertices, mesh.triangles[1..]));
      if first.Failure? then Failure(first.error)
      else if rest.Failure? then
        assert exists i :: (0 <= i < |mesh.triangles| - 1 &&
          TriangleNormal(m, p, mesh.vertices, mesh.triangles[1..][i]).Failure?);
        Failure(rest.error)
      else
        assert forall i :: 1 <= i < |mesh.triangles| ==> mesh.triangles[i] == mesh.triangles[1..][i - 1];
        Success([first.value] + rest.value)
  }

  /** Normal `i` is the face normal of triangle `i`'s placed corners. */
  lemma NormalIsFaceNormal(m: MathLib, p: Placement, mesh: Mesh, i: int)
    requires CalculateNormals(m, p, mesh).Success? && 0 <= i < |mesh.triangles|
    ensures PlacedTriangle(p, mesh.vertices, mesh.triangles[i]).Success?
    ensures var abc := PlacedTriangle(p, mesh.vertices, mesh.triangles[i]).value;
            CalculateNormals(m, p, mesh).value[i] == FaceNormal(m, abc.0, abc.1, abc.2)
  {
    assert TriangleNormal(m, p, mesh.vertices, mesh.triangles[i]) == Success(CalculateNormals(m, p, mesh).value[i]);
  }

  /** Every normal `calculate_normals` computes is orthogonal to both edges of its placed
      triangle, and it is zero for a degenerate triangle. */
  lemma {:induction false} NormalsAreOrthogonal(m: MathLib, p: Placement, mesh: Mesh, i: int)
    requires m.Lawful()
    requires CalculateNormals(m, p, mesh).Success? && 0 <= i < |mesh.triangles|
    ensures PlacedTriangle(p, mesh.vertices, mesh.triangles[i]).Success?
    ensures var abc := PlacedTriangle(p, mesh.vertices, mesh.triangles[i]).value;
            var n := CalculateNormals(m, p, mesh).value[i];
            && V.Dot(n, V.Sub(abc.1, abc.0)) == 0.0
            && V.Dot(n, V.Sub(abc.2, abc.0)) == 0.0
            && (V.Cross(V.Sub(abc.1, abc.0), V.Sub(abc.2, abc.0)) == V.Zero ==> n == V.Zero)
  {
    NormalIsFaceNormal(m, p, mesh, i);
    var abc := PlacedTriangle(p, mesh.vertices, mesh.triangles[i]).value;
    var a, b, c := abc.0, abc.1, abc.2;
    FaceNormalIsOrthogonal(m, a, b, c);
    FaceNormalLength(m, a, b, c);
  }

  /** A triangle's normal can be computed exactly when the rotation is not zero and its
      three indices are valid Python indices. */
  predicate IndicesValid(vertices: seq<V.Vector3>, triangles: seq<Triangle>) {
    forall i :: 0 <= i < |triangles| ==>
      && -|vertices| <= triangles[i].0 < |vertices|
      && -|vertices| <= triangles[i].1 < |vertices|
      && -|vertices| <= triangles[i].2 < |vertices|
  }

  /** `calculate_normals` succeeds exactly when the rotation is non-zero (or there are
      no triangles) and every index is valid. */
  lemma CalculateNormalsSucceedsIff(m: MathLib, p: Placement, mesh: Mesh)
    ensures CalculateNormals(m, p, mesh).Success? <==>
            IndicesValid(mesh.vertices, mesh.triangles) &&
            (|mesh.triangles| == 0 || p.rotation != Q.ZeroQuaternion)
  {
    if !CalculateNormals(m, p, mesh).Success? {
      var i :| 0 <= i < |mesh.triangles| && TriangleNormal(m, p, mesh.vertices, mesh.triangles[i]).Failure?;
      assert PlacedTriangle(p, mesh.vertices, mesh.triangles[i]).Failure?;
    } else if |mesh.triangles| > 0 {
      assert TriangleNormal(m, p, mesh.vertices, mesh.triangles[0]).Success?;
      forall i | 0 <= i < |mesh.triangles|
        ensures -|mesh.vertices| <= mesh.triangles[i].0 < |mesh.vertices|
        ensures -|mesh.vertices| <= mesh.triangles[i].1 < |mesh.vertices|
        ensures -|mesh.vertices| <= mesh.triangles[i].2 < |mesh.vertices|
      {
        assert PlacedTriangle(p, mesh.vertices, mesh.triangles[i]).Success?;
      }
    }
  }

  /** `Shape.__init__`: the mesh and placement with `hidden` false and the normals
      computed; it raises whatever `calculate_normals` raises. */
  function NewShape(m: MathLib, mesh: Mesh, p: Placement): (r: Result<Shape>)
    ensures r.Success? <==> CalculateNormals(m, p, mesh).Success?
    ensures r.Success? ==> && r.value.mesh == mesh && r.value.placement == p
                           && !r.value.hidden && |r.value.normals| == |mesh.triangles|
    ensures r.Success? ==> forall i :: 0 <= i < |mesh.triangles| ==>
              TriangleNormal(m, p, mesh.vertices, mesh.triangles[i]) == Success(r.value.normals[i])
  {
    var normals :- CalculateNormals(m, p, mesh);
    Success(Shape(mesh, p, false, normals))
  }

  // ---------------------------------------------------------------- TypeScript PolyShape

  /** The placed corners of one triangle as `triangleCoords` builds them: all three
      vertices are looked up (a missing one throws) before any is placed. */
  function TriangleCoord(ts: TsVectorMethods, p: Placement, vertices: seq<V.Vector3>, t: Triangle): Result<(V.Vector3, V.Vector3, V.Vector3)> {
    var va :- JsIndex(vertices, t.0);
    var vb :- JsIndex(vertices, t.1);
    var vc :- JsIndex(vertices, t.2);
    var a :- PlaceVertexTs(ts, p, va);
    var b :- PlaceVertexTs(ts, p, vb);
    var c :- PlaceVertexTs(ts, p, vc);
    Success((a, b, c))
  }

  /** `triangleCoords`: one placed triple per triangle, in order. */
  function TriangleCoords(ts: TsVectorMethods, s: PolyShape): (r: Result<seq<(V.Vector3, V.Vector3, V.Vector3)>>)
    decreases |s.mesh.triangles|
    ensures r.Success? ==> |r.value| == |s.mesh.triangles|
    ensures r.Success? ==> forall i :: 0 <= i < |s.mesh.triangles| ==>
              TriangleCoord(ts, s.placement, s.mesh.vertices, s.mesh.triangles[i]) == Success(r.value[i])
    ensures r.Failure? <==> exists i :: (0 <= i < |s.mesh.triangles| &&
              TriangleCoord(ts, s.placement, s.mesh.vertices, s.mesh.triangles[i]).Failure?)
  {
    var tris := s.mesh.triangles;
    if |tris| == 0 then Success([])
    else
      var first := TriangleCoord(ts, s.placement, s.mesh.vertices, tris[0]);
      var rest := TriangleCoords(ts, s.(mesh := Mesh(s.mesh.vertices, tris[1..])));
      if first.Failure? then Failure(first.error)
      else if rest.Failure? then
        assert exists i :: (0 <= i < |tris| - 1 &&
          TriangleCoord(ts, s.placement, s.mesh.vertices, tris[1..][i]).Failure?);
        Failure(rest.error)
      else
        assert forall i :: 1 <= i < |tris| ==> tris[i] == tris[1..][i - 1];
        Success([first.value] + rest.value)
  }

  /** If the missing methods mean what `IntendedMethods` says, each coordinate triple is the
      three vertices scaled, rotated and translated. */
  lemma TriangleCoordsArePlaced(ts: TsVectorMethods, s: PolyShape, i: int)
    requires IntendedMethods(ts)
    requires TriangleCoords(ts, s).Success? && 0 <= i < |s.mesh.triangles|
    ensures var t := s.mesh.triangles[i];
            var abc := TriangleCoords(ts, s).value[i];
            && 0 <= t.0 < |s.mesh.vertices| && 0 <= t.1 < |s.mesh.vertices| && 0 <= t.2 < |s.mesh.vertices|
            && LocationOfVertex(s.placement, s.mesh.vertices[t.0]) == Success(abc.0)
            && LocationOfVertex(s.placement, s.mesh.vertices[t.1]) == Success(abc.1)
            && LocationOfVertex(s.placement, s.mesh.vertices[t.2]) == Success(abc.2)
  {
    var t := s.mesh.triangles[i];
    assert TriangleCoord(ts, s.placement, s.mesh.vertices, t).Success?;
    PlaceVertexAgrees(ts, s.placement, s.mesh.vertices[t.0]);
    PlaceVertexAgrees(ts, s.placement, s.mesh.vertices[t.1]);
    PlaceVertexAgrees(ts, s.placement, s.mesh.vertices[t.2]);
  }

  /** The TypeScript face normal `b.subtract(a).crossProduct(c.subtract(a)).direction`. */
  function TsFaceNormal(m: MathLib, ts: TsVectorMethods, a: V.Vector3, b: V.Vector3, c: V.Vector3): V.Vector3 {
    V.Direction(m, V.Cross(ts.subtract(b, a), ts.subtract(c, a)))
  }

  /** With a componentwise `subtract`, the TypeScript face normal is the Python one. */
  lemma TsFaceNormalAgrees(m: MathLib, ts: TsVectorMethods, a: V.Vector3, b: V.Vector3, c: V.Vector3)
    requires IntendedMethods(ts)
    ensures TsFaceNormal(m, ts, a, b, c) == FaceNormal(m, a, b, c)
  {
    assert ts.subtract(b, a) == V.Sub(b, a);
    assert ts.subtract(c, a) == V.Sub(c, a);
  }

  /** The `normals` getter: the face normal of each coordinate triple. */
  function Normals(m: MathLib, ts: TsVectorMethods, s: PolyShape): (r: Result<seq<V.Vector3>>)
    ensures r.Success? <==> TriangleCoords(ts, s).Success?
    ensures r.Success? ==> |r.value| == |s.mesh.triangles|
  {
    var coords :- TriangleCoords(ts, s);
    Success(seq(|coords|, i requires 0 <= i < |coords| => TsFaceNormal(m, ts, coords[i].0, coords[i].1, coords[i].2)))
  }

  /** With non-negative indices, and the missing methods meaning what `IntendedMethods`
      says, both implementations place a triangle's corners at the same points, and fail
      on the same triangles. */
  lemma TriangleCoordAgrees(ts: TsVectorMethods, p: Placement, vs: seq<V.Vector3>, t: Triangle)
    requires IntendedMethods(ts)
    requires t.0 >= 0 && t.1 >= 0 && t.2 >= 0
    ensures TriangleCoord(ts, p, vs, t).Success? <==> PlacedTriangle(p, vs, t).Success?
    ensures TriangleCoord(ts, p, vs, t).Success? ==> TriangleCoord(ts, p, vs, t) == PlacedTriangle(p, vs, t)
  {
    PyIndexAgreesWithJsIndex(vs, t.0);
    PyIndexAgreesWithJsIndex(vs, t.1);
    PyIndexAgreesWithJsIndex(vs, t.2);
    if 0 <= t.0 < |vs| && 0 <= t.1 < |vs| && 0 <= t.2 < |vs| {
      PlaceVertexAgrees(ts, p, vs[t.0]);
      PlaceVertexAgrees(ts, p, vs[t.1]);
      PlaceVertexAgrees(ts, p, vs[t.2]);
    }
  }

  /** All indices of the mesh are non-negative. */
  predicate NonNegativeIndices(ts: seq<Triangle>) {
    forall i :: 0 <= i < |ts| ==> ts[i].0 >= 0 && ts[i].1 >= 0 && ts[i].2 >= 0
  }

  /** On meshes whose indices are all non-negative, and with the missing methods meaning
      what `IntendedMethods` says, the TypeScript normals fail exactly when the Python ones
      do. */
  lemma NormalsFailTogether(m: MathLib, ts: TsVectorMethods, s: PolyShape)
    requires IntendedMethods(ts)
    requires NonNegativeIndices(s.mesh.triangles)
    ensures Normals(m, ts, s).Success? <==> CalculateNormals(m, s.placement, s.mesh).Success?
  {
    var vs, tris := s.mesh.vertices, s.mesh.triangles;
    if Normals(m, ts, s).Success? {
      if CalculateNormals(m, s.placement, s.mesh).Failure? {
        var i :| 0 <= i < |tris| && TriangleNormal(m, s.placement, vs, tris[i]).Failure?;
        TriangleCoordAgrees(ts, s.placement, vs, tris[i]);
      }
    } else {
      var i :| 0 <= i < |tris| && TriangleCoord(ts, s.placement, vs, tris[i]).Failure?;
      TriangleCoordAgrees(ts, s.placement, vs, tris[i]);
      assert TriangleNormal(m, s.placement, vs, tris[i]).Failure?;
    }
  }

  /** On meshes whose indices are all non-negative, and with the missing methods meaning
      what `IntendedMethods` says, the TypeScript normals are exactly the normals the
      Python shape stores. */
  lemma NormalsAgree(m: MathLib, ts: TsVectorMethods, s: PolyShape)
    requires IntendedMethods(ts)
    requires NonNegativeIndices(s.mesh.triangles)
    requires Normals(m, ts, s).Success?
    ensures Normals(m, ts, s) == CalculateNormals(m, s.placement, s.mesh)
  {
    NormalsFailTogether(m, ts, s);
    var vs, tris := s.mesh.vertices, s.mesh.triangles;
    var a, b := Normals(m, ts, s).value, CalculateNormals(m, s.placement, s.mesh).value;
    var coords := TriangleCoords(ts, s).value;
    forall i | 0 <= i < |a| ensures a[i] == b[i] {
      TriangleCoordAgrees(ts, s.placement, vs, tris[i]);
      assert TriangleCoord(ts, s.placement, vs, tris[i]) == Success(coords[i]);
      assert PlacedTriangle(s.placement, vs, tris[i]) == Success(coords[i]);
      assert TriangleNormal(m, s.placement, vs, tris[i]) == Success(b[i]);
      TsFaceNormalAgrees(m, ts, coords[i].0, coords[i].1, coords[i].2);
    }
    assert a == b;
  }

  // ---------------------------------------------------------------- built-in shapes

  /** The unit cube's corners `(+-1, +-1, +-1)`, in the order of `Cube.__init__`. */
  function CubeVertices(): seq<V.Vector3> {
    [
    V.Vector3(-1.0, -1.0, -1.0), V.Vector3(-1.0, -1.0, 1.0), V.Vector3(-1.0, 1.0, -1.0), V.Vector3(-1.0, 1.0, 1.0),
    V.Vector3(1.0, -1.0, -1.0), V.Vector3(1.0, -1.0, 1.0), V.Vector3(1.0, 1.0, -1.0), V.Vector3(1.0, 1.0, 1.0)]
  }

  /** Two triangles for each of the six faces. */
  const CubeTriangles: seq<Triangle> := [
    (0, 1, 3), (0, 3, 2), (0, 4, 5), (0, 5, 1), (0, 2, 6), (0, 6, 4),
    (1, 5, 7), (1, 7, 3), (3, 7, 6), (3, 6, 2), (4, 6, 7), (4, 7, 5)]

  /** The tetrahedron of `Tetrahedron.__init__`, whose coordinates use `sqrt(3) / 2`. */
  function TetrahedronVertices(m: MathLib): seq<V.Vector3> {
    TetrahedronCorners(m.sqrt(3.0) / 2.0)
  }

  /** The tetrahedron's corners for a given value `h` of `sqrt(3) / 2`. */
  function TetrahedronCorners(h: real): seq<V.Vector3> {
    [V.Vector3(0.0, 1.0, 0.0), V.Vector3(1.0, -1.0 / 3.0, 0.0),
     V.Vector3(-1.0 / 2.0, -1.0 / 3.0, -h), V.Vector3(-1.0 / 2.0, -1.0 / 3.0, h)]
  }

  const TetrahedronTriangles: seq<Triangle> := [(0, 1, 2), (0, 2, 3), (0, 3, 1), (1, 3, 2)]

  /** Every index of `triangles` is a valid non-negative position in a table of `n`
      vertices. */
  predicate IndicesBelow(triangles: seq<Triangle>, n: int) {
    forall i :: 0 <= i < |triangles| ==>
      0 <= triangles[i].0 < n && 0 <= triangles[i].1 < n && 0 <= triangles[i].2 < n
  }

  /** The cube has 8 vertices and 12 triangles whose indices lie in 0..7. */
  lemma CubeTable()
    ensures |CubeVertices()| == 8 && |CubeTriangles| == 12
    ensures IndicesBelow(CubeTriangles, 8)
  {
  }

  /** The tetrahedron has 4 vertices and 4 triangles whose indices lie in 0..3. */
  lemma TetrahedronTable(m: MathLib)
    ensures |TetrahedronVertices(m)| == 4 && |TetrahedronTriangles| == 4
    ensures IndicesBelow(TetrahedronTriangles, 4)
  {
  }

  /** The unnormalised normal `(b - a) x (c - a)` of a face of a vertex table. */
  function RawNormal(vertices: seq<V.Vector3>, t: Triangle): V.Vector3
    requires 0 <= t.0 < |vertices| && 0 <= t.1 < |vertices| && 0 <= t.2 < |vertices|
  {
    V.Cross(V.Sub(vertices[t.1], vertices[t.0]), V.Sub(vertices[t.2], vertices[t.0]))
  }

  /** Triangle `t` of the table `vs` is wound so that the right-hand rule points away from
      the origin: its normal has a positive component along the position of its first
      corner. */
  predicate OutwardFace(vs: seq<V.Vector3>, t: Triangle) {
    && 0 <= t.0 < |vs| && 0 <= t.1 < |vs| && 0 <= t.2 < |vs|
    && V.Dot(RawNormal(vs, t), vs[t.0]) > 0.0
  }

  /** The outward test of one face with corners `a`, `b`, `c`, given its two edges and
      their cross product. */
  lemma FaceOutwardBy(vs: seq<V.Vector3>, t: Triangle, a: V.Vector3, b: V.Vector3, c: V.Vector3,
                      e1: V.Vector3, e2: V.Vector3, n: V.Vector3)
    requires 0 <= t.0 < |vs| && 0 <= t.1 < |vs| && 0 <= t.2 < |vs|
    requires vs[t.0] == a && vs[t.1] == b && vs[t.2] == c
    requires V.Sub(b, a) == e1 && V.Sub(c, a) == e2
    requires V.Cross(e1, e2) == n && V.Dot(n, a) > 0.0
    ensures OutwardFace(vs, t)
  {
  }

  // Cube face `k` faces outward: one lemma per face keeps each arithmetic check apart.

  lemma CubeFaceOutward0()
    ensures OutwardFace(CubeVertices(), CubeTriangles[0])
  {
    FaceOutwardBy(CubeVertices(), (0, 1, 3), V.Vector3(-1.0, -1.0, -1.0), V.Vector3(-1.0, -1.0, 1.0), V.Vector3(-1.0, 1.0, 1.0),
                  V.Vector3(0.0, 0.0, 2.0), V.Vector3(0.0, 2.0, 2.0), V.Vector3(-4.0, 0.0, 0.0));
  }

  lemma CubeFaceOutward1()
    ensures OutwardFace(CubeVertices(), CubeTriangles[1])
  {
    FaceOutwardBy(CubeVertices(), (0, 3, 2), V.Vector3(-1.0, -1.0, -1.0), V.Vector3(-1.0, 1.0, 1.0), V.Vector3(-1.0, 1.0, -1.0),
                  V.Vector3(0.0, 2.0, 2.0), V.Vector3(0.0, 2.0, 0.0), V.Vector3(-4.0, 0.0, 0.0));
  }

  lemma CubeFaceOutward2()
    ensures OutwardFace(CubeVertices(), CubeTriangles[2])
  {
    FaceOutwardBy(CubeVertices(), (0, 4, 5), V.Vector3(-1.0, -1.0, -1.0), V.Vector3(1.0, -1.0, -1.0), V.Vector3(1.0, -1.0, 1.0),
                  V.Vector3(2.0, 0.0, 0.0), V.Vector3(2.0, 0.0, 2.0), V.Vector3(0.0, -4.0, 0.0));
  }

  lemma CubeFaceOutward3()
    ensures OutwardFace(CubeVertices(), CubeTriangles[3])
  {
    FaceOutwardBy(CubeVertices(), (0, 5, 1), V.Vector3(-1.0, -1.0, -1.0), V.Vector3(1.0, -1.0, 1.0), V.Vector3(-1.0, -1.0, 1.0),
                  V.Vector3(2.0, 0.0, 2.0), V.Vector3(0.0, 0.0, 2.0), V.Vector3(0.0, -4.0, 0.0));
  }

  lemma CubeFaceOutward4()
    ensures OutwardFace(CubeVertices(), CubeTriangles[4])
  {
    FaceOutwardBy(CubeVertices(), (0, 2, 6), V.Vector3(-1.0, -1.0, -1.0), V.Vector3(-1.0, 1.0, -1.0), V.Vector3(1.0, 1.0, -1.0),
                  V.Vector3(0.0, 2.0, 0.0), V.Vector3(2.0, 2.0, 0.0), V.Vector3(0.0, 0.0, -4.0));
  }

  lemma CubeFaceOutward5()
    ensures OutwardFace(CubeVertices(), CubeTriangles[5])
  {
    FaceOutwardBy(CubeVertices(), (0, 6, 4), V.Vector3(-1.0, -1.0, -1.0), V.Vector3(1.0, 1.0, -1.0), V.Vector3(1.0, -1.0, -1.0),
                  V.Vector3(2.0, 2.0, 0.0), V.Vector3(2.0, 0.0, 0.0), V.Vector3(0.0, 0.0, -4.0));
  }

  lemma CubeFaceOutward6()
    ensures OutwardFace(CubeVertices(), CubeTriangles[6])
  {
    FaceOutwardBy(CubeVertices(), (1, 5, 7), V.Vector3(-1.0, -1.0, 1.0), V.Vector3(1.0, -1.0, 1.0), V.Vector3(1.0, 1.0, 1.0),
                  V.Vector3(2.0, 0.0, 0.0), V.Vector3(2.0, 2.0, 0.0), V.Vector3(0.0, 0.0, 4.0));
  }

  lemma CubeFaceOutward7()
    ensures OutwardFace(CubeVertices(), CubeTriangles[7])
  {
    FaceOutwardBy(CubeVertices(), (1, 7, 3), V.Vector3(-1.0, -1.0, 1.0), V.Vector3(1.0, 1.0, 1.0), V.Vector3(-1.0, 1.0, 1.0),
                  V.Vector3(2.0, 2.0, 0.0), V.Vector3(0.0, 2.0, 0.0), V.Vector3(0.0, 0.0, 4.0));
  }

  lemma CubeFaceOutward8()
    ensures OutwardFace(CubeVertices(), CubeTriangles[8])
  {
    FaceOutwardBy(CubeVertices(), (3, 7, 6), V.Vector3(-1.0, 1.0, 1.0), V.Vector3(1.0, 1.0, 1.0), V.Vector3(1.0, 1.0, -1.0),
                  V.Vector3(2.0, 0.0, 0.0), V.Vector3(2.0, 0.0, -2.0), V.Vector3(0.0, 4.0, 0.0));
  }

  lemma CubeFaceOutward9()
    ensures OutwardFace(CubeVertices(), CubeTriangles[9])
  {
    FaceOutwardBy(CubeVertices(), (3, 6, 2), V.Vector3(-1.0, 1.0, 1.0), V.Vector3(1.0, 1.0, -1.0), V.Vector3(-1.0, 1.0, -1.0),
                  V.Vector3(2.0, 0.0, -2.0), V.Vector3(0.0, 0.0, -2.0), V.Vector3(0.0, 4.0, 0.0));
  }

  lemma CubeFaceOutward10()
    ensures OutwardFace(CubeVertices(), CubeTriangles[10])
  {
    FaceOutwardBy(CubeVertices(), (4, 6, 7), V.Vector3(1.0, -1.0, -1.0), V.Vector3(1.0, 1.0, -1.0), V.Vector3(1.0, 1.0, 1.0),
                  V.Vector3(0.0, 2.0, 0.0), V.Vector3(0.0, 2.0, 2.0), V.Vector3(4.0, 0.0, 0.0));
  }

  lemma CubeFaceOutward11()
    ensures OutwardFace(CubeVertices(), CubeTriangles[11])
  {
    FaceOutwardBy(CubeVertices(), (4, 7, 5), V.Vector3(1.0, -1.0, -1.0), V.Vector3(1.0, 1.0, 1.0), V.Vector3(1.0, -1.0, 1.0),
                  V.Vector3(0.0, 2.0, 2.0), V.Vector3(0.0, 0.0, 2.0), V.Vector3(4.0, 0.0, 0.0));
  }

  lemma CubeFacesPointOutward()
    ensures forall i :: 0 <= i < |CubeTriangles| ==> OutwardFace(CubeVertices(), CubeTriangles[i])
  {
    forall i | 0 <= i < |CubeTriangles|
      ensures OutwardFace(CubeVertices(), CubeTriangles[i])
    {
      if i == 0 {
        CubeFaceOutward0();
      } else if i == 1 {
        CubeFaceOutward1();
      } else if i == 2 {
        CubeFaceOutward2();
      } else if i == 3 {
        CubeFaceOutward3();
      } else if i == 4 {
        CubeFaceOutward4();
      } else if i == 5 {
        CubeFaceOutward5();
      } else if i == 6 {
        CubeFaceOutward6();
      } else if i == 7 {
        CubeFaceOutward7();
      } else if i == 8 {
        CubeFaceOutward8();
      } else if i == 9 {
        CubeFaceOutward9();
      } else if i == 10 {
        CubeFaceOutward10();
      } else {
        CubeFaceOutward11();
      }
    }
  }

  /** Likewise for tetrahedron triangle `i`, whenever `h` is positive; the tetrahedron's
      centre is the origin. */
  lemma TetrahedronFaceOutward(h: real, i: int)
    requires h > 0.0 && 0 <= i < |TetrahedronTriangles|
    ensures OutwardFace(TetrahedronCorners(h), TetrahedronTriangles[i])
  {
    var vs := TetrahedronCorners(h);
    var v0, v1 := V.Vector3(0.0, 1.0, 0.0), V.Vector3(1.0, -1.0 / 3.0, 0.0);
    var v2, v3 := V.Vector3(-1.0 / 2.0, -1.0 / 3.0, -h), V.Vector3(-1.0 / 2.0, -1.0 / 3.0, h);
    if i == 0 {
      assert TetrahedronTriangles[i] == (0, 1, 2);
      FaceOutwardBy(vs, TetrahedronTriangles[i], v0, v1, v2, V.Vector3(1.0, -4.0 / 3.0, 0.0),
                    V.Vector3(-1.0 / 2.0, -4.0 / 3.0, -h), V.Vector3(4.0 * h / 3.0, h, -2.0));
    } else if i == 1 {
      assert TetrahedronTriangles[i] == (0, 2, 3);
      FaceOutwardBy(vs, TetrahedronTriangles[i], v0, v2, v3, V.Vector3(-1.0 / 2.0, -4.0 / 3.0, -h),
                    V.Vector3(-1.0 / 2.0, -4.0 / 3.0, h), V.Vector3(-8.0 * h / 3.0, h, 0.0));
    } else if i == 2 {
      assert TetrahedronTriangles[i] == (0, 3, 1);
      FaceOutwardBy(vs, TetrahedronTriangles[i], v0, v3, v1, V.Vector3(-1.0 / 2.0, -4.0 / 3.0, h),
                    V.Vector3(1.0, -4.0 / 3.0, 0.0), V.Vector3(4.0 * h / 3.0, h, 2.0));
    } else {
      assert TetrahedronTriangles[i] == (1, 3, 2);
      FaceOutwardBy(vs, TetrahedronTriangles[i], v1, v3, v2, V.Vector3(-3.0 / 2.0, 0.0, h),
                    V.Vector3(-3.0 / 2.0, 0.0, -h), V.Vector3(0.0, -3.0 * h, 0.0));
    }
  }

  /** Every tetrahedron triangle faces outward. */
  lemma TetrahedronFacesPointOutward(m: MathLib)
    requires m.Lawful()
    ensures forall i :: 0 <= i < |TetrahedronTriangles| ==>
              OutwardFace(TetrahedronVertices(m), TetrahedronTriangles[i])
  {
    SqrtPositive(m, 3.0);
    forall i | 0 <= i < |TetrahedronTriangles|
      ensures OutwardFace(TetrahedronVertices(m), TetrahedronTriangles[i])
    {
      TetrahedronFaceOutward(m.sqrt(3.0) / 2.0, i);
    }
  }

  /** `Cube(position, rotation, scaling)`. */
  function Cube(m: MathLib, p: Placement): Result<Shape> {
    NewShape(m, Mesh(CubeVertices(), CubeTriangles), p)
  }

  /** `Tetrahedron(position, rotation, scaling)`. */
  function Tetrahedron(m: MathLib, p: Placement): Result<Shape> {
    NewShape(m, Mesh(TetrahedronVertices(m), TetrahedronTriangles), p)
  }

  /** Table indices that are valid positions are valid Python indices. */
  lemma IndicesBelowAreValid(vertices: seq<V.Vector3>, triangles: seq<Triangle>)
    requires IndicesBelow(triangles, |vertices|)
    ensures IndicesValid(vertices, triangles)
  {
  }

  /** Building a cube or a tetrahedron fails only for the zero rotation, and the shape built
      has one normal per triangle. */
  lemma BuiltinsSucceedIff(m: MathLib, p: Placement)
    ensures Cube(m, p).Success? <==> p.rotation != Q.ZeroQuaternion
    ensures Tetrahedron(m, p).Success? <==> p.rotation != Q.ZeroQuaternion
    ensures Cube(m, p).Success? ==> |Cube(m, p).value.normals| == 12
    ensures Tetrahedron(m, p).Success? ==> |Tetrahedron(m, p).value.normals| == 4
  {
    CubeTable();
    TetrahedronTable(m);
    IndicesBelowAreValid(CubeVertices(), CubeTriangles);
    IndicesBelowAreValid(TetrahedronVertices(m), TetrahedronTriangles);
    CalculateNormalsSucceedsIff(m, p, Mesh(CubeVertices(), CubeTriangles));
    CalculateNormalsSucceedsIff(m, p, Mesh(TetrahedronVertices(m), TetrahedronTriangles));
  }
}
