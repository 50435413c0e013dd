/** `Camera.render` of main.py (duplicated in asciithree.py): the viewing direction, the
    back-face test, the glyph chosen by the face's angle to the viewer, and the per-pixel
    depth of the ray through a pixel to the triangle's plane, put together over every
    visible shape of the scene.

    `Render` is the functional definition; `RenderScene` is the nested loop of the
    source, proved to compute it, drawing each triangle with the scan of `Raster`. */
module Rendering {
  import opened Wrappers
  import opened Numerics
  import opened Sequences
  import V = Vectors
  import VectorLaws
  import Q = Quaternions
  import QuaternionLaws
  import M = Meshes
  import P = Projection
  import R = Raster

  /** `intensities`, from the dimmest glyph to the brightest. */
  const Intensities: seq<char> := ['.', ',', ';', '0', '#', '@']

  /** `Vector3.FORWARD.rotate_by_quaternion(self.rotation)`: the direction the camera
      looks along.  Rotating by the zero quaternion divides by zero. */
  function ViewingNormal(cam: P.Camera): (r: Result<V.Vector3>)
    ensures r.Failure? <==> cam.placement.rotation == Q.ZeroQuaternion
  {
    Q.Rotate(V.Forward, cam.placement.rotation)
  }

  /** A camera with the identity rotation looks along `FORWARD`. */
  lemma ViewingNormalAtRest(cam: P.Camera)
    requires cam.placement.rotation == Q.Identity
    ensures ViewingNormal(cam) == Success(V.Forward)
  {
    QuaternionLaws.RotateByIdentity(V.Forward);
  }

  /** `cos_normal_viewing = -normal.dot(vec_normal) / vec_normal.magnitude()`: the cosine
      of the angle between the face's normal and the direction back towards the viewer. */
  function Facing(m: MathLib, n: V.Vector3, vn: V.Vector3): (r: Result<real>)
    ensures r.Failure? <==> V.Magnitude(m, vn) == 0.0
    ensures r.Failure? ==> r.error == DivisionByZero
    ensures r.Success? ==> r.value * V.Magnitude(m, vn) == -V.Dot(n, vn)
  {
    var mag := V.Magnitude(m, vn);
    if mag == 0.0 then Failure(DivisionByZero)
    else
      assert (-V.Dot(n, vn) / mag) * mag == -V.Dot(n, vn) by { DivMulCancel(-V.Dot(n, vn), mag); }
      Success(-V.Dot(n, vn) / mag)
  }

  /** For a normal of length at most one (a unit normal, or the zero normal of a
      degenerate face) the cosine lies in `[-1, 1]`. */
  lemma FacingIsCosine(m: MathLib, n: V.Vector3, vn: V.Vector3)
    requires m.Lawful() && V.SquareMagnitude(n) <= 1.0
    requires Facing(m, n, vn).Success?
    ensures -1.0 <= Facing(m, n, vn).value <= 1.0
  {
    var mag := V.Magnitude(m, vn);
    var d := V.Dot(n, vn);
    var sn, svn := V.SquareMagnitude(n), V.SquareMagnitude(vn);
    assert mag > 0.0 && mag * mag == svn by { V.MagnitudeLaws(m, vn); }
    assert d * d <= sn * svn by { VectorLaws.CauchySchwarz(n, vn); }
    assert sn * svn <= svn by { AtMostOne(sn, svn); }
    assert -mag <= d <= mag by { WithinLength(d, mag); }
    CosineBound(Facing(m, n, vn).value, mag, d);
  }

  lemma AtMostOne(s: real, t: real)
    requires s <= 1.0 && t >= 0.0
    ensures s * t <= t
  {
    assert t - s * t == (1.0 - s) * t;
  }

  /** `|d| <= mag` when `d^2 <= mag^2`. */
  lemma WithinLength(d: real, mag: real)
    requires mag >= 0.0 && d * d <= mag * mag
    ensures -mag <= d <= mag
  {
    if d > mag {
      SquareGrows(d, mag);
    } else if -d > mag {
      SquareGrows(-d, mag);
    }
  }

  lemma SquareGrows(a: real, b: real)
    requires a > b >= 0.0
    ensures a * a > b * b
  {
    assert a * a - b * b == (a - b) * (a + b);
    ScaleStrict(a + b, a - b, 0.0);
  }

  /** `c mag = -d` with `|d| <= mag` puts `c` in `[-1, 1]`. */
  lemma CosineBound(c: real, mag: real, d: real)
    requires mag > 0.0 && c * mag == -d && -mag <= d <= mag
    ensures -1.0 <= c <= 1.0
  {
    if c > 1.0 {
      ScaleStrict(mag, c, 1.0);
    } else if c < -1.0 {
      ScaleStrict(mag, -1.0, c);
    }
  }

  lemma ScaleStrict(k: real, a: real, b: real)
    requires k > 0.0 && a > b
    ensures a * k > b * k
  {
    assert a * k - b * k == (a - b) * k;
  }

  /** The skip test: in perspective mode a face is skipped when its first placed corner
      lies on or behind the plane through the camera along the face (the vector from the
      camera to the corner does not point against the normal), and in orthographic mode
      when it does not face the viewer (`cos <= 0`).  Only the perspective test reads a
      vertex, so only it can raise. */
  function Skipped(cam: P.Camera, s: M.Shape, t: M.Triangle, n: V.Vector3, cos: real): (r: Result<bool>)
    ensures !cam.perspective ==> r == Success(cos <= 0.0)
    ensures cam.perspective ==>
      (r.Failure? <==> PyIndex(s.mesh.vertices, t.0).Failure? || s.placement.rotation == Q.ZeroQuaternion)
  {
    if cam.perspective then
      var v0 :- PyIndex(s.mesh.vertices, t.0);
      var point :- M.PlaceVertexInRender(s.placement, v0);
      Success(V.Dot(V.Sub(point, cam.placement.position), n) >= 0.0)
    else Success(cos <= 0.0)
  }

  /** In perspective mode the test is about where the face is, and uses the same point
      as the Python shape's own `location_of_vertex`. */
  lemma SkippedInPerspective(cam: P.Camera, s: M.Shape, t: M.Triangle, n: V.Vector3, cos: real)
    requires cam.perspective && Skipped(cam, s, t, n, cos).Success?
    ensures var corner := M.LocationOfVertex(s.placement, PyIndex(s.mesh.vertices, t.0).value).value;
      Skipped(cam, s, t, n, cos).value <==> V.Dot(V.Sub(corner, cam.placement.position), n) >= 0.0
  {
    M.PlaceVertexInRenderAgrees(s.placement, PyIndex(s.mesh.vertices, t.0).value);
  }

  /** `_triangle_index_to_triangle` followed by the placement of each corner: all three
      vertices are read before any is placed. */
  function RenderCorners(p: M.Placement, vertices: seq<V.Vector3>, t: M.Triangle): (r: Result<(V.Vector3, V.Vector3, V.Vector3)>)
  {
    var va :- PyIndex(vertices, t.0);
    var vb :- PyIndex(vertices, t.1);
    var vc :- PyIndex(vertices, t.2);
    var a :- M.PlaceVertexInRender(p, va);
    var b :- M.PlaceVertexInRender(p, vb);
    var c :- M.PlaceVertexInRender(p, vc);
    Success((a, b, c))
  }

  /** Rendering places a triangle's corners where the shape's normals were computed from:
      the same points, and failing for the same triangles (though an index error may be
      reported where the normals would report the zero rotation). */
  lemma RenderCornersArePlaced(p: M.Placement, vertices: seq<V.Vector3>, t: M.Triangle)
    ensures RenderCorners(p, vertices, t).Success? <==> M.PlacedTriangle(p, vertices, t).Success?
    ensures RenderCorners(p, vertices, t).Success? ==> RenderCorners(p, vertices, t) == M.PlacedTriangle(p, vertices, t)
  {
    if PyIndex(vertices, t.0).Success? && PyIndex(vertices, t.1).Success? && PyIndex(vertices, t.2).Success? {
      M.PlaceVertexInRenderAgrees(p, PyIndex(vertices, t.0).value);
      M.PlaceVertexInRenderAgrees(p, PyIndex(vertices, t.1).value);
      M.PlaceVertexInRenderAgrees(p, PyIndex(vertices, t.2).value);
    }
  }

  /** `int(cos_normal_viewing * 5.9)`: the position in the glyph table. */
  function Brightness(cos: real): int {
    Trunc(cos * 5.9)
  }

  /** `intensities[int(cos_normal_viewing * 5.9)]`, a Python list index: a negative
      position counts from the end, one past either end raises `IndexError`. */
  function Glyph(cos: real): (r: Result<char>)
    ensures r.Success? ==> r.value in Intensities
    ensures r.Failure? ==> r.error == IndexOutOfRange
  {
    PyIndex(Intensities, Brightness(cos))
  }

  /** A cosine in `[-1, 1]` never indexes past the table: the position lies in `-5..5`. */
  lemma GlyphOfCosine(cos: real)
    requires -1.0 <= cos <= 1.0
    ensures -5 <= Brightness(cos) <= 5
    ensures Glyph(cos).Success?
  {
    TruncMonotone(-5.9, cos * 5.9);
    TruncMonotone(cos * 5.9, 5.9);
  }

  /** A face turned towards the viewer (`0 < cos <= 1`) gets a glyph from the table
      without wrap-around, and a face turned further towards the viewer never gets a
      dimmer glyph. */
  lemma GlyphOfFrontFace(c1: real, c2: real)
    requires 0.0 < c1 <= c2 <= 1.0
    ensures 0 <= Brightness(c1) <= Brightness(c2) <= 5
    ensures Glyph(c1) == Success(Intensities[Brightness(c1)])
    ensures Glyph(c2) == Success(Intensities[Brightness(c2)])
  {
    GlyphOfCosine(c2);
    TruncMonotone(c1 * 5.9, c2 * 5.9);
  }

  /** A face lit head-on gets the brightest glyph, `@`. */
  lemma GlyphHeadOn()
    ensures Glyph(1.0) == Success('@')
  {
    assert Trunc(5.9) == 5;
  }

  /** The ray `p' = u x_vec + v y_vec + depth * vec_normal.direction()` from the camera
      through pixel `(x, y)`, with `u = x - width // 2` and `v = height // 2 - y`. */
  function PixelRay(m: MathLib, cam: P.Camera, vn: V.Vector3, pixel: R.Pixel): V.Vector3 {
    var (xv, yv) := P.ScreenBasis(m, vn);
    var u := (pixel.0 - cam.width / 2) as real;
    var v := (cam.height / 2 - pixel.1) as real;
    V.Add(V.Add(V.Scale(xv, u), V.Scale(yv, v)), V.Scale(V.Direction(m, vn), cam.depth))
  }

  /** The depth of a pixel, `(a - cam).dot(n) * (|p'| / p'.dot(n))` for the pixel's ray
      `p'`: `None` when the ray is parallel to the triangle's plane, where the division
      raises. */
  function DepthAt(m: MathLib, cam: P.Camera, vn: V.Vector3, corner: V.Vector3, n: V.Vector3): R.Pixel -> Option<real> {
    pixel => DepthAlong(m, cam.placement.position, corner, n, PixelRay(m, cam, vn, pixel))
  }

  /** The depth formula for a ray `ray` from `eye` towards the plane through `corner`
      with normal `n`. */
  function DepthAlong(m: MathLib, eye: V.Vector3, corner: V.Vector3, n: V.Vector3, ray: V.Vector3): Option<real> {
    RayDepth(V.Dot(V.Sub(corner, eye), n), V.Dot(ray, n), V.Magnitude(m, ray))
  }

  /** `along * (len / denom)`, raising when `denom` is zero. */
  function RayDepth(along: real, denom: real, len: real): Option<real> {
    if denom == 0.0 then None else Some(along * (len / denom))
  }

  /** How far along the ray the triangle's plane lies, in units of the ray. */
  function RayToPlane(ray: V.Vector3, toCorner: V.Vector3, n: V.Vector3): real
    requires V.Dot(ray, n) != 0.0
  {
    V.Dot(toCorner, n) / V.Dot(ray, n)
  }

  /** A pixel has no depth exactly when its ray is parallel to the triangle's plane. */
  lemma DepthFailsWhenParallel(m: MathLib, eye: V.Vector3, corner: V.Vector3, n: V.Vector3, ray: V.Vector3)
    ensures DepthAlong(m, eye, corner, n, ray).None? <==> V.Dot(ray, n) == 0.0
  {
  }

  /** Otherwise the depth is the distance to where the ray meets the plane of the
      triangle: it is `k |ray|` for the `k` at which `eye + k ray` lies on the plane
      through the triangle's corner with normal `n`. */
  lemma DepthIsDistanceToPlane(m: MathLib, eye: V.Vector3, corner: V.Vector3, n: V.Vector3, ray: V.Vector3)
    requires V.Dot(ray, n) != 0.0
    ensures DepthAlong(m, eye, corner, n, ray).Some?
    ensures DepthAlong(m, eye, corner, n, ray).value == RayToPlane(ray, V.Sub(corner, eye), n) * V.Magnitude(m, ray)
    ensures V.Dot(V.Sub(V.Add(eye, V.Scale(ray, RayToPlane(ray, V.Sub(corner, eye), n))), corner), n) == 0.0
  {
    RayDepthRegroups(V.Dot(V.Sub(corner, eye), n), V.Dot(ray, n), V.Magnitude(m, ray), RayToPlane(ray, V.Sub(corner, eye), n));
    RayPlaneParameter(eye, ray, corner, n);
  }

  /** `cam + k ray` lies on the plane through `corner` with normal `n` for the `k` that
      `RayToPlane` computes. */
  lemma RayPlaneParameter(cam: V.Vector3, ray: V.Vector3, corner: V.Vector3, n: V.Vector3)
    requires V.Dot(ray, n) != 0.0
    ensures V.Dot(V.Sub(V.Add(cam, V.Scale(ray, RayToPlane(ray, V.Sub(corner, cam), n))), corner), n) == 0.0
  {
    var k := RayToPlane(ray, V.Sub(corner, cam), n);
    assert k * V.Dot(ray, n) == V.Dot(V.Sub(corner, cam), n) by {
      DivMulCancel(V.Dot(V.Sub(corner, cam), n), V.Dot(ray, n));
    }
    RayMeetsPlane(cam, ray, corner, n, k);
  }

  lemma RayDepthRegroups(along: real, denom: real, len: real, k: real)
    requires denom != 0.0 && k == along / denom
    ensures RayDepth(along, denom, len).Some? && RayDepth(along, denom, len).value == k * len
  {
    assert k * len == along * (len / denom) by {
      Regroup(along, len, denom);
      SameProduct(k, along / denom, len);
    }
    RayDepthIs(along, denom, len, k * len);
  }

  lemma RayDepthIs(along: real, denom: real, len: real, d: real)
    requires denom != 0.0 && d == along * (len / denom)
    ensures RayDepth(along, denom, len) == Some(d)
  {
  }

  lemma SameProduct(a: real, b: real, c: real)
    requires a == b
    ensures a * c == b * c
  {
  }

  lemma Regroup(a: real, b: real, d: real)
    requires d != 0.0
    ensures a * (b / d) == (a / d) * b
  {
    var q, r := b / d, a / d;
    assert q * d == b by { DivMulCancel(b, d); }
    assert r * d == a by { DivMulCancel(a, d); }
    assert a * q == (r * d) * q == r * (q * d) == r * b;
  }

  /** `cam + k ray` lies on the plane through `corner` with normal `n` when
      `k (ray . n) = (corner - cam) . n`. */
  lemma RayMeetsPlane(cam: V.Vector3, ray: V.Vector3, corner: V.Vector3, n: V.Vector3, k: real)
    requires k * V.Dot(ray, n) == V.Dot(V.Sub(corner, cam), n)
    ensures V.Dot(V.Sub(V.Add(cam, V.Scale(ray, k)), corner), n) == 0.0
  {
  }

  /** The frame and everything the drawing of one triangle needs. */
  predicate Fits(cam: P.Camera, f: R.Frame) {
    R.Shaped(f, cam.width, cam.height)
  }

  /** The projected triangle handed to `_render_triangle`, once its corners are placed
      and its glyph is chosen. */
  function Projected(m: MathLib, cam: P.Camera, vn: V.Vector3, corners: (V.Vector3, V.Vector3, V.Vector3),
                     n: V.Vector3, glyph: char): (r: Result<R.Triangle>)
    ensures r.Failure? ==> r.error == DivisionByZero
  {
    var a :- P.WorldToScreen(m, cam, corners.0, vn);
    var b :- P.WorldToScreen(m, cam, corners.1, vn);
    var c :- P.WorldToScreen(m, cam, corners.2, vn);
    Success(R.Triangle(a, b, c, glyph, DepthAt(m, cam, vn, corners.0, n)))
  }

  /** One iteration of the inner loop of `render`: the cosine, the skip test, the corners,
      the glyph, the projection and the scan, each raising as the source does. */
  function DrawTriangle(m: MathLib, cam: P.Camera, vn: V.Vector3, s: M.Shape, t: M.Triangle, n: V.Vector3,
                        f: R.Frame): (r: Result<R.Frame>)
    requires Fits(cam, f)
    ensures r.Success? ==> Fits(cam, r.value)
  {
    var cos :- Facing(m, n, vn);
    var skip :- Skipped(cam, s, t, n, cos);
    if skip then Success(f)
    else
      var corners :- RenderCorners(s.placement, s.mesh.vertices, t);
      var glyph :- Glyph(cos);
      var tri :- Projected(m, cam, vn, corners, n, glyph);
      R.Shade(f, cam.width, cam.height, tri)
  }

  /** An orthographic camera draws nothing of a face turned away from it. */
  lemma OrthographicBackFaceSkipped(m: MathLib, cam: P.Camera, vn: V.Vector3, s: M.Shape, t: M.Triangle,
                                    n: V.Vector3, f: R.Frame)
    requires Fits(cam, f) && !cam.perspective
    requires Facing(m, n, vn).Success? && Facing(m, n, vn).value <= 0.0
    ensures DrawTriangle(m, cam, vn, s, t, n, f) == Success(f)
  {
  }

  /** A perspective camera draws nothing of a face whose plane it is not in front of,
      whatever the face's angle to the viewing direction. */
  lemma PerspectiveBackFaceSkipped(m: MathLib, cam: P.Camera, vn: V.Vector3, s: M.Shape, t: M.Triangle,
                                   n: V.Vector3, f: R.Frame)
    requires Fits(cam, f) && cam.perspective && V.Magnitude(m, vn) != 0.0
    requires PyIndex(s.mesh.vertices, t.0).Success? && s.placement.rotation != Q.ZeroQuaternion
    requires var corner := M.LocationOfVertex(s.placement, PyIndex(s.mesh.vertices, t.0).value).value;
      V.Dot(V.Sub(corner, cam.placement.position), n) >= 0.0
    ensures DrawTriangle(m, cam, vn, s, t, n, f) == Success(f)
  {
    SkippedInPerspective(cam, s, t, n, Facing(m, n, vn).value);
  }

  /** A unit (or zero) normal never makes the glyph lookup raise: with a viewing
      direction of non-zero length, only the projection and the depth can fail. */
  lemma DrawTriangleGlyphSafe(m: MathLib, cam: P.Camera, vn: V.Vector3, n: V.Vector3)
    requires m.Lawful() && V.SquareMagnitude(n) <= 1.0 && V.Magnitude(m, vn) != 0.0
    ensures Glyph(Facing(m, n, vn).value).Success?
  {
    FacingIsCosine(m, n, vn);
    GlyphOfCosine(Facing(m, n, vn).value);
  }

  /** The triangles of a shape paired with their normals, as `zip` pairs them. */
  function Faces(s: M.Shape): seq<(M.Triangle, V.Vector3)> {
    Zip(s.mesh.triangles, s.normals)
  }

  /** The inner loop of `render`, from the first face to the last; the first face that
      raises ends the render. */
  function DrawFaces(m: MathLib, cam: P.Camera, vn: V.Vector3, s: M.Shape, faces: seq<(M.Triangle, V.Vector3)>,
                     f: R.Frame): (r: Result<R.Frame>)
    requires Fits(cam, f)
    ensures r.Success? ==> Fits(cam, r.value)
    decreases |faces|
  {
    if |faces| == 0 then Success(f)
    else
      var g :- DrawTriangle(m, cam, vn, s, faces[0].0, faces[0].1, f);
      DrawFaces(m, cam, vn, s, faces[1..], g)
  }

  /** One iteration of the outer loop: a hidden shape is passed over. */
  function DrawShape(m: MathLib, cam: P.Camera, vn: V.Vector3, s: M.Shape, f: R.Frame): (r: Result<R.Frame>)
    requires Fits(cam, f)
    ensures r.Success? ==> Fits(cam, r.value)
  {
    if s.hidden then Success(f) else DrawFaces(m, cam, vn, s, Faces(s), f)
  }

  function DrawShapes(m: MathLib, cam: P.Camera, vn: V.Vector3, shapes: seq<M.Shape>, f: R.Frame): (r: Result<R.Frame>)
    requires Fits(cam, f)
    ensures r.Success? ==> Fits(cam, r.value)
    decreases |shapes|
  {
    if |shapes| == 0 then Success(f)
    else
      var g :- DrawShape(m, cam, vn, shapes[0], f);
      DrawShapes(m, cam, vn, shapes[1..], g)
  }

  /** The cleared frame `render` starts from. */
  function Blank(cam: P.Camera): (f: R.Frame)
    ensures Fits(cam, f)
  {
    R.ClearScreen(cam.width, cam.height)
  }

  /** `render`: clear the screen, find the viewing direction, draw every visible shape of
      the environment in order, and return the glyph grid. */
  function Render(m: MathLib, cam: P.Camera, shapes: seq<M.Shape>): (r: Result<seq<seq<char>>>)
  {
    var vn :- ViewingNormal(cam);
    var g :- DrawShapes(m, cam, vn, shapes, Blank(cam));
    Success(g.screen)
  }

  /** A camera whose rotation is the zero quaternion cannot render anything, even an
      empty scene: finding the viewing direction raises first. */
  lemma RenderNeedsRotation(m: MathLib, cam: P.Camera, shapes: seq<M.Shape>)
    requires cam.placement.rotation == Q.ZeroQuaternion
    ensures Render(m, cam, shapes) == Failure(DivisionByZero)
  {
    assert ViewingNormal(cam).Failure?;
  }

  /** The rendered screen has `height` rows of `width` glyphs. */
  lemma RenderIsScreenSized(m: MathLib, cam: P.Camera, shapes: seq<M.Shape>)
    requires Render(m, cam, shapes).Success?
    ensures |Render(m, cam, shapes).value| == R.Dim(cam.height)
    ensures forall y :: 0 <= y < R.Dim(cam.height) ==> |Render(m, cam, shapes).value[y]| == R.Dim(cam.width)
  {
    var vn := ViewingNormal(cam).value;
    var g := DrawShapes(m, cam, vn, shapes, Blank(cam)).value;
    assert Fits(cam, g);
  }

  /** The shapes that are not hidden, in order. */
  function Visible(shapes: seq<M.Shape>): (r: seq<M.Shape>)
    ensures forall s :: s in r <==> s in shapes && !s.hidden
  {
    if |shapes| == 0 then []
    else (if shapes[0].hidden then [] else [shapes[0]]) + Visible(shapes[1..])
  }

  /** Hidden shapes contribute nothing: drawing the scene is drawing its visible shapes. */
  lemma {:induction false} HiddenShapesInvisible(m: MathLib, cam: P.Camera, vn: V.Vector3, shapes: seq<M.Shape>, f: R.Frame)
    requires Fits(cam, f)
    ensures DrawShapes(m, cam, vn, shapes, f) == DrawShapes(m, cam, vn, Visible(shapes), f)
    decreases |shapes|
  {
    if |shapes| > 0 {
      var s, rest := shapes[0], shapes[1..];
      if s.hidden {
        assert Visible(shapes) == Visible(rest);
        assert DrawShapes(m, cam, vn, shapes, f) == DrawShapes(m, cam, vn, rest, f);
        HiddenShapesInvisible(m, cam, vn, rest, f);
      } else {
        var vis := Visible(shapes);
        assert vis == [s] + Visible(rest);
        assert vis[0] == s && vis[1..] == Visible(rest);
        var g := DrawShape(m, cam, vn, s, f);
        if g.Success? {
          assert DrawShapes(m, cam, vn, shapes, f) == DrawShapes(m, cam, vn, rest, g.value);
          assert DrawShapes(m, cam, vn, vis, f) == DrawShapes(m, cam, vn, Visible(rest), g.value);
          HiddenShapesInvisible(m, cam, vn, rest, g.value);
        }
      }
    }
  }

  /** An empty scene (or one whose shapes are all hidden) renders a blank screen. */
  lemma EmptySceneIsBlank(m: MathLib, cam: P.Camera, shapes: seq<M.Shape>)
    requires cam.placement.rotation != Q.ZeroQuaternion
    requires forall s :: s in shapes ==> s.hidden
    ensures Render(m, cam, shapes) == Success(R.ClearScreen(cam.width, cam.height).screen)
  {
    var vn := ViewingNormal(cam).value;
    var blank := Blank(cam);
    HiddenShapesInvisible(m, cam, vn, shapes, blank);
    assert Visible(shapes) == [];
  }

  /** Every cell of the frame holds the background or a glyph of the table. */
  predicate Palette(f: R.Frame) {
    forall y, x :: 0 <= y < |f.screen| && 0 <= x < |f.screen[y]| ==>
      f.screen[y][x] == R.Background || f.screen[y][x] in Intensities
  }

  lemma {:induction false} DrawTrianglePalette(m: MathLib, cam: P.Camera, vn: V.Vector3, s: M.Shape, t: M.Triangle,
                                              n: V.Vector3, f: R.Frame)
    requires Fits(cam, f) && Palette(f) && DrawTriangle(m, cam, vn, s, t, n, f).Success?
    ensures Palette(DrawTriangle(m, cam, vn, s, t, n, f).value)
  {
    var cos := Facing(m, n, vn).value;
    if !Skipped(cam, s, t, n, cos).value {
      var corners := RenderCorners(s.placement, s.mesh.vertices, t).value;
      var glyph := Glyph(cos).value;
      var tri := Projected(m, cam, vn, corners, n, glyph).value;
      var g := R.Shade(f, cam.width, cam.height, tri).value;
      forall y, x | 0 <= y < |g.screen| && 0 <= x < |g.screen[y]|
        ensures g.screen[y][x] == R.Background || g.screen[y][x] in Intensities
      {
        R.ShadeAt(f, cam.width, cam.height, tri, x, y);
      }
    }
  }

  lemma {:induction false} DrawFacesPalette(m: MathLib, cam: P.Camera, vn: V.Vector3, s: M.Shape,
                                           faces: seq<(M.Triangle, V.Vector3)>, f: R.Frame)
    requires Fits(cam, f) && Palette(f) && DrawFaces(m, cam, vn, s, faces, f).Success?
    ensures Palette(DrawFaces(m, cam, vn, s, faces, f).value)
    decreases |faces|
  {
    if |faces| > 0 {
      DrawTrianglePalette(m, cam, vn, s, faces[0].0, faces[0].1, f);
      var g := DrawTriangle(m, cam, vn, s, faces[0].0, faces[0].1, f).value;
      DrawFacesPalette(m, cam, vn, s, faces[1..], g);
    }
  }

  lemma {:induction false} DrawShapesPalette(m: MathLib, cam: P.Camera, vn: V.Vector3, shapes: seq<M.Shape>, f: R.Frame)
    requires Fits(cam, f) && Palette(f) && DrawShapes(m, cam, vn, shapes, f).Success?
    ensures Palette(DrawShapes(m, cam, vn, shapes, f).value)
    decreases |shapes|
  {
    if |shapes| > 0 {
      var s := shapes[0];
      if !s.hidden {
        DrawFacesPalette(m, cam, vn, s, Faces(s), f);
      }
      var g := DrawShape(m, cam, vn, s, f).value;
      DrawShapesPalette(m, cam, vn, shapes[1..], g);
    }
  }

  /** The rendered screen holds only blanks and glyphs of the table. */
  lemma RenderPalette(m: MathLib, cam: P.Camera, shapes: seq<M.Shape>)
    requires Render(m, cam, shapes).Success?
    ensures forall y, x :: 0 <= y < |Render(m, cam, shapes).value| && 0 <= x < |Render(m, cam, shapes).value[y]| ==>
      Render(m, cam, shapes).value[y][x] == R.Background || Render(m, cam, shapes).value[y][x] in Intensities
  {
    var vn := ViewingNormal(cam).value;
    var blank := Blank(cam);
    DrawShapesPalette(m, cam, vn, shapes, blank);
  }

  // ------------------------------------------------------------------ the loops of render

  /** One face, drawn with the scan of `_render_triangle`. */
  method DrawTriangleScan(m: MathLib, cam: P.Camera, vn: V.Vector3, s: M.Shape, t: M.Triangle, n: V.Vector3,
                          f: R.Frame) returns (r: Result<R.Frame>)
    requires Fits(cam, f)
    ensures r == DrawTriangle(m, cam, vn, s, t, n, f)
  {
    var cos := Facing(m, n, vn);
    if cos.Failure? {
      return Failure(cos.error);
    }
    var skip := Skipped(cam, s, t, n, cos.value);
    if skip.Failure? {
      return Failure(skip.error);
    }
    if skip.value {
      return Success(f);
    }
    var corners := RenderCorners(s.placement, s.mesh.vertices, t);
    if corners.Failure? {
      return Failure(corners.error);
    }
    var glyph := Glyph(cos.value);
    if glyph.Failure? {
      return Failure(glyph.error);
    }
    var tri := Projected(m, cam, vn, corners.value, n, glyph.value);
    if tri.Failure? {
      return Failure(tri.error);
    }
    r := R.RenderTriangle(f, cam.width, cam.height, tri.value);
  }

  /** `for triangle, normal in zip(shape.triangles, shape.normals)`. */
  method DrawFacesLoop(m: MathLib, cam: P.Camera, vn: V.Vector3, s: M.Shape, f: R.Frame) returns (r: Result<R.Frame>)
    requires Fits(cam, f)
    ensures r == DrawFaces(m, cam, vn, s, Faces(s), f)
  {
    var faces := Faces(s);
    var g := f;
    var i := 0;
    while i < |faces|
      invariant 0 <= i <= |faces|
      invariant Fits(cam, g)
      invariant DrawFaces(m, cam, vn, s, faces, f) == DrawFaces(m, cam, vn, s, faces[i..], g)
    {
      assert faces[i..][1..] == faces[i + 1..];
      var next := DrawTriangleScan(m, cam, vn, s, faces[i].0, faces[i].1, g);
      if next.Failure? {
        return Failure(next.error);
      }
      g := next.value;
      i := i + 1;
    }
    return Success(g);
  }

  /** `render` as the source writes it: clear, find the viewing direction, then the two
      nested loops over shapes and faces. */
  method RenderScene(m: MathLib, cam: P.Camera, shapes: seq<M.Shape>) returns (r: Result<seq<seq<char>>>)
    ensures r == Render(m, cam, shapes)
  {
    var g := Blank(cam);
    var vn := ViewingNormal(cam);
    if vn.Failure? {
      return Failure(vn.error);
    }
    var i := 0;
    while i < |shapes|
      invariant 0 <= i <= |shapes|
      invariant Fits(cam, g)
      invariant DrawShapes(m, cam, vn.value, shapes, Blank(cam))
                == DrawShapes(m, cam, vn.value, shapes[i..], g)
    {
      assert shapes[i..][1..] == shapes[i + 1..];
      if !shapes[i].hidden {
        var next := DrawFacesLoop(m, cam, vn.value, shapes[i], g);
        if next.Failure? {
          return Failure(next.error);
        }
        g := next.value;
      }
      i := i + 1;
    }
    return Success(g.screen);
  }
}
