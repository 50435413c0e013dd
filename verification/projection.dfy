/** Projection of world points onto the screen: `Camera.world_to_screen_space` of main.py
    (duplicated in asciithree.py).

    A point `p` seen by a camera at `a` looking along `b` is first turned into an offset
    `d` in the plane orthogonal to `b` (by dropping the component along `b` in
    orthographic mode, by a central projection at distance `depth` in perspective mode),
    then written in the screen basis `x`, `y` by Cramer's rule on one component of the
    cross products, and finally scaled by `zoom`, truncated and centred on the screen
    with the y axis pointing up. */
module Projection {
  import opened Wrappers
  import opened Numerics
  import V = Vectors
  import VectorLaws
  import M = Meshes

  /** The fields of a Python `Camera` that projection and rendering read; its
      environment is passed to `Render` separately. */
  datatype Camera = Camera(width: int, height: int, zoom: real, perspective: bool, depth: real,
                           placement: M.Placement)

  /** The screen axes for the viewing direction `b`: `x = (b x up).direction()` and
      `y = (x x b).direction()`. */
  function ScreenBasis(m: MathLib, b: V.Vector3): (V.Vector3, V.Vector3) {
    var x := V.Direction(m, V.Cross(b, V.Up));
    (x, V.Direction(m, V.Cross(x, b)))
  }

  /** The screen axes are orthogonal to the viewing direction and to each other, and the
      x axis is horizontal. */
  lemma ScreenBasisIsOrthogonal(m: MathLib, b: V.Vector3)
    requires m.Lawful()
    ensures var (x, y) := ScreenBasis(m, b);
      V.Dot(x, b) == 0.0 && V.Dot(x, V.Up) == 0.0 && V.Dot(y, b) == 0.0 && V.Dot(y, x) == 0.0
  {
    var x := V.Direction(m, V.Cross(b, V.Up));
    VectorLaws.CrossIsOrthogonal(b, V.Up);
    M.DirectionKeepsOrthogonality(m, V.Cross(b, V.Up), b);
    M.DirectionKeepsOrthogonality(m, V.Cross(b, V.Up), V.Up);
    VectorLaws.CrossIsOrthogonal(x, b);
    M.DirectionKeepsOrthogonality(m, V.Cross(x, b), b);
    M.DirectionKeepsOrthogonality(m, V.Cross(x, b), x);
  }

  /** The offset `d_vec` of `p` from the camera in the plane orthogonal to `b`.  Python's
      float division raises on each zero divisor: `|b|` and `(p - a).b` in perspective
      mode, `|b|^2` in orthographic mode. */
  function Offset(m: MathLib, cam: Camera, p: V.Vector3, b: V.Vector3): (r: Result<V.Vector3>)
    ensures r.Failure? ==> r.error == DivisionByZero
    ensures cam.perspective ==>
      (r.Failure? <==> V.Magnitude(m, b) == 0.0 || V.Dot(V.Sub(p, cam.placement.position), b) == 0.0)
    ensures !cam.perspective ==> (r.Failure? <==> b == V.Zero)
  {
    var pa := V.Sub(p, cam.placement.position);
    if cam.perspective then PerspectiveOffset(pa, b, V.Magnitude(m, b), cam.depth)
    else OrthographicOffset(pa, b)
  }

  /** The perspective offset of `pa = p - a`: the point `-depth b / |b|` on the screen
      plane, plus `pa` stretched so that the sum reaches that plane. */
  function PerspectiveOffset(pa: V.Vector3, b: V.Vector3, bMag: real, depth: real): (r: Result<V.Vector3>)
    ensures r.Failure? <==> bMag == 0.0 || V.Dot(pa, b) == 0.0
    ensures r.Failure? ==> r.error == DivisionByZero
  {
    var toScreen :- V.DivideByScalar(V.Scale(b, -depth), bMag);
    var along := V.Dot(pa, b);
    if along == 0.0 then Failure(DivisionByZero)
    else Success(V.Add(toScreen, V.Scale(pa, bMag * depth / along)))
  }

  /** The orthographic offset of `pa = p - a`: `pa` without its component along `b`. */
  function OrthographicOffset(pa: V.Vector3, b: V.Vector3): (r: Result<V.Vector3>)
    ensures r.Failure? <==> b == V.Zero
    ensures r.Failure? ==> r.error == DivisionByZero
  {
    // `|b|^2` is zero exactly for the zero vector, where the division raises.
    if b == V.Zero then Failure(DivisionByZero)
    else Success(V.Sub(pa, V.Scale(b, V.Dot(pa, b) / V.SquareMagnitude(b))))
  }

  lemma DotOfSum(a: V.Vector3, c: V.Vector3, e: V.Vector3)
    ensures V.Dot(V.Add(a, c), e) == V.Dot(a, e) + V.Dot(c, e)
  {
  }

  /** In orthographic mode the offset has no component along the viewing direction. */
  lemma OrthographicOffsetIsOrthogonal(m: MathLib, cam: Camera, p: V.Vector3, b: V.Vector3)
    requires !cam.perspective && b != V.Zero
    ensures Offset(m, cam, p, b).Success? && V.Dot(Offset(m, cam, p, b).value, b) == 0.0
  {
    var pa := V.Sub(p, cam.placement.position);
    var sq := V.SquareMagnitude(b);
    var k := V.Dot(pa, b) / sq;
    VectorLaws.SubComponents(pa, V.Scale(b, k));
    assert V.Dot(V.Sub(pa, V.Scale(b, k)), b) == V.Dot(pa, b) - k * sq;
    MulDivCancel(V.Dot(pa, b), sq);
  }

  /** In perspective mode the offset is orthogonal to the viewing direction too: the
      point is projected onto the screen plane at distance `depth` along `b`. */
  lemma PerspectiveOffsetIsOrthogonal(m: MathLib, cam: Camera, p: V.Vector3, b: V.Vector3)
    requires m.Lawful() && cam.perspective
    requires Offset(m, cam, p, b).Success?
    ensures V.Dot(Offset(m, cam, p, b).value, b) == 0.0
  {
    var pa, bMag := V.Sub(p, cam.placement.position), V.Magnitude(m, b);
    LengthSquared(m, b);
    OnScreenPlane(pa, b, bMag, cam.depth);
  }

  lemma LengthSquared(m: MathLib, b: V.Vector3)
    requires m.Lawful()
    ensures V.Magnitude(m, b) * V.Magnitude(m, b) == V.Dot(b, b)
  {
    var mag, sq := V.Magnitude(m, b), V.SquareMagnitude(b);
    assert mag * mag == sq by {
      V.MagnitudeLaws(m, b);
    }
    assert sq == V.Dot(b, b) by {
      VectorLaws.SquareMagnitudeLaws(b);
    }
  }

  /** `PerspectiveOffset` lands on the plane orthogonal to `b` whenever `bMag` is the
      length of `b`. */
  lemma OnScreenPlane(pa: V.Vector3, b: V.Vector3, bMag: real, depth: real)
    requires bMag * bMag == V.Dot(b, b)
    requires PerspectiveOffset(pa, b, bMag, depth).Success?
    ensures V.Dot(PerspectiveOffset(pa, b, bMag, depth).value, b) == 0.0
  {
    var along := V.Dot(pa, b);
    var toScreen := V.DivideByScalar(V.Scale(b, -depth), bMag).value;
    var k := bMag * depth / along;
    TowardsScreen(b, depth, bMag, toScreen);
    DivMulCancel(bMag * depth, along);
    CancelledSum(toScreen, pa, b, k, bMag * depth);
  }

  /** `t = -depth b / |b|` has `t . b = -depth |b|`. */
  lemma TowardsScreen(b: V.Vector3, depth: real, bMag: real, t: V.Vector3)
    requires bMag != 0.0 && bMag * bMag == V.Dot(b, b)
    requires V.Scale(t, bMag) == V.Scale(b, -depth)
    ensures V.Dot(t, b) == -depth * bMag
  {
    DotOfScaleLeft(t, bMag, b);
    DotOfScaleLeft(b, -depth, b);
    CancelLength(bMag, V.Dot(t, b), depth, V.Dot(b, b));
  }

  /** From `|b| (t . b) = -depth |b|^2` with `|b| != 0`. */
  lemma CancelLength(bMag: real, tb: real, depth: real, bb: real)
    requires bMag != 0.0 && bb == bMag * bMag && bMag * tb == -depth * bb
    ensures tb == -depth * bMag
  {
    assert bMag * tb == bMag * (-depth * bMag);
    CancelFactor(bMag, tb, -depth * bMag);
  }

  /** When `k (a . b) = c` and `t . b = -c`, the sum `t + k a` is orthogonal to `b`. */
  lemma CancelledSum(t: V.Vector3, a: V.Vector3, b: V.Vector3, k: real, c: real)
    requires V.Dot(t, b) == -c && k * V.Dot(a, b) == c
    ensures V.Dot(V.Add(t, V.Scale(a, k)), b) == 0.0
  {
    DotOfScaleLeft(a, k, b);
    DotOfSum(t, V.Scale(a, k), b);
  }

  lemma DotOfScaleLeft(d: V.Vector3, k: real, e: V.Vector3)
    ensures V.Dot(V.Scale(d, k), e) == k * V.Dot(d, e)
  {
  }

  /** A non-zero common factor cancels. */
  lemma CancelFactor(k: real, a: real, c: real)
    requires k != 0.0 && k * a == k * c
    ensures a == c
  {
    assert k * (a - c) == 0.0;
    ZeroProduct(k, a - c);
  }

  /** A point straight ahead of (or behind) an orthographic camera has the zero offset. */
  lemma OrthographicOffsetOfParallel(m: MathLib, cam: Camera, p: V.Vector3, b: V.Vector3, k: real)
    requires !cam.perspective && b != V.Zero
    requires V.Sub(p, cam.placement.position) == V.Scale(b, k)
    ensures Offset(m, cam, p, b) == Success(V.Zero)
  {
    var sq := V.SquareMagnitude(b);
    assert V.Dot(V.Scale(b, k), b) == k * sq;
    MulDivCancel(k, sq);
    VectorLaws.SubComponents(V.Scale(b, k), V.Scale(b, k));
  }

  /** `1e-4`: the size a component of `x x y` must reach to be divided by. */
  const BasisThreshold: real := 0.0001

  /** The coordinates `(u, v)` of `d` in the basis `x`, `y`, by Cramer's rule on the first
      component of `x x y` that is not too small (the z component is used regardless of
      size, and raises when it is zero). */
  function PlaneCoordinates(x: V.Vector3, y: V.Vector3, d: V.Vector3): (r: Result<(real, real)>)
    ensures r.Failure? <==> var n := V.Cross(x, y);
      Abs(n.x) < BasisThreshold && Abs(n.y) < BasisThreshold && n.z == 0.0
    ensures r.Failure? ==> r.error == DivisionByZero
  {
    Cramer(V.Cross(x, y), V.Cross(d, y), V.Cross(x, d))
  }

  /** Cramer's rule with `n = x x y`, `du = d x y` and `dv = x x d`: `u = du / n` and
      `v = dv / n`, read off the first component of `n` that is large enough. */
  function Cramer(n: V.Vector3, du: V.Vector3, dv: V.Vector3): (r: Result<(real, real)>)
    ensures r.Failure? <==> Abs(n.x) < BasisThreshold && Abs(n.y) < BasisThreshold && n.z == 0.0
    ensures r.Failure? ==> r.error == DivisionByZero
  {
    if Abs(n.x) >= BasisThreshold then Success((du.x / n.x, dv.x / n.x))
    else if Abs(n.y) >= BasisThreshold then Success((du.y / n.y, dv.y / n.y))
    else if n.z == 0.0 then Failure(DivisionByZero)
    else Success((du.z / n.z, dv.z / n.z))
  }

  /** Cramer's rule recovers the coordinates of any combination of the two axes. */
  lemma PlaneCoordinatesRecover(x: V.Vector3, y: V.Vector3, u: real, v: real)
    requires PlaneCoordinates(x, y, V.Add(V.Scale(x, u), V.Scale(y, v))).Success?
    ensures PlaneCoordinates(x, y, V.Add(V.Scale(x, u), V.Scale(y, v))).value == (u, v)
  {
    var n := V.Cross(x, y);
    var d := V.Add(V.Scale(x, u), V.Scale(y, v));
    assert V.Cross(d, y) == V.Scale(n, u) && V.Cross(x, d) == V.Scale(n, v) by {
      VectorLaws.CrossOfCombination(x, y, u, v);
    }
    CramerOfScaled(n, u, v);
  }

  /** Cramer's rule on `u n` and `v n` gives back `(u, v)`. */
  lemma CramerOfScaled(n: V.Vector3, u: real, v: real)
    requires Cramer(n, V.Scale(n, u), V.Scale(n, v)).Success?
    ensures Cramer(n, V.Scale(n, u), V.Scale(n, v)).value == (u, v)
  {
    var du, dv := V.Scale(n, u), V.Scale(n, v);
    if Abs(n.x) >= BasisThreshold {
      assert du.x / n.x == u by { ScaledComponent(n.x, u, du.x); }
      assert dv.x / n.x == v by { ScaledComponent(n.x, v, dv.x); }
    } else if Abs(n.y) >= BasisThreshold {
      assert du.y / n.y == u by { ScaledComponent(n.y, u, du.y); }
      assert dv.y / n.y == v by { ScaledComponent(n.y, v, dv.y); }
    } else {
      assert du.z / n.z == u by { ScaledComponent(n.z, u, du.z); }
      assert dv.z / n.z == v by { ScaledComponent(n.z, v, dv.z); }
    }
  }

  /** Dividing a scaled component by the component gives back the scale. */
  lemma ScaledComponent(c: real, k: real, scaled: real)
    requires scaled == c * k
    ensures c != 0.0 ==> scaled / c == k
  {
    if c != 0.0 {
      MulDivCancel(k, c);
    }
  }

  /** The zero offset has coordinates `(0, 0)` whenever the basis can be divided by. */
  lemma PlaneCoordinatesOfZero(x: V.Vector3, y: V.Vector3)
    requires PlaneCoordinates(x, y, V.Zero).Success?
    ensures PlaneCoordinates(x, y, V.Zero).value == (0.0, 0.0)
  {
    assert V.Cross(V.Zero, y) == V.Zero && V.Cross(x, V.Zero) == V.Zero;
  }

  /** `(width // 2 + int(zoom * u), height // 2 - int(zoom * v))`: Python's `//` floors,
      and `int()` truncates toward zero. */
  function ToPixel(cam: Camera, u: real, v: real): (int, int) {
    Centred(cam, cam.zoom * u, cam.zoom * v)
  }

  /** The pixel at the truncated offsets `(su, sv)` from the centre, y pointing up. */
  function Centred(cam: Camera, su: real, sv: real): (int, int) {
    (cam.width / 2 + Trunc(su), cam.height / 2 - Trunc(sv))
  }

  /** Screen x grows with the scaled offset `su` and screen y falls as `sv` grows: rows
      count downwards. With `ScaleMonotone` (a non-negative zoom keeps the order of `u`
      and of `v`) this makes `ToPixel` monotone too. */
  lemma CentredMonotone(cam: Camera, su1: real, sv1: real, su2: real, sv2: real)
    requires su1 <= su2 && sv1 <= sv2
    ensures Centred(cam, su1, sv1).0 <= Centred(cam, su2, sv2).0
    ensures Centred(cam, su1, sv1).1 >= Centred(cam, su2, sv2).1
  {
    TruncMonotone(su1, su2);
    TruncMonotone(sv1, sv2);
  }

  lemma ScaleMonotone(k: real, a: real, b: real)
    requires k >= 0.0 && a <= b
    ensures k * a <= k * b
  {
    assert k * b - k * a == k * (b - a);
  }

  /** Python's `n // 2` floors for negative `n` as well, and so does Dafny's `/` by a
      positive divisor. */
  lemma HalfFloors(n: int)
    ensures 2 * (n / 2) <= n < 2 * (n / 2) + 2
  {
  }

  /** `(u, v) = (0, 0)` lands on the centre pixel `(width // 2, height // 2)`. */
  lemma ToPixelCentre(cam: Camera)
    ensures ToPixel(cam, 0.0, 0.0) == (cam.width / 2, cam.height / 2)
  {
    assert cam.zoom * 0.0 == 0.0;
  }

  /** `world_to_screen_space(p, b, perspective, depth)`: the pixel a world point lands on,
      or the `ZeroDivisionError` one of the divisions raises. */
  function WorldToScreen(m: MathLib, cam: Camera, p: V.Vector3, b: V.Vector3): (r: Result<(int, int)>)
    ensures r.Failure? <==>
      Offset(m, cam, p, b).Failure? ||
      PlaneCoordinates(ScreenBasis(m, b).0, ScreenBasis(m, b).1, Offset(m, cam, p, b).value).Failure?
    ensures r.Failure? ==> r.error == DivisionByZero
  {
    var d :- Offset(m, cam, p, b);
    var (x, y) := ScreenBasis(m, b);
    var uv :- PlaneCoordinates(x, y, d);
    Success(ToPixel(cam, uv.0, uv.1))
  }

  /** An orthographic camera maps every point on its line of sight to the centre pixel
      `(width // 2, height // 2)`. */
  lemma OrthographicLineOfSight(m: MathLib, cam: Camera, p: V.Vector3, b: V.Vector3, k: real)
    requires !cam.perspective && b != V.Zero
    requires V.Sub(p, cam.placement.position) == V.Scale(b, k)
    requires WorldToScreen(m, cam, p, b).Success?
    ensures WorldToScreen(m, cam, p, b).value == (cam.width / 2, cam.height / 2)
  {
    OrthographicOffsetOfParallel(m, cam, p, b, k);
    var (x, y) := ScreenBasis(m, b);
    PlaneCoordinatesOfZero(x, y);
    ToPixelCentre(cam);
  }

  /** An orthographic camera keeps the offset of a point already orthogonal to `b`. */
  lemma OrthographicOffsetOfOrthogonal(pa: V.Vector3, b: V.Vector3)
    requires b != V.Zero && V.Dot(pa, b) == 0.0
    ensures OrthographicOffset(pa, b) == Success(pa)
  {
    var sq := V.SquareMagnitude(b);
    assert V.Dot(pa, b) / sq == 0.0;
    assert V.Scale(b, 0.0) == V.Zero by { VectorLaws.ScaleByZero(b); }
    VectorLaws.SubZero(pa);
  }

  /** An orthographic camera draws the point `a + u x + v y` of its screen plane at
      `ToPixel(u, v)`: projection inverts the screen basis. */
  lemma OrthographicScreenPoint(m: MathLib, cam: Camera, p: V.Vector3, b: V.Vector3, u: real, v: real)
    requires m.Lawful() && !cam.perspective && b != V.Zero
    requires V.Sub(p, cam.placement.position) ==
             V.Add(V.Scale(ScreenBasis(m, b).0, u), V.Scale(ScreenBasis(m, b).1, v))
    requires WorldToScreen(m, cam, p, b).Success?
    ensures WorldToScreen(m, cam, p, b).value == ToPixel(cam, u, v)
  {
    var x, y := ScreenBasis(m, b).0, ScreenBasis(m, b).1;
    var d := V.Add(V.Scale(x, u), V.Scale(y, v));
    assert Offset(m, cam, p, b) == Success(d) by { ScreenPlaneOffset(m, cam, b, d, u, v); }
    assert PlaneCoordinates(x, y, d) == Success((u, v)) by { PlaneCoordinatesRecover(x, y, u, v); }
    WorldToScreenSteps(m, cam, p, b, d, u, v);
  }

  /** A point of the screen plane is its own orthographic offset. */
  lemma ScreenPlaneOffset(m: MathLib, cam: Camera, b: V.Vector3, d: V.Vector3, u: real, v: real)
    requires m.Lawful() && b != V.Zero
    requires d == V.Add(V.Scale(ScreenBasis(m, b).0, u), V.Scale(ScreenBasis(m, b).1, v))
    ensures OrthographicOffset(d, b) == Success(d)
  {
    var x, y := ScreenBasis(m, b).0, ScreenBasis(m, b).1;
    assert V.Dot(x, b) == 0.0 && V.Dot(y, b) == 0.0 by { ScreenBasisIsOrthogonal(m, b); }
    assert V.Dot(d, b) == 0.0 by {
      DotOfSum(V.Scale(x, u), V.Scale(y, v), b);
      DotOfScaleLeft(x, u, b);
      DotOfScaleLeft(y, v, b);
    }
    OrthographicOffsetOfOrthogonal(d, b);
  }

  /** `WorldToScreen` once the offset and its plane coordinates are known. */
  lemma WorldToScreenSteps(m: MathLib, cam: Camera, p: V.Vector3, b: V.Vector3, d: V.Vector3, u: real, v: real)
    requires Offset(m, cam, p, b) == Success(d)
    requires PlaneCoordinates(ScreenBasis(m, b).0, ScreenBasis(m, b).1, d) == Success((u, v))
    ensures WorldToScreen(m, cam, p, b) == Success(ToPixel(cam, u, v))
  {
  }
}
