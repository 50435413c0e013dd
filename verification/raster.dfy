/** The z-buffered triangle rasterizer of main.py's `Camera` (duplicated in asciithree.py):
    `clear_screen`, `_is_in_bounds` and the pixel loop of `_render_triangle`.

    A triangle arrives as three projected pixels, a glyph and a per-pixel depth; the depth
    is a parameter here (`Render` supplies the formula), `None` standing for the division
    by zero that raises.  `Shade` says pixel by pixel what one triangle does to a frame,
    and `RenderTriangle` is the scan itself, a pair of loops proved to compute `Shade`. */
module Raster {
  import opened Wrappers

  type Pixel = (int, int)

  /** A z-buffer entry: `float("inf")` or a finite distance. */
  datatype Depth = Infinite | Finite(value: real)

  /** `dist < z_buffer[y][x]`: every finite distance is closer than infinity. */
  predicate Closer(dist: real, z: Depth) {
    z.Infinite? || dist < z.value
  }

  /** The glyph grid and the z-buffer, both indexed `[y][x]`. */
  datatype Frame = Frame(screen: seq<seq<char>>, zbuf: seq<seq<Depth>>)

  /** The glyph of a cell nothing has been drawn on. */
  const Background: char := ' '

  /** The length of `range(n)`: negative sizes give no rows or columns. */
  function Dim(n: int): nat {
    if n < 0 then 0 else n
  }

  /** `height` rows of `width` cells in both grids. */
  predicate Shaped(f: Frame, width: int, height: int) {
    && |f.screen| == Dim(height) && |f.zbuf| == Dim(height)
    && (forall y :: 0 <= y < |f.screen| ==> |f.screen[y]| == Dim(width))
    && (forall y :: 0 <= y < |f.zbuf| ==> |f.zbuf[y]| == Dim(width))
  }

  /** `clear_screen`: every glyph blank and every depth infinite. */
  function ClearScreen(width: int, height: int): (f: Frame)
    ensures Shaped(f, width, height)
    ensures forall y, x :: 0 <= y < height && 0 <= x < width ==>
              f.screen[y][x] == Background && f.zbuf[y][x] == Infinite
  {
    Frame(seq(Dim(height), _ => seq(Dim(width), _ => Background)),
          seq(Dim(height), _ => seq(Dim(width), _ => Infinite)))
  }

  /** `_is_in_bounds`. */
  predicate InBounds(width: int, height: int, p: Pixel) {
    0 <= p.0 < width && 0 <= p.1 < height
  }

  /** The in-bounds pixels are exactly the cells of a frame of that shape. */
  lemma InBoundsIsCell(f: Frame, width: int, height: int, p: Pixel)
    requires Shaped(f, width, height)
    ensures InBounds(width, height, p) <==>
              0 <= p.1 < |f.screen| && 0 <= p.0 < |f.screen[p.1]|
              && 0 <= p.1 < |f.zbuf| && 0 <= p.0 < |f.zbuf[p.1]|
  {
  }

  /** `x_p[0]*x_q[1] - x_q[0]*x_p[1]` with `x_p = pixel - p`: twice the signed area of the
      triangle `(pixel, p, q)`. */
  function Edge(pixel: Pixel, p: Pixel, q: Pixel): int {
    (pixel.0 - p.0) * (pixel.1 - q.1) - (pixel.0 - q.0) * (pixel.1 - p.1)
  }

  /** The chirality test: the pixel is on the same closed side of all three edges. */
  predicate Covered(a: Pixel, b: Pixel, c: Pixel, pixel: Pixel) {
    var ab, bc, ca := Edge(pixel, a, b), Edge(pixel, b, c), Edge(pixel, c, a);
    (ab <= 0 && bc <= 0 && ca <= 0) || (ab >= 0 && bc >= 0 && ca >= 0)
  }

  /** Swapping the two ends of an edge negates it. */
  lemma EdgeSwap(pixel: Pixel, p: Pixel, q: Pixel)
    ensures Edge(pixel, q, p) == -Edge(pixel, p, q)
  {
  }

  /** The coverage test does not depend on the order of the corners. */
  lemma CoveredPermutation(a: Pixel, b: Pixel, c: Pixel, pixel: Pixel)
    ensures Covered(a, b, c, pixel) == Covered(b, c, a, pixel)
    ensures Covered(a, b, c, pixel) == Covered(a, c, b, pixel)
  {
    EdgeSwap(pixel, a, b);
    EdgeSwap(pixel, b, c);
    EdgeSwap(pixel, c, a);
  }

  /** A corner of the triangle always passes the coverage test. */
  lemma CornersCovered(a: Pixel, b: Pixel, c: Pixel)
    ensures Covered(a, b, c, a) && Covered(a, b, c, b) && Covered(a, b, c, c)
  {
  }

  /** The inclusive bounding box `rect_min_x ..= rect_max_x`, `rect_min_y ..= rect_max_y`. */
  datatype Box = Box(minX: int, maxX: int, minY: int, maxY: int)

  function Min3(p: int, q: int, r: int): int {
    if p <= q && p <= r then p else if q <= r then q else r
  }

  function Max3(p: int, q: int, r: int): int {
    if p >= q && p >= r then p else if q >= r then q else r
  }

  /** The smallest box holding the three corners. */
  function BoundingBox(a: Pixel, b: Pixel, c: Pixel): (box: Box)
    ensures InBox(box, a) && InBox(box, b) && InBox(box, c)
    ensures box.minX in {a.0, b.0, c.0} && box.maxX in {a.0, b.0, c.0}
    ensures box.minY in {a.1, b.1, c.1} && box.maxY in {a.1, b.1, c.1}
  {
    Box(Min3(a.0, b.0, c.0), Max3(a.0, b.0, c.0), Min3(a.1, b.1, c.1), Max3(a.1, b.1, c.1))
  }

  predicate InBox(box: Box, p: Pixel) {
    box.minX <= p.0 <= box.maxX && box.minY <= p.1 <= box.maxY
  }

  /** One triangle as `_render_triangle` receives it after projection. */
  datatype Triangle = Triangle(a: Pixel, b: Pixel, c: Pixel, glyph: char, depthAt: Pixel -> Option<real>)

  /** The pixels the scan visits and tests. */
  predicate Candidate(width: int, height: int, t: Triangle, p: Pixel) {
    InBox(BoundingBox(t.a, t.b, t.c), p) && InBounds(width, height, p) && Covered(t.a, t.b, t.c, p)
  }

  /** A candidate whose depth cannot be computed: the division raises. */
  predicate FailsAt(width: int, height: int, t: Triangle, p: Pixel) {
    Candidate(width, height, t, p) && t.depthAt(p).None?
  }

  /** A candidate that is drawn: its depth is closer than the stored one. */
  predicate Hit(f: Frame, width: int, height: int, t: Triangle, p: Pixel)
    requires Shaped(f, width, height)
  {
    Candidate(width, height, t, p) && t.depthAt(p).Some? && Closer(t.depthAt(p).value, f.zbuf[p.1][p.0])
  }

  /** The scan raises when some row of the box holds a failing pixel. */
  predicate RowFails(width: int, height: int, t: Triangle, y: int) {
    var box := BoundingBox(t.a, t.b, t.c);
    exists x | box.minX <= x <= box.maxX :: FailsAt(width, height, t, (x, y))
  }

  predicate Fails(width: int, height: int, t: Triangle) {
    var box := BoundingBox(t.a, t.b, t.c);
    exists y | box.minY <= y <= box.maxY :: RowFails(width, height, t, y)
  }

  /** Row `y` of the screen after drawing `t`. */
  function ScreenRow(f: Frame, width: int, height: int, t: Triangle, y: int): (row: seq<char>)
    requires Shaped(f, width, height) && 0 <= y < |f.screen|
    ensures |row| == |f.screen[y]|
  {
    seq(|f.screen[y]|, x requires 0 <= x < |f.screen[y]| =>
      if Hit(f, width, height, t, (x, y)) then t.glyph else f.screen[y][x])
  }

  /** Row `y` of the z-buffer after drawing `t`. */
  function DepthRow(f: Frame, width: int, height: int, t: Triangle, y: int): (row: seq<Depth>)
    requires Shaped(f, width, height) && 0 <= y < |f.zbuf|
    ensures |row| == |f.zbuf[y]|
  {
    seq(|f.zbuf[y]|, x requires 0 <= x < |f.zbuf[y]| =>
      if Hit(f, width, height, t, (x, y)) then Finite(t.depthAt((x, y)).value) else f.zbuf[y][x])
  }

  /** What drawing one triangle does to a frame, pixel by pixel: a covered in-bounds pixel
      of the box whose depth is closer takes the glyph and the depth; every other cell
      keeps its own; any candidate whose depth divides by zero makes the whole call raise. */
  function Shade(f: Frame, width: int, height: int, t: Triangle): (r: Result<Frame>)
    requires Shaped(f, width, height)
    ensures r.Failure? <==> Fails(width, height, t)
    ensures r.Failure? ==> r.error == DivisionByZero
    ensures r.Success? ==> Shaped(r.value, width, height)
  {
    if Fails(width, height, t) then Failure(DivisionByZero)
    else Success(Frame(seq(|f.screen|, y requires 0 <= y < |f.screen| => ScreenRow(f, width, height, t, y)),
                       seq(|f.zbuf|, y requires 0 <= y < |f.zbuf| => DepthRow(f, width, height, t, y))))
  }

  /** The cell `(x, y)` after a successful `Shade`. */
  lemma ShadeAt(f: Frame, width: int, height: int, t: Triangle, x: int, y: int)
    requires Shaped(f, width, height) && Shade(f, width, height, t).Success?
    requires InBounds(width, height, (x, y))
    ensures var g := Shade(f, width, height, t).value;
      && g.screen[y][x] == (if Hit(f, width, height, t, (x, y)) then t.glyph else f.screen[y][x])
      && g.zbuf[y][x] == (if Hit(f, width, height, t, (x, y)) then Finite(t.depthAt((x, y)).value)
                          else f.zbuf[y][x])
  {
  }

  /** Only candidates change: a pixel outside the bounding box, or not covered, keeps its
      glyph and depth. */
  lemma ShadeLeavesOthers(f: Frame, width: int, height: int, t: Triangle, x: int, y: int)
    requires Shaped(f, width, height) && Shade(f, width, height, t).Success?
    requires InBounds(width, height, (x, y))
    requires !InBox(BoundingBox(t.a, t.b, t.c), (x, y)) || !Covered(t.a, t.b, t.c, (x, y))
    ensures Shade(f, width, height, t).value.screen[y][x] == f.screen[y][x]
    ensures Shade(f, width, height, t).value.zbuf[y][x] == f.zbuf[y][x]
  {
    ShadeAt(f, width, height, t, x, y);
  }

  /** `Closer` as an order on depths: `d` is no farther than `e`. */
  predicate NoFarther(d: Depth, e: Depth) {
    e.Infinite? || (d.Finite? && d.value <= e.value)
  }

  /** The z-buffer only ever moves closer, and a cell's glyph changes exactly when its
      depth does: the strict `<` writes glyph and depth together. */
  lemma ShadeDepthNeverIncreases(f: Frame, width: int, height: int, t: Triangle, x: int, y: int)
    requires Shaped(f, width, height) && Shade(f, width, height, t).Success?
    requires InBounds(width, height, (x, y))
    ensures var g := Shade(f, width, height, t).value;
      && NoFarther(g.zbuf[y][x], f.zbuf[y][x])
      && (g.zbuf[y][x] != f.zbuf[y][x] ==> g.screen[y][x] == t.glyph)
      && (g.zbuf[y][x] == f.zbuf[y][x] ==> g.screen[y][x] == f.screen[y][x])
  {
    ShadeAt(f, width, height, t, x, y);
  }

  /** Drawing a pixel that is a candidate with a closer depth writes that depth and glyph. */
  lemma ShadeDraws(f: Frame, width: int, height: int, t: Triangle, x: int, y: int)
    requires Shaped(f, width, height) && Shade(f, width, height, t).Success?
    requires Candidate(width, height, t, (x, y)) && t.depthAt((x, y)).Some?
    requires Closer(t.depthAt((x, y)).value, f.zbuf[y][x])
    ensures Shade(f, width, height, t).value.screen[y][x] == t.glyph
    ensures Shade(f, width, height, t).value.zbuf[y][x] == Finite(t.depthAt((x, y)).value)
  {
    ShadeAt(f, width, height, t, x, y);
  }

  /** Two triangles drawn in either order raise together; where both cover a pixel with
      different depths, the nearer one wins whichever came first. */
  lemma ShadeOrderIndependent(f: Frame, width: int, height: int, s: Triangle, t: Triangle, x: int, y: int)
    requires Shaped(f, width, height)
    requires Candidate(width, height, s, (x, y)) && Candidate(width, height, t, (x, y))
    requires s.depthAt((x, y)).Some? && t.depthAt((x, y)).Some?
    requires s.depthAt((x, y)).value < t.depthAt((x, y)).value
    requires Closer(s.depthAt((x, y)).value, f.zbuf[y][x])
    ensures Shade(f, width, height, s).Success? && Shade(f, width, height, t).Success? ==>
      && Shade(Shade(f, width, height, s).value, width, height, t).Success?
      && Shade(Shade(f, width, height, t).value, width, height, s).Success?
      && Shade(Shade(f, width, height, s).value, width, height, t).value.screen[y][x] == s.glyph
      && Shade(Shade(f, width, height, t).value, width, height, s).value.screen[y][x] == s.glyph
      && Shade(Shade(f, width, height, s).value, width, height, t).value.zbuf[y][x] == Finite(s.depthAt((x, y)).value)
      && Shade(Shade(f, width, height, t).value, width, height, s).value.zbuf[y][x] == Finite(s.depthAt((x, y)).value)
  {
    if Shade(f, width, height, s).Success? && Shade(f, width, height, t).Success? {
      var fs := Shade(f, width, height, s).value;
      var ft := Shade(f, width, height, t).value;
      ShadeAt(f, width, height, s, x, y);
      ShadeAt(f, width, height, t, x, y);
      ShadeAt(fs, width, height, t, x, y);
      ShadeAt(ft, width, height, s, x, y);
    }
  }

  /** Row `y` after the scan has visited the columns left of `x`. */
  function RowUpTo(f: Frame, width: int, height: int, t: Triangle, y: int, x: int): (row: (seq<char>, seq<Depth>))
    requires Shaped(f, width, height) && 0 <= y < height
    ensures |row.0| == |f.screen[y]| && |row.1| == |f.zbuf[y]|
  {
    (seq(|f.screen[y]|, i requires 0 <= i < |f.screen[y]| =>
       if i < x && Hit(f, width, height, t, (i, y)) then t.glyph else f.screen[y][i]),
     seq(|f.zbuf[y]|, i requires 0 <= i < |f.zbuf[y]| =>
       if i < x && Hit(f, width, height, t, (i, y)) then Finite(t.depthAt((i, y)).value) else f.zbuf[y][i]))
  }

  /** Visiting column `x` writes it exactly when it is a hit. */
  lemma RowUpToStep(f: Frame, width: int, height: int, t: Triangle, y: int, x: int)
    requires Shaped(f, width, height) && 0 <= y < height
    ensures var before, after := RowUpTo(f, width, height, t, y, x), RowUpTo(f, width, height, t, y, x + 1);
      if Hit(f, width, height, t, (x, y))
      then after == (before.0[x := t.glyph], before.1[x := Finite(t.depthAt((x, y)).value)])
      else after == before
  {
    var before, after := RowUpTo(f, width, height, t, y, x), RowUpTo(f, width, height, t, y, x + 1);
    if Hit(f, width, height, t, (x, y)) {
      assert after.0 == before.0[x := t.glyph];
      assert after.1 == before.1[x := Finite(t.depthAt((x, y)).value)];
    } else {
      assert after.0 == before.0;
      assert after.1 == before.1;
    }
  }

  /** Before the box nothing is written, and past it the whole row is done. */
  lemma RowUpToEnds(f: Frame, width: int, height: int, t: Triangle, y: int)
    requires Shaped(f, width, height) && 0 <= y < height
    ensures var box := BoundingBox(t.a, t.b, t.c);
      && RowUpTo(f, width, height, t, y, box.minX) == (f.screen[y], f.zbuf[y])
      && RowUpTo(f, width, height, t, y, box.maxX + 1) == (ScreenRow(f, width, height, t, y), DepthRow(f, width, height, t, y))
  {
    var box := BoundingBox(t.a, t.b, t.c);
    var start, end := RowUpTo(f, width, height, t, y, box.minX), RowUpTo(f, width, height, t, y, box.maxX + 1);
    assert start.0 == f.screen[y];
    assert start.1 == f.zbuf[y];
    assert end.0 == ScreenRow(f, width, height, t, y);
    assert end.1 == DepthRow(f, width, height, t, y);
  }

  /** One row of the scan: `x` runs over the box, out-of-bounds and uncovered pixels are
      skipped, and a closer depth writes glyph and depth. */
  method ShadeRow(f: Frame, width: int, height: int, t: Triangle, y: int)
    returns (r: Result<(seq<char>, seq<Depth>)>)
    requires Shaped(f, width, height) && 0 <= y < height
    requires BoundingBox(t.a, t.b, t.c).minY <= y <= BoundingBox(t.a, t.b, t.c).maxY
    ensures r.Failure? <==> RowFails(width, height, t, y)
    ensures r.Failure? ==> r.error == DivisionByZero
    ensures r.Success? ==> r.value == (ScreenRow(f, width, height, t, y), DepthRow(f, width, height, t, y))
  {
    var box := BoundingBox(t.a, t.b, t.c);
    RowUpToEnds(f, width, height, t, y);
    var glyphs, depths := f.screen[y], f.zbuf[y];
    var x := box.minX;
    while x <= box.maxX
      invariant box.minX <= x <= box.maxX + 1
      invariant (glyphs, depths) == RowUpTo(f, width, height, t, y, x)
      invariant forall i | box.minX <= i < x :: !FailsAt(width, height, t, (i, y))
    {
      RowUpToStep(f, width, height, t, y, x);
      if InBounds(width, height, (x, y)) && Covered(t.a, t.b, t.c, (x, y)) {
        assert Candidate(width, height, t, (x, y));
        match t.depthAt((x, y))
        case None =>
          assert FailsAt(width, height, t, (x, y));
          return Failure(DivisionByZero);
        case Some(dist) =>
          if Closer(dist, depths[x]) {
            glyphs := glyphs[x := t.glyph];
            depths := depths[x := Finite(dist)];
          }
      }
      x := x + 1;
    }
    return Success((glyphs, depths));
  }

  /** The frame after the scan has visited the rows above `y`. */
  function FrameUpTo(f: Frame, width: int, height: int, t: Triangle, y: int): (g: Frame)
    requires Shaped(f, width, height)
  {
    Frame(seq(|f.screen|, j requires 0 <= j < |f.screen| =>
            if j < y then ScreenRow(f, width, height, t, j) else f.screen[j]),
          seq(|f.zbuf|, j requires 0 <= j < |f.zbuf| =>
            if j < y then DepthRow(f, width, height, t, j) else f.zbuf[j]))
  }

  /** Visiting row `y` replaces it by its scanned row. */
  lemma FrameUpToStep(f: Frame, width: int, height: int, t: Triangle, y: int)
    requires Shaped(f, width, height)
    ensures var before, after := FrameUpTo(f, width, height, t, y), FrameUpTo(f, width, height, t, y + 1);
      if 0 <= y < height
      then after == Frame(before.screen[y := ScreenRow(f, width, height, t, y)],
                          before.zbuf[y := DepthRow(f, width, height, t, y)])
      else after == before
  {
    var before, after := FrameUpTo(f, width, height, t, y), FrameUpTo(f, width, height, t, y + 1);
    if 0 <= y < height {
      assert after.screen == before.screen[y := ScreenRow(f, width, height, t, y)];
      assert after.zbuf == before.zbuf[y := DepthRow(f, width, height, t, y)];
    } else {
      assert after.screen == before.screen;
      assert after.zbuf == before.zbuf;
    }
  }

  /** A row outside the box is left as it was. */
  lemma RowOutsideBox(f: Frame, width: int, height: int, t: Triangle, y: int)
    requires Shaped(f, width, height) && 0 <= y < height
    requires !(BoundingBox(t.a, t.b, t.c).minY <= y <= BoundingBox(t.a, t.b, t.c).maxY)
    ensures ScreenRow(f, width, height, t, y) == f.screen[y]
    ensures DepthRow(f, width, height, t, y) == f.zbuf[y]
  {
  }

  /** Before the box the frame is untouched. */
  lemma FrameUpToStart(f: Frame, width: int, height: int, t: Triangle)
    requires Shaped(f, width, height)
    ensures FrameUpTo(f, width, height, t, BoundingBox(t.a, t.b, t.c).minY) == f
  {
    var box := BoundingBox(t.a, t.b, t.c);
    var g := FrameUpTo(f, width, height, t, box.minY);
    forall j | 0 <= j < Dim(height) && j < box.minY {
      RowOutsideBox(f, width, height, t, j);
    }
    assert g.screen == f.screen;
    assert g.zbuf == f.zbuf;
  }

  /** Past the box the frame is `Shade`'s. */
  lemma FrameUpToEnd(f: Frame, width: int, height: int, t: Triangle)
    requires Shaped(f, width, height) && !Fails(width, height, t)
    ensures FrameUpTo(f, width, height, t, BoundingBox(t.a, t.b, t.c).maxY + 1) == Shade(f, width, height, t).value
  {
    var box := BoundingBox(t.a, t.b, t.c);
    forall j | 0 <= j < Dim(height) && box.maxY < j {
      RowOutsideBox(f, width, height, t, j);
    }
  }

  /** Visiting row `y` of the box: an out-of-bounds row is skipped, an in-bounds one is
      scanned. */
  method ScanRow(f: Frame, width: int, height: int, t: Triangle, g: Frame, y: int) returns (r: Result<Frame>)
    requires Shaped(f, width, height)
    requires BoundingBox(t.a, t.b, t.c).minY <= y <= BoundingBox(t.a, t.b, t.c).maxY
    requires g == FrameUpTo(f, width, height, t, y)
    ensures r.Failure? <==> RowFails(width, height, t, y)
    ensures r.Success? ==> r.value == FrameUpTo(f, width, height, t, y + 1)
  {
    FrameUpToStep(f, width, height, t, y);
    if 0 <= y < height {
      var row := ShadeRow(f, width, height, t, y);
      if row.Failure? {
        return Failure(DivisionByZero);
      }
      return Success(Frame(g.screen[y := row.value.0], g.zbuf[y := row.value.1]));
    }
    assert !RowFails(width, height, t, y);
    return Success(g);
  }

  /** The rows of the scan: `y` runs over the box and the first pixel whose depth divides
      by zero raises. */
  method ScanRows(f: Frame, width: int, height: int, t: Triangle) returns (r: Result<Frame>)
    requires Shaped(f, width, height)
    ensures r.Failure? <==> Fails(width, height, t)
    ensures r.Failure? ==> r.error == DivisionByZero
    ensures r.Success? ==> r.value == FrameUpTo(f, width, height, t, BoundingBox(t.a, t.b, t.c).maxY + 1)
  {
    var box := BoundingBox(t.a, t.b, t.c);
    var g := f;
    var y := box.minY;
    FrameUpToStart(f, width, height, t);
    while y <= box.maxY
      invariant box.minY <= y <= box.maxY + 1
      invariant forall j | box.minY <= j < y :: !RowFails(width, height, t, j)
      invariant g == FrameUpTo(f, width, height, t, y)
    {
      var next := ScanRow(f, width, height, t, g, y);
      if next.Failure? {
        return Failure(DivisionByZero);
      }
      g := next.value;
      y := y + 1;
    }
    return Success(g);
  }

  /** `_render_triangle`'s pixel loop computes `Shade`. */
  method RenderTriangle(f: Frame, width: int, height: int, t: Triangle) returns (r: Result<Frame>)
    requires Shaped(f, width, height)
    ensures r == Shade(f, width, height, t)
  {
    r := ScanRows(f, width, height, t);
    if r.Success? {
      FrameUpToEnd(f, width, height, t);
    }
  }
}
