/** Reading Wavefront OBJ text: `Shape.from_obj` of asciithree.py and `PolyShape.fromObj`
    of Typescript/src/builtins/shape.ts, over lines that have already been read.

    Both implementations keep `v x y z` lines as vertices and `f i j k [l]` lines as
    faces, skip blank and `#` lines and ignore other keywords.  They differ in three
    ways the model keeps apart:
    - Python splits on single spaces only (so a tab inside a line stays in a token),
      TypeScript on every run of whitespace;
    - Python raises on a face with neither three nor four corners, TypeScript drops it;
    - Python raises on a short `v` line or a malformed number, TypeScript reads
      `Number(undefined)` and `Number(text)` without raising. */
module ObjFiles {
  import opened Wrappers
  import opened Sequences
  import opened Text
  import opened Numerics
  import V = Vectors
  import M = Meshes

  /** What one line contributes. */
  datatype ObjLine = Skip | VertexLine(vertex: V.Vector3) | FaceLine(triangles: seq<M.Triangle>)

  /** The vertex and triangle lists built so far. */
  datatype ObjData = ObjData(vertices: seq<V.Vector3>, triangles: seq<M.Triangle>)

  const Empty: ObjData := ObjData([], [])

  /** Python's `float()` and `int()` applied to one token; each fails with `ValueError`
      on text that is not a number. */
  datatype PyNumbers = PyNumbers(toFloat: string -> Result<real>, toInt: string -> Result<int>)

  /** JavaScript's `Number()` on a token or on `undefined` (a missing token), and on a
      face corner's index text.  The index is narrowed to an integer: text whose number
      is fractional or NaN stands for an integer that lies outside the vertex array once
      1 is subtracted, since such an index reads `undefined` just as an out-of-range one
      does. */
  datatype TsNumbers = TsNumbers(coordinate: Option<string> -> real, index: string -> int)

  /** `tok.split("/")[0]`: the vertex index of a face corner written `v/vt/vn`. */
  function BeforeSlash(tok: string): (r: string)
    ensures |r| <= |tok| && r == tok[..|r|]
    ensures forall j :: 0 <= j < |r| ==> r[j] != '/'
    ensures |r| < |tok| ==> tok[|r|] == '/'
  {
    FirstPiece(tok, IsChar('/'));
    SplitWhere(tok, IsChar('/'))[0]
  }

  /** The triangles of a face with the given 1-based corner indices: a triangle is kept
      and a quad `a b c d` is cut along the diagonal `a c`; any other count of corners has
      no triangulation. */
  function Triangulate(corners: seq<int>): (r: Option<seq<M.Triangle>>)
    ensures r.Some? <==> |corners| == 3 || |corners| == 4
  {
    if |corners| == 3 then
      Some([(corners[0] - 1, corners[1] - 1, corners[2] - 1)])
    else if |corners| == 4 then
      Some([(corners[0] - 1, corners[1] - 1, corners[2] - 1), (corners[2] - 1, corners[3] - 1, corners[0] - 1)])
    else
      None
  }

  /** A triangulated face has `n - 2` triangles; every corner of every triangle is a
      corner of the face made 0-based, and every corner of the face is used. */
  lemma TriangulateUsesCorners(corners: seq<int>)
    requires Triangulate(corners).Some?
    ensures var ts := Triangulate(corners).value;
      && |ts| == |corners| - 2
      && (forall k :: 0 <= k < |ts| ==>
            ts[k].0 + 1 in corners && ts[k].1 + 1 in corners && ts[k].2 + 1 in corners)
      && (forall i :: 0 <= i < |corners| ==>
            exists k :: 0 <= k < |ts| && corners[i] - 1 in {ts[k].0, ts[k].1, ts[k].2})
  {
    var ts := Triangulate(corners).value;
    forall i | 0 <= i < |corners|
      ensures exists k :: 0 <= k < |ts| && corners[i] - 1 in {ts[k].0, ts[k].1, ts[k].2}
    {
      if i == 3 {
        assert corners[i] - 1 in {ts[1].0, ts[1].1, ts[1].2};
      } else {
        assert corners[i] - 1 in {ts[0].0, ts[0].1, ts[0].2};
      }
    }
  }

  // ---------------------------------------------------------------------------------
  // Python

  /** `line.strip().split(" ")` with the empty tokens removed. */
  function PyTokens(line: string): seq<string> {
    Tokens(Strip(line, PySpace), IsChar(' '))
  }

  /** `[int(tok.split("/")[0]) for tok in tokens]`: the first malformed index raises. */
  function PyCorners(nums: PyNumbers, tokens: seq<string>): (r: Result<seq<int>>)
    ensures r.Success? <==> forall i :: 0 <= i < |tokens| ==> nums.toInt(BeforeSlash(tokens[i])).Success?
    ensures r.Success? ==> |r.value| == |tokens|
    ensures r.Success? ==> forall i :: 0 <= i < |tokens| ==> r.value[i] == nums.toInt(BeforeSlash(tokens[i])).value
  {
    if |tokens| == 0 then Success([])
    else
      var first :- nums.toInt(BeforeSlash(tokens[0]));
      var rest :- PyCorners(nums, tokens[1..]);
      assert forall i :: 1 <= i < |tokens| ==> tokens[i] == tokens[1..][i - 1];
      Success([first] + rest)
  }

  /** One line of the loop in `from_obj`. */
  function PyLine(nums: PyNumbers, line: string): Result<ObjLine> {
    var tokens := PyTokens(line);
    if |tokens| == 0 || tokens[0] == "#" then Success(Skip)
    else if tokens[0] == "v" then
      var x :- PyIndex(tokens, 1);
      var fx :- nums.toFloat(x);
      var y :- PyIndex(tokens, 2);
      var fy :- nums.toFloat(y);
      var z :- PyIndex(tokens, 3);
      var fz :- nums.toFloat(z);
      Success(VertexLine(V.Vector3(fx, fy, fz)))
    else if tokens[0] == "f" then
      var corners :- PyCorners(nums, tokens[1..]);
      match Triangulate(corners)
      case None => Failure(BadFaceArity)
      case Some(ts) => Success(FaceLine(ts))
    else Success(Skip)
  }

  /** Adds one line's contribution to the lists. */
  function Apply(d: ObjData, l: ObjLine): ObjData {
    match l
    case Skip => d
    case VertexLine(v) => ObjData(d.vertices + [v], d.triangles)
    case FaceLine(ts) => ObjData(d.vertices, d.triangles + ts)
  }

  /** Reads `lines` in order with `read`, stopping at the first line that raises. */
  function ReadAll(read: string -> Result<ObjLine>, lines: seq<string>): Result<ObjData> {
    if |lines| == 0 then Success(Empty)
    else
      var d :- ReadAll(read, lines[..|lines| - 1]);
      var l :- read(lines[|lines| - 1]);
      Success(Apply(d, l))
  }

  /** The Python line reader as a function value. */
  function PyReader(nums: PyNumbers): string -> Result<ObjLine> {
    line => PyLine(nums, line)
  }

  /** The vertex and triangle lists `from_obj` builds from `lines`, or the error the first
      bad line raises. */
  function PyParse(nums: PyNumbers, lines: seq<string>): Result<ObjData> {
    ReadAll(PyReader(nums), lines)
  }

  /** Combines the lists read from two consecutive stretches of lines. */
  function Concat(a: ObjData, b: ObjData): ObjData {
    ObjData(a.vertices + b.vertices, a.triangles + b.triangles)
  }

  lemma ApplyConcat(a: ObjData, b: ObjData, l: ObjLine)
    ensures Apply(Concat(a, b), l) == Concat(a, Apply(b, l))
  {
    match l
    case Skip =>
    case VertexLine(v) =>
      assert (a.vertices + b.vertices) + [v] == a.vertices + (b.vertices + [v]);
    case FaceLine(ts) =>
      assert (a.triangles + b.triangles) + ts == a.triangles + (b.triangles + ts);
  }

  /** Reading `a + b` reads `a` and then `b`: on success the lists are the
      concatenations, and otherwise the error is `a`'s, or `b`'s when `a` is fine. */
  lemma {:induction false} ReadAllAppend(read: string -> Result<ObjLine>, a: seq<string>, b: seq<string>)
    ensures ReadAll(read, a).Failure? ==> ReadAll(read, a + b) == ReadAll(read, a)
    ensures ReadAll(read, a).Success? && ReadAll(read, b).Failure? ==> ReadAll(read, a + b) == ReadAll(read, b)
    ensures ReadAll(read, a).Success? && ReadAll(read, b).Success? ==>
              ReadAll(read, a + b) == Success(Concat(ReadAll(read, a).value, ReadAll(read, b).value))
  {
    if |b| == 0 {
      assert a + b == a;
      if ReadAll(read, a).Success? {
        assert Concat(ReadAll(read, a).value, Empty) == ReadAll(read, a).value;
      }
    } else {
      var init, last := b[..|b| - 1], b[|b| - 1];
      assert (a + b)[..|a + b| - 1] == a + init;
      assert (a + b)[|a + b| - 1] == last;
      ReadAllAppend(read, a, init);
      if ReadAll(read, a).Success? && ReadAll(read, init).Success? && read(last).Success? {
        ApplyConcat(ReadAll(read, a).value, ReadAll(read, init).value, read(last).value);
      }
    }
  }

  /** Reading succeeds exactly when every line can be read. */
  lemma {:induction false} ReadAllSucceedsIff(read: string -> Result<ObjLine>, lines: seq<string>)
    ensures ReadAll(read, lines).Success? <==> forall i :: 0 <= i < |lines| ==> read(lines[i]).Success?
  {
    if |lines| > 0 {
      var init, last := lines[..|lines| - 1], lines[|lines| - 1];
      ReadAllSucceedsIff(read, init);
      assert forall i :: 0 <= i < |init| ==> init[i] == lines[i];
    }
  }

  /** When reading fails, the error is the one the first unreadable line raises. */
  lemma {:induction false} ReadAllFirstError(read: string -> Result<ObjLine>, lines: seq<string>)
    requires ReadAll(read, lines).Failure?
    ensures exists k :: 0 <= k < |lines| && read(lines[k]).Failure? && ReadAll(read, lines) == read(lines[k]).PropagateFailure() &&
              forall j :: 0 <= j < k ==> read(lines[j]).Success?
  {
    var init, last := lines[..|lines| - 1], lines[|lines| - 1];
    assert forall i :: 0 <= i < |init| ==> init[i] == lines[i];
    if ReadAll(read, init).Failure? {
      ReadAllFirstError(read, init);
      var k :| 0 <= k < |init| && read(init[k]).Failure? && ReadAll(read, init) == read(init[k]).PropagateFailure() &&
               forall j :: 0 <= j < k ==> read(init[j]).Success?;
      assert read(lines[k]).Failure?;
    } else {
      ReadAllSucceedsIff(read, init);
      assert read(lines[|lines| - 1]).Failure?;
    }
  }

  /** A line that adds nothing (blank, `#` or an unknown keyword) can be removed. */
  lemma ReadAllSkipsLine(read: string -> Result<ObjLine>, a: seq<string>, line: string, b: seq<string>)
    requires read(line) == Success(Skip)
    ensures ReadAll(read, a + [line] + b) == ReadAll(read, a + b)
  {
    ReadAllAppend(read, a, [line]);
    assert [line][..0] == [];
    assert ReadAll(read, [line]) == Success(Apply(Empty, Skip));
    ReadAllAppend(read, a + [line], b);
    ReadAllAppend(read, a, b);
    if ReadAll(read, a).Success? {
      assert Concat(ReadAll(read, a).value, Empty) == ReadAll(read, a).value;
    }
  }

  /** `from_obj` succeeds exactly when every line can be read; a blank, `#` or
      unknown-keyword line can be removed without changing the result. */
  lemma PyParseLines(nums: PyNumbers, a: seq<string>, line: string, b: seq<string>)
    ensures PyParse(nums, a).Success? <==> forall i :: 0 <= i < |a| ==> PyLine(nums, a[i]).Success?
    ensures PyLine(nums, line) == Success(Skip) ==> PyParse(nums, a + [line] + b) == PyParse(nums, a + b)
  {
    ReadAllSucceedsIff(PyReader(nums), a);
    if PyLine(nums, line) == Success(Skip) {
      ReadAllSkipsLine(PyReader(nums), a, line, b);
    }
  }

  /** A face line whose corners parse as integers but number neither three nor four
      raises `ValueError("Faces must be triangles or quads")`. */
  lemma PyRejectsOtherFaces(nums: PyNumbers, line: string)
    requires |PyTokens(line)| > 0 && PyTokens(line)[0] == "f"
    requires PyCorners(nums, PyTokens(line)[1..]).Success?
    requires |PyTokens(line)| - 1 !in {3, 4}
    ensures PyLine(nums, line) == Failure(BadFaceArity)
  {
  }

  /** A `v` line with fewer than three coordinates raises `IndexError` once the
      coordinates it has are read. */
  lemma PyRejectsShortVertex(nums: PyNumbers, line: string)
    requires |PyTokens(line)| > 0 && PyTokens(line)[0] == "v" && |PyTokens(line)| < 4
    requires forall i :: 1 <= i < |PyTokens(line)| ==> nums.toFloat(PyTokens(line)[i]).Success?
    ensures PyLine(nums, line) == Failure(IndexOutOfRange)
  {
  }

  // ---------------------------------------------------------------------------------
  // TypeScript

  /** `line.trim().split(/\s+/).filter(token => token !== "")`. */
  function TsTokens(line: string): seq<string> {
    Tokens(Strip(line, JsSpace), JsSpace)
  }

  /** `tokens[i]`, `undefined` past the end. */
  function TsLookup(tokens: seq<string>, i: nat): (r: Option<string>)
    ensures r.Some? <==> i < |tokens|
    ensures r.Some? ==> r.value == tokens[i]
  {
    if i < |tokens| then Some(tokens[i]) else None
  }

  /** `tokens.splice(1).map(token => Number(token.split("/")[0]))`. */
  function TsCorners(nums: TsNumbers, tokens: seq<string>): (r: seq<int>)
    ensures |r| == |tokens|
    ensures forall i :: 0 <= i < |tokens| ==> r[i] == nums.index(BeforeSlash(tokens[i]))
  {
    seq(|tokens|, i requires 0 <= i < |tokens| => nums.index(BeforeSlash(tokens[i])))
  }

  /** One iteration of the `for` loop in `fromObj`; it never throws. */
  function TsLine(nums: TsNumbers, line: string): ObjLine {
    var tokens := TsTokens(line);
    if |tokens| == 0 then Skip
    else if tokens[0] == "v" then
      VertexLine(V.Vector3(nums.coordinate(TsLookup(tokens, 1)), nums.coordinate(TsLookup(tokens, 2)),
                           nums.coordinate(TsLookup(tokens, 3))))
    else if tokens[0] == "f" then
      match Triangulate(TsCorners(nums, tokens[1..]))
      case None => Skip
      case Some(ts) => FaceLine(ts)
    else Skip
  }

  /** The vertex and triangle lists `fromObj` builds from `lines`. */
  function TsParse(nums: TsNumbers, lines: seq<string>): ObjData {
    if |lines| == 0 then Empty
    else Apply(TsParse(nums, lines[..|lines| - 1]), TsLine(nums, lines[|lines| - 1]))
  }

  /** Reading `a + b` reads `a` and then `b`. */
  lemma {:induction false} TsParseAppend(nums: TsNumbers, a: seq<string>, b: seq<string>)
    ensures TsParse(nums, a + b) == Concat(TsParse(nums, a), TsParse(nums, b))
  {
    if |b| == 0 {
      assert a + b == a;
      assert Concat(TsParse(nums, a), Empty) == TsParse(nums, a);
    } else {
      var init, last := b[..|b| - 1], b[|b| - 1];
      assert (a + b)[..|a + b| - 1] == a + init;
      assert (a + b)[|a + b| - 1] == last;
      TsParseAppend(nums, a, init);
      ApplyConcat(TsParse(nums, a), TsParse(nums, init), TsLine(nums, last));
    }
  }

  /** Each `v` line adds exactly one vertex, read from tokens 1 to 3, and no triangle. */
  lemma TsVertexLine(nums: TsNumbers, lines: seq<string>, line: string)
    requires |TsTokens(line)| > 0 && TsTokens(line)[0] == "v"
    ensures var before, after := TsParse(nums, lines), TsParse(nums, lines + [line]);
      var tokens := TsTokens(line);
      && after.triangles == before.triangles
      && after.vertices == before.vertices + [V.Vector3(nums.coordinate(TsLookup(tokens, 1)),
           nums.coordinate(TsLookup(tokens, 2)), nums.coordinate(TsLookup(tokens, 3)))]
  {
    assert (lines + [line])[..|lines|] == lines;
  }

  /** A face line with neither three nor four corners is dropped without complaint. */
  lemma TsDropsOtherFaces(nums: TsNumbers, lines: seq<string>, line: string)
    requires |TsTokens(line)| > 0 && TsTokens(line)[0] == "f" && |TsTokens(line)| - 1 !in {3, 4}
    ensures TsParse(nums, lines + [line]) == TsParse(nums, lines)
  {
    var tokens := TsTokens(line);
    assert Triangulate(TsCorners(nums, tokens[1..])).None?;
    assert TsLine(nums, line) == Skip;
    assert (lines + [line])[..|lines|] == lines;
  }

  /** `trim` before a whitespace split changes nothing: the tokens are those of the raw
      line. */
  lemma TsTrimIsRedundant(line: string)
    ensures TsTokens(line) == Tokens(line, JsSpace)
  {
    TokensOfStrip(line, JsSpace, JsSpace);
  }

  // ---------------------------------------------------------------------------------
  // The two readers side by side

  /** A line whose only whitespace, in either language's sense, is the plain space. */
  predicate SpacesOnly(line: string) {
    forall i :: 0 <= i < |line| ==> (PySpace(line[i]) || JsSpace(line[i])) ==> line[i] == ' '
  }

  /** The number readers of the two implementations agree wherever Python succeeds. */
  ghost predicate SameNumbers(py: PyNumbers, ts: TsNumbers) {
    && (forall t :: py.toFloat(t).Success? ==> py.toFloat(t).value == ts.coordinate(Some(t)))
    && (forall t :: py.toInt(t).Success? ==> py.toInt(t).value == ts.index(t))
  }

  /** On a line separated by plain spaces, both implementations see the same tokens. */
  lemma SameTokens(line: string)
    requires SpacesOnly(line)
    ensures PyTokens(line) == TsTokens(line)
  {
    StripAgrees(line, PySpace, JsSpace);
    var s := Strip(line, JsSpace);
    assert forall i :: 0 <= i < |s| ==> (IsChar(' ')(s[i]) <==> JsSpace(s[i]));
    SplitSameSeparators(s, IsChar(' '), JsSpace);
  }

  /** Where Python reads a line, TypeScript reads the same thing from it. */
  lemma SameLine(py: PyNumbers, ts: TsNumbers, line: string)
    requires SpacesOnly(line) && SameNumbers(py, ts)
    requires PyLine(py, line).Success?
    ensures TsLine(ts, line) == PyLine(py, line).value
  {
    SameTokens(line);
    var tokens := PyTokens(line);
    if |tokens| > 0 && tokens[0] == "f" {
      assert PyCorners(py, tokens[1..]).value == TsCorners(ts, tokens[1..]);
    }
  }

  /** A file with plain-space separators that Python reads without raising gives
      TypeScript the same vertices and triangles. */
  lemma {:induction false} SameParse(py: PyNumbers, ts: TsNumbers, lines: seq<string>)
    requires forall i :: 0 <= i < |lines| ==> SpacesOnly(lines[i])
    requires SameNumbers(py, ts)
    requires PyParse(py, lines).Success?
    ensures TsParse(ts, lines) == PyParse(py, lines).value
  {
    if |lines| > 0 {
      var init := lines[..|lines| - 1];
      assert forall i :: 0 <= i < |init| ==> init[i] == lines[i];
      SameParse(py, ts, init);
      SameLine(py, ts, lines[|lines| - 1]);
    }
  }

  // ---------------------------------------------------------------------------------
  // Shapes from files

  /** `Shape.from_obj`: the lists read from the file, then the `Shape` constructor, which
      computes the normals and so raises on a face index outside the vertex list. */
  function PyShapeFromObj(m: MathLib, nums: PyNumbers, lines: seq<string>, p: M.Placement): (r: Result<M.Shape>)
    ensures r.Success? <==>
      PyParse(nums, lines).Success? &&
      M.CalculateNormals(m, p, M.Mesh(PyParse(nums, lines).value.vertices, PyParse(nums, lines).value.triangles)).Success?
    ensures r.Success? ==> r.value.mesh.vertices == PyParse(nums, lines).value.vertices &&
                           r.value.mesh.triangles == PyParse(nums, lines).value.triangles
  {
    var d :- PyParse(nums, lines);
    M.NewShape(m, M.Mesh(d.vertices, d.triangles), p)
  }

  /** `PolyShape.fromObj`: the lists read from the file; nothing is checked until the
      normals are asked for. */
  function TsShapeFromObj(nums: TsNumbers, lines: seq<string>, p: M.Placement, hidden: bool): (r: M.PolyShape)
    ensures r.mesh == M.Mesh(TsParse(nums, lines).vertices, TsParse(nums, lines).triangles)
    ensures r.placement == p && r.hidden == hidden
  {
    var d := TsParse(nums, lines);
    M.PolyShape(M.Mesh(d.vertices, d.triangles), p, hidden)
  }
}
