/** The Python scene of asciithree.py: the `Environment` holding the shapes, the lights
    and the main camera, its `create_*` helpers that build a shape, append it and return
    it, and `render`, which hands the shapes to the main camera.

    Opening a file is the one piece of I/O here: it is a parameter `files` mapping a path
    to the lines `readlines()` would return, or to nothing when `open` raises. */
module Scenes {
  import opened Wrappers
  import opened Numerics
  import Q = Quaternions
  import M = Meshes
  import P = Projection
  import R = Raster
  import ObjFiles
  import Rendering
  import Output

  /** A light only has a placement; nothing in the renderer reads it. */
  datatype Light = Light(placement: M.Placement)

  datatype Environment = Environment(shapes: seq<M.Shape>, lights: seq<Light>, mainCamera: Option<P.Camera>)

  /** The file system as `open(path).readlines()` sees it. */
  type Files = string -> Option<seq<string>>

  /** `Environment(shapes=None, lights=None)`: missing lists become fresh empty lists, and
      there is no main camera until one is assigned. */
  function NewEnvironment(shapes: Option<seq<M.Shape>>, lights: Option<seq<Light>>): (e: Environment)
    ensures e.mainCamera == None
    ensures shapes.Some? ==> e.shapes == shapes.value
    ensures lights.Some? ==> e.lights == lights.value
    ensures shapes.None? ==> |e.shapes| == 0
    ensures lights.None? ==> |e.lights| == 0
  {
    Environment(if shapes.Some? then shapes.value else [],
                if lights.Some? then lights.value else [],
                None)
  }

  /** `Environment.render`: the main camera's view of the environment's shapes; with no
      main camera, `None.render()` raises. */
  function RenderEnvironment(m: MathLib, env: Environment): (r: Result<seq<seq<char>>>)
    ensures env.mainCamera.None? ==> r == Failure(NoCamera)
    ensures env.mainCamera.Some? ==> r == Rendering.Render(m, env.mainCamera.value, env.shapes)
  {
    match env.mainCamera
    case None => Failure(NoCamera)
    case Some(cam) => Rendering.Render(m, cam, env.shapes)
  }

  // ---------------------------------------------------------------- building shapes

  /** `Shape.from_obj(path, ...)`: `open` raises for a missing file, otherwise the lines are
      parsed and the shape is built from them. */
  function ShapeFromFile(m: MathLib, nums: ObjFiles.PyNumbers, files: Files, path: string, p: M.Placement): (r: Result<M.Shape>)
    ensures files(path).None? ==> r == Failure(FileNotFound)
    ensures files(path).Some? ==> r == ObjFiles.PyShapeFromObj(m, nums, files(path).value, p)
  {
    match files(path)
    case None => Failure(FileNotFound)
    case Some(lines) => ObjFiles.PyShapeFromObj(m, nums, lines, p)
  }

  /** The path `create_preset_shape` opens for a preset's name. */
  function PresetPath(name: string): (path: string)
    ensures |path| == |name| + 12
    ensures path[..8] == "presets/" && path[8..|path| - 4] == name && path[|path| - 4..] == ".obj"
  {
    "presets/" + name + ".obj"
  }

  /** What one `create_*` call asks for. */
  datatype Request =
    | CubeAt(p: M.Placement)
    | TetrahedronAt(p: M.Placement)
    | FileAt(path: string, p: M.Placement)
    | PresetAt(name: string, p: M.Placement)

  /** The shape a request builds, or what its constructor raises. */
  function Build(m: MathLib, nums: ObjFiles.PyNumbers, files: Files, req: Request): Result<M.Shape> {
    match req
    case CubeAt(p) => M.Cube(m, p)
    case TetrahedronAt(p) => M.Tetrahedron(m, p)
    case FileAt(path, p) => ShapeFromFile(m, nums, files, path, p)
    case PresetAt(name, p) => ShapeFromFile(m, nums, files, PresetPath(name), p)
  }

  /** `after` is `before` with `s` appended to the shapes and nothing else changed. */
  predicate Appended(before: Environment, after: Environment, s: M.Shape) {
    && |after.shapes| == |before.shapes| + 1
    && after.shapes[..|before.shapes|] == before.shapes
    && after.shapes[|before.shapes|] == s
    && after.lights == before.lights
    && after.mainCamera == before.mainCamera
  }

  /** The common body of the `create_*` methods: build, append, return the new shape.  A
      constructor that raises leaves the environment as it was. */
  function Create(m: MathLib, nums: ObjFiles.PyNumbers, files: Files, env: Environment, req: Request): (r: Result<(Environment, M.Shape)>)
    ensures r.Success? <==> Build(m, nums, files, req).Success?
    ensures r.Failure? ==> r.error == Build(m, nums, files, req).error
    ensures r.Success? ==> Build(m, nums, files, req) == Success(r.value.1) && Appended(env, r.value.0, r.value.1)
  {
    var s :- Build(m, nums, files, req);
    Success((env.(shapes := env.shapes + [s]), s))
  }

  /** `create_cube`: raises only for the zero rotation, where the normals divide by zero;
      otherwise appends a twelve-triangle cube and returns it. */
  function CreateCube(m: MathLib, env: Environment, p: M.Placement): (r: Result<(Environment, M.Shape)>)
    ensures r.Success? <==> p.rotation != Q.ZeroQuaternion
    ensures r.Failure? ==> r.error == DivisionByZero
    ensures r.Success? ==> Appended(env, r.value.0, r.value.1)
    ensures r.Success? ==> r.value.1.mesh == M.Mesh(M.CubeVertices(), M.CubeTriangles)
                           && r.value.1.placement == p && !r.value.1.hidden
                           && |r.value.1.normals| == 12
  {
    M.BuiltinsSucceedIff(m, p);
    var s :- M.Cube(m, p);
    Success((env.(shapes := env.shapes + [s]), s))
  }

  /** `create_tetrahedron`: like `create_cube`, with the four-triangle tetrahedron. */
  function CreateTetrahedron(m: MathLib, env: Environment, p: M.Placement): (r: Result<(Environment, M.Shape)>)
    ensures r.Success? <==> p.rotation != Q.ZeroQuaternion
    ensures r.Failure? ==> r.error == DivisionByZero
    ensures r.Success? ==> Appended(env, r.value.0, r.value.1)
    ensures r.Success? ==> r.value.1.mesh == M.Mesh(M.TetrahedronVertices(m), M.TetrahedronTriangles)
                           && r.value.1.placement == p && !r.value.1.hidden
                           && |r.value.1.normals| == 4
  {
    M.BuiltinsSucceedIff(m, p);
    var s :- M.Tetrahedron(m, p);
    Success((env.(shapes := env.shapes + [s]), s))
  }

  /** `create_shape_from_file`: a missing file raises before anything is appended; a
      readable one gives the shape `from_obj` builds from its lines. */
  function CreateShapeFromFile(m: MathLib, nums: ObjFiles.PyNumbers, files: Files, env: Environment,
                               path: string, p: M.Placement): (r: Result<(Environment, M.Shape)>)
    ensures files(path).None? ==> r == Failure(FileNotFound)
    ensures files(path).Some? ==>
      (r.Success? <==> ObjFiles.PyShapeFromObj(m, nums, files(path).value, p).Success?)
    ensures r.Success? ==> Appended(env, r.value.0, r.value.1)
                           && ObjFiles.PyShapeFromObj(m, nums, files(path).value, p) == Success(r.value.1)
  {
    Create(m, nums, files, env, FileAt(path, p))
  }

  /** `create_preset_shape`: `create_shape_from_file` on `presets/<name>.obj`. */
  function CreatePresetShape(m: MathLib, nums: ObjFiles.PyNumbers, files: Files, env: Environment,
                             name: string, p: M.Placement): (r: Result<(Environment, M.Shape)>)
    ensures r == CreateShapeFromFile(m, nums, files, env, "presets/" + name + ".obj", p)
  {
    Create(m, nums, files, env, PresetAt(name, p))
  }

  // ---------------------------------------------------------------- a script of calls

  /** A script's `create_*` calls made one after another; the first that raises ends it. */
  function Populate(m: MathLib, nums: ObjFiles.PyNumbers, files: Files, env: Environment, reqs: seq<Request>): Result<Environment>
    decreases |reqs|
  {
    if |reqs| == 0 then Success(env)
    else
      var made :- Create(m, nums, files, env, reqs[0]);
      Populate(m, nums, files, made.0, reqs[1..])
  }

  /** The shapes a script's requests build, in order, or the first error raised. */
  function Built(m: MathLib, nums: ObjFiles.PyNumbers, files: Files, reqs: seq<Request>): Result<seq<M.Shape>>
    decreases |reqs|
  {
    if |reqs| == 0 then Success([])
    else
      var s :- Build(m, nums, files, reqs[0]);
      var rest :- Built(m, nums, files, reqs[1..]);
      Success([s] + rest)
  }

  /** Every request of a script that builds is built in its own position. */
  lemma {:induction false} BuiltElements(m: MathLib, nums: ObjFiles.PyNumbers, files: Files, reqs: seq<Request>)
    decreases |reqs|
    ensures Built(m, nums, files, reqs).Success? <==>
              forall i :: 0 <= i < |reqs| ==> Build(m, nums, files, reqs[i]).Success?
    ensures Built(m, nums, files, reqs).Success? ==>
              && |Built(m, nums, files, reqs).value| == |reqs|
              && forall i :: 0 <= i < |reqs| ==> Build(m, nums, files, reqs[i]) == Success(Built(m, nums, files, reqs).value[i])
  {
    if |reqs| > 0 {
      BuiltElements(m, nums, files, reqs[1..]);
      assert forall i :: 1 <= i < |reqs| ==> reqs[i] == reqs[1..][i - 1];
    }
  }

  /** A script leaves the lights and the camera alone and appends the shapes its requests
      build, in call order, after the shapes already there; it raises exactly when one of
      the requests does, with that request's error. */
  lemma {:induction false} PopulateAppends(m: MathLib, nums: ObjFiles.PyNumbers, files: Files, env: Environment, reqs: seq<Request>)
    decreases |reqs|
    ensures Populate(m, nums, files, env, reqs).Success? <==> Built(m, nums, files, reqs).Success?
    ensures Populate(m, nums, files, env, reqs).Failure? ==>
              Populate(m, nums, files, env, reqs).error == Built(m, nums, files, reqs).error
    ensures Populate(m, nums, files, env, reqs).Success? ==>
              Populate(m, nums, files, env, reqs).value == env.(shapes := env.shapes + Built(m, nums, files, reqs).value)
  {
    if |reqs| == 0 {
      assert env.shapes + [] == env.shapes;
    } else if Build(m, nums, files, reqs[0]).Success? {
      var s := Build(m, nums, files, reqs[0]).value;
      var next := env.(shapes := env.shapes + [s]);
      assert Create(m, nums, files, env, reqs[0]) == Success((next, s));
      PopulateAppends(m, nums, files, next, reqs[1..]);
      if Built(m, nums, files, reqs[1..]).Success? {
        var rest := Built(m, nums, files, reqs[1..]).value;
        assert next.shapes + rest == env.shapes + ([s] + rest);
      }
    }
  }

  // ---------------------------------------------------------------- the written frame

  /** What the renderer draws is one of `' '` and the six glyphs, never a line break, so
      the file `main_loop` writes reads back as the frame that was rendered. */
  lemma RenderedFrameReadsBack(m: MathLib, env: Environment)
    requires RenderEnvironment(m, env).Success?
    ensures Output.Deserialise(Output.Serialise(RenderEnvironment(m, env).value)) == RenderEnvironment(m, env).value
  {
    var cam := env.mainCamera.value;
    var screen := Rendering.Render(m, cam, env.shapes).value;
    Rendering.RenderPalette(m, cam, env.shapes);
    assert Output.SingleLineRows(screen);
    Output.ReadBack(screen);
  }
}
