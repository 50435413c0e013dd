/** The TypeScript scene registry of Typescript/src/environment.ts: three append-only
    lists of shapes, cameras and lights, and a main camera that is the first camera ever
    added.  The registry is generic in what a shape, a camera and a light are: it only
    stores them. */
module Registry {
  import opened Wrappers

  /** An `Entity` of the scene: one of the three kinds the registry stores. */
  datatype Entity<S, C, L> = ShapeEntity(shape: S) | CameraEntity(camera: C) | LightEntity(light: L)

  datatype Registry<S, C, L> = Registry(shapes: seq<S>, cameras: seq<C>, lights: seq<L>, mainCamera: Option<C>)

  /** The environment `getEnvironment` creates the first time it is asked for. */
  function Empty<S, C, L>(): (r: Registry<S, C, L>)
    ensures Valid(r)
    ensures |r.shapes| == 0 && |r.cameras| == 0 && |r.lights| == 0
  {
    Registry([], [], [], None)
  }

  /** What the methods keep true: the main camera is the first camera in the list, and
      there is none exactly when no camera has been added. */
  ghost predicate Valid<S, C, L>(r: Registry<S, C, L>) {
    if |r.cameras| == 0 then r.mainCamera == None else r.mainCamera == Some(r.cameras[0])
  }

  /** `addShape`: appends; the cameras, lights and main camera stay as they were. */
  function AddShape<S, C, L>(r: Registry<S, C, L>, s: S): (r': Registry<S, C, L>)
    ensures r'.shapes == r.shapes + [s]
    ensures r'.cameras == r.cameras && r'.lights == r.lights && r'.mainCamera == r.mainCamera
    ensures Valid(r) ==> Valid(r')
  {
    r.(shapes := r.shapes + [s])
  }

  /** `addLight`: appends; the shapes, cameras and main camera stay as they were. */
  function AddLight<S, C, L>(r: Registry<S, C, L>, l: L): (r': Registry<S, C, L>)
    ensures r'.lights == r.lights + [l]
    ensures r'.shapes == r.shapes && r'.cameras == r.cameras && r'.mainCamera == r.mainCamera
    ensures Valid(r) ==> Valid(r')
  {
    r.(lights := r.lights + [l])
  }

  /** `addCamera`: appends, and the camera becomes the main camera only if there was none. */
  function AddCamera<S, C, L>(r: Registry<S, C, L>, c: C): (r': Registry<S, C, L>)
    ensures r'.cameras == r.cameras + [c]
    ensures r'.shapes == r.shapes && r'.lights == r.lights
    ensures r.mainCamera.Some? ==> r'.mainCamera == r.mainCamera
    ensures r.mainCamera.None? ==> r'.mainCamera == Some(c)
    ensures Valid(r) ==> Valid(r')
  {
    var r' := r.(cameras := r.cameras + [c]);
    if r.mainCamera.None? then r'.(mainCamera := Some(c)) else r'
  }

  /** `getObjects`: the shapes, then the cameras, then the lights, each in the order they
      were added. */
  function GetObjects<S, C, L>(r: Registry<S, C, L>): (objs: seq<Entity<S, C, L>>)
    ensures |objs| == |r.shapes| + |r.cameras| + |r.lights|
    ensures forall i :: 0 <= i < |r.shapes| ==> objs[i] == ShapeEntity(r.shapes[i])
    ensures forall i :: 0 <= i < |r.cameras| ==> objs[|r.shapes| + i] == CameraEntity(r.cameras[i])
    ensures forall i :: 0 <= i < |r.lights| ==> objs[|r.shapes| + |r.cameras| + i] == LightEntity(r.lights[i])
  {
    AsShapes(r.shapes) + AsCameras(r.cameras) + AsLights(r.lights)
  }

  function AsShapes<S, C, L>(xs: seq<S>): (es: seq<Entity<S, C, L>>)
    ensures |es| == |xs| && forall i :: 0 <= i < |xs| ==> es[i] == ShapeEntity(xs[i])
  {
    seq(|xs|, i requires 0 <= i < |xs| => ShapeEntity(xs[i]))
  }

  function AsCameras<S, C, L>(xs: seq<C>): (es: seq<Entity<S, C, L>>)
    ensures |es| == |xs| && forall i :: 0 <= i < |xs| ==> es[i] == CameraEntity(xs[i])
  {
    seq(|xs|, i requires 0 <= i < |xs| => CameraEntity(xs[i]))
  }

  function AsLights<S, C, L>(xs: seq<L>): (es: seq<Entity<S, C, L>>)
    ensures |es| == |xs| && forall i :: 0 <= i < |xs| ==> es[i] == LightEntity(xs[i])
  {
    seq(|xs|, i requires 0 <= i < |xs| => LightEntity(xs[i]))
  }

  /** `getShapes`: a copy of the shape list. */
  function GetShapes<S, C, L>(r: Registry<S, C, L>): seq<S> {
    r.shapes
  }

  /** `getLights`: a copy of the light list. */
  function GetLights<S, C, L>(r: Registry<S, C, L>): seq<L> {
    r.lights
  }

  // ---------------------------------------------------------------- reading entities back

  /** The shapes among some entities, in order. */
  function ShapesOf<S, C, L>(es: seq<Entity<S, C, L>>): seq<S> {
    if |es| == 0 then []
    else (if es[0].ShapeEntity? then [es[0].shape] else []) + ShapesOf(es[1..])
  }

  /** The cameras among some entities, in order. */
  function CamerasOf<S, C, L>(es: seq<Entity<S, C, L>>): seq<C> {
    if |es| == 0 then []
    else (if es[0].CameraEntity? then [es[0].camera] else []) + CamerasOf(es[1..])
  }

  /** The lights among some entities, in order. */
  function LightsOf<S, C, L>(es: seq<Entity<S, C, L>>): seq<L> {
    if |es| == 0 then []
    else (if es[0].LightEntity? then [es[0].light] else []) + LightsOf(es[1..])
  }

  lemma {:induction false} ShapesOfAppend<S, C, L>(a: seq<Entity<S, C, L>>, b: seq<Entity<S, C, L>>)
    ensures ShapesOf(a + b) == ShapesOf(a) + ShapesOf(b)
  {
    if |a| == 0 {
      assert a + b == b;
    } else {
      ShapesOfAppend(a[1..], b);
      var h := if a[0].ShapeEntity? then [a[0].shape] else [];
      assert (a + b)[0] == a[0] && (a + b)[1..] == a[1..] + b;
      assert ShapesOf(a + b) == h + ShapesOf(a[1..] + b);
      assert ShapesOf(a) == h + ShapesOf(a[1..]);
    }
  }

  lemma {:induction false} CamerasOfAppend<S, C, L>(a: seq<Entity<S, C, L>>, b: seq<Entity<S, C, L>>)
    ensures CamerasOf(a + b) == CamerasOf(a) + CamerasOf(b)
  {
    if |a| == 0 {
      assert a + b == b;
    } else {
      CamerasOfAppend(a[1..], b);
      var h := if a[0].CameraEntity? then [a[0].camera] else [];
      assert (a + b)[0] == a[0] && (a + b)[1..] == a[1..] + b;
      assert CamerasOf(a + b) == h + CamerasOf(a[1..] + b);
      assert CamerasOf(a) == h + CamerasOf(a[1..]);
    }
  }

  lemma {:induction false} LightsOfAppend<S, C, L>(a: seq<Entity<S, C, L>>, b: seq<Entity<S, C, L>>)
    ensures LightsOf(a + b) == LightsOf(a) + LightsOf(b)
  {
    if |a| == 0 {
      assert a + b == b;
    } else {
      LightsOfAppend(a[1..], b);
      var h := if a[0].LightEntity? then [a[0].light] else [];
      assert (a + b)[0] == a[0] && (a + b)[1..] == a[1..] + b;
      assert LightsOf(a + b) == h + LightsOf(a[1..] + b);
      assert LightsOf(a) == h + LightsOf(a[1..]);
    }
  }

  /** Sorting entities by kind distributes over concatenation. */
  lemma KindsOfAppend<S, C, L>(a: seq<Entity<S, C, L>>, b: seq<Entity<S, C, L>>)
    ensures ShapesOf(a + b) == ShapesOf(a) + ShapesOf(b)
    ensures CamerasOf(a + b) == CamerasOf(a) + CamerasOf(b)
    ensures LightsOf(a + b) == LightsOf(a) + LightsOf(b)
  {
    ShapesOfAppend(a, b);
    CamerasOfAppend(a, b);
    LightsOfAppend(a, b);
  }

  /** Entities that are all shapes hold exactly those shapes and nothing else. */
  lemma {:induction false} KindsOfShapes<S, C, L>(xs: seq<S>)
    ensures ShapesOf(AsShapes<S, C, L>(xs)) == xs
    ensures CamerasOf(AsShapes<S, C, L>(xs)) == [] && LightsOf(AsShapes<S, C, L>(xs)) == []
  {
    if |xs| > 0 {
      KindsOfShapes<S, C, L>(xs[1..]);
      assert AsShapes<S, C, L>(xs)[1..] == AsShapes<S, C, L>(xs[1..]);
      assert xs == [xs[0]] + xs[1..];
    }
  }

  lemma {:induction false} KindsOfCameras<S, C, L>(xs: seq<C>)
    ensures CamerasOf(AsCameras<S, C, L>(xs)) == xs
    ensures ShapesOf(AsCameras<S, C, L>(xs)) == [] && LightsOf(AsCameras<S, C, L>(xs)) == []
  {
    if |xs| > 0 {
      KindsOfCameras<S, C, L>(xs[1..]);
      assert AsCameras<S, C, L>(xs)[1..] == AsCameras<S, C, L>(xs[1..]);
      assert xs == [xs[0]] + xs[1..];
    }
  }

  lemma {:induction false} KindsOfLights<S, C, L>(xs: seq<L>)
    ensures LightsOf(AsLights<S, C, L>(xs)) == xs
    ensures ShapesOf(AsLights<S, C, L>(xs)) == [] && CamerasOf(AsLights<S, C, L>(xs)) == []
  {
    if |xs| > 0 {
      KindsOfLights<S, C, L>(xs[1..]);
      assert AsLights<S, C, L>(xs)[1..] == AsLights<S, C, L>(xs[1..]);
      assert xs == [xs[0]] + xs[1..];
    }
  }

  lemma ShapesOfObjects<S, C, L>(r: Registry<S, C, L>)
    ensures ShapesOf(GetObjects(r)) == GetShapes(r)
  {
    var a, b, c := AsShapes<S, C, L>(r.shapes), AsCameras<S, C, L>(r.cameras), AsLights<S, C, L>(r.lights);
    assert GetObjects(r) == (a + b) + c;
    KindsOfShapes<S, C, L>(r.shapes);
    KindsOfCameras<S, C, L>(r.cameras);
    KindsOfLights<S, C, L>(r.lights);
    ShapesOfAppend(a + b, c);
    ShapesOfAppend(a, b);
  }

  lemma CamerasOfObjects<S, C, L>(r: Registry<S, C, L>)
    ensures CamerasOf(GetObjects(r)) == r.cameras
  {
    var a, b, c := AsShapes<S, C, L>(r.shapes), AsCameras<S, C, L>(r.cameras), AsLights<S, C, L>(r.lights);
    assert GetObjects(r) == (a + b) + c;
    KindsOfShapes<S, C, L>(r.shapes);
    KindsOfCameras<S, C, L>(r.cameras);
    KindsOfLights<S, C, L>(r.lights);
    CamerasOfAppend(a + b, c);
    CamerasOfAppend(a, b);
  }

  lemma LightsOfObjects<S, C, L>(r: Registry<S, C, L>)
    ensures LightsOf(GetObjects(r)) == GetLights(r)
  {
    var a, b, c := AsShapes<S, C, L>(r.shapes), AsCameras<S, C, L>(r.cameras), AsLights<S, C, L>(r.lights);
    assert GetObjects(r) == (a + b) + c;
    KindsOfShapes<S, C, L>(r.shapes);
    KindsOfCameras<S, C, L>(r.cameras);
    KindsOfLights<S, C, L>(r.lights);
    LightsOfAppend(a + b, c);
    LightsOfAppend(a, b);
  }

  /** Sorting `getObjects` by kind gives back `getShapes`, the camera list and
      `getLights`: no entity is lost, duplicated or reordered. */
  lemma ObjectsByKind<S, C, L>(r: Registry<S, C, L>)
    ensures ShapesOf(GetObjects(r)) == GetShapes(r)
    ensures CamerasOf(GetObjects(r)) == r.cameras
    ensures LightsOf(GetObjects(r)) == GetLights(r)
  {
    ShapesOfObjects(r);
    CamerasOfObjects(r);
    LightsOfObjects(r);
  }

  // ---------------------------------------------------------------- sequences of calls

  /** One call on the environment. */
  datatype Call<S, C, L> = AddShapeCall(s: S) | AddCameraCall(c: C) | AddLightCall(l: L)

  function Apply<S, C, L>(r: Registry<S, C, L>, call: Call<S, C, L>): Registry<S, C, L> {
    match call
    case AddShapeCall(s) => AddShape(r, s)
    case AddCameraCall(c) => AddCamera(r, c)
    case AddLightCall(l) => AddLight(r, l)
  }

  /** The registry after some calls, made in order on `r`. */
  function Run<S, C, L>(r: Registry<S, C, L>, calls: seq<Call<S, C, L>>): Registry<S, C, L>
    decreases |calls|
  {
    if |calls| == 0 then r else Run(Apply(r, calls[0]), calls[1..])
  }

  /** The entity one call adds. */
  function Entry<S, C, L>(call: Call<S, C, L>): Entity<S, C, L> {
    match call
    case AddShapeCall(s) => ShapeEntity(s)
    case AddCameraCall(c) => CameraEntity(c)
    case AddLightCall(l) => LightEntity(l)
  }

  /** The entities a list of calls adds, in order. */
  function Added<S, C, L>(calls: seq<Call<S, C, L>>): seq<Entity<S, C, L>> {
    if |calls| == 0 then [] else [Entry(calls[0])] + Added(calls[1..])
  }

  /** One call appends its entity to the list of its kind. */
  lemma ApplyAppends<S, C, L>(r: Registry<S, C, L>, call: Call<S, C, L>)
    ensures Apply(r, call).shapes == r.shapes + ShapesOf([Entry(call)])
    ensures Apply(r, call).cameras == r.cameras + CamerasOf([Entry(call)])
    ensures Apply(r, call).lights == r.lights + LightsOf([Entry(call)])
    ensures Valid(r) ==> Valid(Apply(r, call))
  {
    assert [Entry(call)][1..] == [];
  }

  lemma {:induction false} RunShapes<S, C, L>(r: Registry<S, C, L>, calls: seq<Call<S, C, L>>)
    decreases |calls|
    ensures Run(r, calls).shapes == r.shapes + ShapesOf(Added(calls))
  {
    if |calls| == 0 {
      assert r.shapes + [] == r.shapes;
    } else {
      var next := Apply(r, calls[0]);
      RunShapes(next, calls[1..]);
      ApplyAppends(r, calls[0]);
      ShapesOfAppend([Entry(calls[0])], Added(calls[1..]));
      assert r.shapes + ShapesOf(Added(calls)) == (r.shapes + ShapesOf([Entry(calls[0])])) + ShapesOf(Added(calls[1..]));
    }
  }

  lemma {:induction false} RunCameras<S, C, L>(r: Registry<S, C, L>, calls: seq<Call<S, C, L>>)
    decreases |calls|
    ensures Run(r, calls).cameras == r.cameras + CamerasOf(Added(calls))
  {
    if |calls| == 0 {
      assert r.cameras + [] == r.cameras;
    } else {
      var next := Apply(r, calls[0]);
      RunCameras(next, calls[1..]);
      ApplyAppends(r, calls[0]);
      CamerasOfAppend([Entry(calls[0])], Added(calls[1..]));
      assert r.cameras + CamerasOf(Added(calls)) == (r.cameras + CamerasOf([Entry(calls[0])])) + CamerasOf(Added(calls[1..]));
    }
  }

  lemma {:induction false} RunLights<S, C, L>(r: Registry<S, C, L>, calls: seq<Call<S, C, L>>)
    decreases |calls|
    ensures Run(r, calls).lights == r.lights + LightsOf(Added(calls))
  {
    if |calls| == 0 {
      assert r.lights + [] == r.lights;
    } else {
      var next := Apply(r, calls[0]);
      RunLights(next, calls[1..]);
      ApplyAppends(r, calls[0]);
      LightsOfAppend([Entry(calls[0])], Added(calls[1..]));
      assert r.lights + LightsOf(Added(calls)) == (r.lights + LightsOf([Entry(calls[0])])) + LightsOf(Added(calls[1..]));
    }
  }

  lemma {:induction false} RunKeepsValid<S, C, L>(r: Registry<S, C, L>, calls: seq<Call<S, C, L>>)
    decreases |calls|
    requires Valid(r)
    ensures Valid(Run(r, calls))
  {
    if |calls| > 0 {
      ApplyAppends(r, calls[0]);
      RunKeepsValid(Apply(r, calls[0]), calls[1..]);
    }
  }

  /** After any calls, each list holds its earlier contents followed by what the calls
      added to it, in call order; and a valid registry stays valid. */
  lemma RunAppends<S, C, L>(r: Registry<S, C, L>, calls: seq<Call<S, C, L>>)
    ensures Run(r, calls).shapes == r.shapes + ShapesOf(Added(calls))
    ensures Run(r, calls).cameras == r.cameras + CamerasOf(Added(calls))
    ensures Run(r, calls).lights == r.lights + LightsOf(Added(calls))
    ensures Valid(r) ==> Valid(Run(r, calls))
  {
    RunShapes(r, calls);
    RunCameras(r, calls);
    RunLights(r, calls);
    if Valid(r) {
      RunKeepsValid(r, calls);
    }
  }

  /** From the empty environment, the main camera is undefined exactly while no camera
      has been added, and is the first camera added ever after. */
  lemma MainCameraIsFirst<S, C, L>(calls: seq<Call<S, C, L>>)
    ensures var r := Run(Empty<S, C, L>(), calls);
      && (r.mainCamera.None? <==> |CamerasOf(Added(calls))| == 0)
      && (|CamerasOf(Added(calls))| > 0 ==> r.mainCamera == Some(CamerasOf(Added(calls))[0]))
  {
    RunAppends(Empty<S, C, L>(), calls);
  }
}
