/** Start-up: the built-in cube, the edge list derived from a model file's
    flat index list, and the choice between the two.

    Reading and parsing the model file are outside the model; their result
    arrives as an `ObjFile` value. */
module Startup {
  import opened Vec
  import opened Wrappers
  import Canvas
  import Engine

  /** The eight corners of the built-in cube, ten units from the centre on
      every axis. */
  const CubeVerts: seq<Point3> := [
    FromTriple((-10.0, -10.0, -10.0)),
    FromTriple((-10.0, -10.0, 10.0)),
    FromTriple((10.0, -10.0, 10.0)),
    FromTriple((10.0, -10.0, -10.0)),
    FromTriple((-10.0, 10.0, -10.0)),
    FromTriple((-10.0, 10.0, 10.0)),
    FromTriple((10.0, 10.0, 10.0)),
    FromTriple((10.0, 10.0, -10.0))
  ]

  /** The cube's twelve edges: four around the bottom face, four around the
      top face, four joining them. */
  const CubeEdges: seq<Canvas.Edge> := [
    FromPair((0, 1)), FromPair((1, 2)), FromPair((2, 3)), FromPair((3, 0)),
    FromPair((4, 5)), FromPair((5, 6)), FromPair((6, 7)), FromPair((7, 4)),
    FromPair((0, 4)), FromPair((1, 5)), FromPair((2, 6)), FromPair((3, 7))
  ]

  function DefaultCube(): Canvas.Canvas {
    Canvas.Canvas(CubeVerts, CubeEdges)
  }

  /** The number of coordinates in which two corners differ. */
  function Differences(a: Point3, b: Point3): nat {
    (if a.x == b.x then 0 else 1) + (if a.y == b.y then 0 else 1) + (if a.z == b.z then 0 else 1)
  }

  /** The built-in model is a cube: eight distinct corners at +-10 on every
      axis, and twelve edges, each in range and each joining two corners that
      differ in exactly one coordinate. */
  lemma DefaultCubeShape()
    ensures |CubeVerts| == 8 && |CubeEdges| == 12
    ensures forall i :: 0 <= i < 8 ==>
      var v := CubeVerts[i];
      (v.x == 10.0 || v.x == -10.0) && (v.y == 10.0 || v.y == -10.0) && (v.z == 10.0 || v.z == -10.0)
    ensures forall i, j :: 0 <= i < j < 8 ==> CubeVerts[i] != CubeVerts[j]
    ensures forall k :: 0 <= k < 12 ==> Canvas.InRange(CubeEdges[k], 8)
    ensures forall k :: 0 <= k < 12 ==> Differences(CubeVerts[CubeEdges[k].x], CubeVerts[CubeEdges[k].y]) == 1
  {
  }

  /** `draw` renders all twelve cube edges, one line per edge, in list
      order, for any eight vertices: rotating or scaling the cube never makes
      an edge drop out. */
  lemma CubeDrawsAll(verts: seq<Point3>, fov: real)
    requires |verts| == |CubeVerts|
    ensures |Canvas.DrawEdges(verts, CubeEdges, fov)| == 12
    ensures forall k :: 0 <= k < 12 ==>
      Canvas.DrawEdges(verts, CubeEdges, fov)[k] == Canvas.EdgeLine(verts, CubeEdges[k], fov)
  {
    DefaultCubeShape();
    Canvas.DrawAllInRange(verts, CubeEdges, fov);
  }

  /** `indices.windows(2)`: every consecutive pair of a flat index list
      becomes an edge. */
  function ObjEdges(indices: seq<nat>): (r: seq<Canvas.Edge>)
    ensures |r| == if |indices| < 2 then 0 else |indices| - 1
    ensures forall k :: 0 <= k < |r| ==> r[k] == Vector2(indices[k], indices[k + 1])
    decreases |indices|
  {
    if |indices| < 2 then []
    else [Vector2(indices[0], indices[1])] + ObjEdges(indices[1..])
  }

  /** Consecutive extracted edges share an endpoint, so the edge list traces
      one connected path through the index list rather than the faces'
      outlines. */
  lemma ObjEdgesChain(indices: seq<nat>)
    ensures forall k :: 0 <= k < |ObjEdges(indices)| - 1 ==> ObjEdges(indices)[k].y == ObjEdges(indices)[k + 1].x
    ensures forall v :: v in indices && |indices| >= 2 ==>
      exists k :: 0 <= k < |ObjEdges(indices)| && (ObjEdges(indices)[k].x == v || ObjEdges(indices)[k].y == v)
  {
    var r := ObjEdges(indices);
    forall v | v in indices && |indices| >= 2
      ensures exists k :: 0 <= k < |r| && (r[k].x == v || r[k].y == v)
    {
      var i :| 0 <= i < |indices| && indices[i] == v;
      if i == |indices| - 1 {
        assert r[i - 1].y == v;
      } else {
        assert i < |r| && r[i] == Vector2(indices[i], indices[i + 1]);
      }
    }
  }

  /** What opening and parsing the model file produced. */
  datatype ObjFile =
    | Unopenable                                          // the file could not be opened
    | NotObj                                              // the file is not a model file
    | Obj(positions: seq<(real, real, real)>, indices: seq<nat>)

  /** The engine `main` starts, given the optional model-file argument; None
      when the process aborts on a file that does not parse. */
  function Start(arg: Option<ObjFile>, now: real): (r: Option<Engine.Engine>)
    ensures r.Some? <==> arg != Some(NotObj)
    ensures r.Some? ==> Engine.Valid(r.value) && r.value == Engine.New(now).(canvas := r.value.canvas)
    ensures arg.None? || arg == Some(Unopenable) ==> r.Some? && r.value.canvas == DefaultCube()
    ensures arg.Some? && arg.value.Obj? ==> (
      && r.Some?
      && |r.value.canvas.verts| == |arg.value.positions|
      && (forall i :: 0 <= i < |arg.value.positions| ==>
            ToTriple(r.value.canvas.verts[i]) == arg.value.positions[i])
      && r.value.canvas.edges == ObjEdges(arg.value.indices))
  {
    var e := Engine.New(now).(canvas := DefaultCube());
    match arg
    case None => Some(e)
    case Some(Unopenable) => Some(e)
    case Some(NotObj) => None
    case Some(Obj(positions, indices)) =>
      var verts := seq(|positions|, i requires 0 <= i < |positions| => FromTriple(positions[i]));
      Some(e.(canvas := Canvas.Canvas(verts, ObjEdges(indices))))
  }

  /** Starting without a model file and running one due tick with no input
      renders a frame of the cube as built, and leaves the start-up engine as
      it was apart from the timer. */
  lemma DefaultFirstFrame(now: real, later: real, trig: real -> SinCos, size: Canvas.ScreenSize)
    requires later - now >= 1.0 / 60.0
    ensures var e := Start(None, now).value;
      && e.canvas == DefaultCube()
      && Engine.Tick(e, later, None, trig, size).outcome.Rendered?
      && Engine.Tick(e, later, None, trig, size).engine == e.(time := later)
  {
  }
}
