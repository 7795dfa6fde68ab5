/** The rasteriser: mapping centred logical points to terminal cells with
    clipping, the fixed-step line interpolation, and the walk over the edge
    list that turns a wireframe into line-drawing calls.

    Terminal writes are not performed; each accepted `set_pixel` becomes a
    `Put` in an output trace, in the order the source queues them. */
module Canvas {
  import opened Vec
  import opened Wrappers

  /** `u16`: the terminal reports its size in 16-bit cell counts. */
  type U16 = n: int | 0 <= n < 0x1_0000

  /** `(columns, rows)`, as `get_screen_size` returns them. */
  type ScreenSize = Vector2<U16>

  /** An edge: a pair of indices into the vertex list. */
  type Edge = Vector2<nat>

  /** The model being drawn: `verticies` and `indicies`. */
  datatype Canvas = Canvas(verts: seq<Point3>, edges: seq<Edge>)

  /** `Canvas::new`: no vertices and no edges, so drawing it issues no line
      at any field of view. */
  function New(): (c: Canvas)
    ensures forall fov :: Draw(c, fov) == []
  {
    Canvas([], [])
  }

  /** One queued write: move the cursor to a cell and print a glyph there. */
  datatype Put = Put(col: U16, row: U16, glyph: char)

  /** The glyph `draw_line` plots with. */
  const LineGlyph: char := '#'

  // ---------------------------------------------------------------------
  // set_pixel

  /** A logical point (origin at the screen centre) moved to terminal cell
      coordinates (origin top-left), using the truncated half size. */
  function Centered(p: Vector2<int>, size: ScreenSize): Vector2<int> {
    Vector2(p.x + size.x / 2, p.y + size.y / 2)
  }

  /** `set_pixel`: the write it queues, or None when the point is clipped.
      The upper bound is inclusive: a cell at column `columns` or row `rows`
      is still written. */
  function SetPixel(p: Vector2<int>, glyph: char, size: ScreenSize): (r: Option<Put>)
    ensures r.Some? <==> 0 <= Centered(p, size).x <= size.x && 0 <= Centered(p, size).y <= size.y
    ensures r.Some? ==> r.value.col == Centered(p, size).x && r.value.row == Centered(p, size).y
    ensures r.Some? ==> r.value.glyph == glyph
  {
    var c := Centered(p, size);
    if c.x < 0 || c.y < 0 || c.x > size.x || c.y > size.y then None
    else Some(Put(c.x, c.y, glyph))
  }

  /** In logical coordinates the accepted window runs from minus half the
      size to the size minus half of it: `columns + 1` columns and `rows + 1`
      rows, one more of each than the terminal shows. */
  lemma SetPixelWindow(p: Vector2<int>, glyph: char, size: ScreenSize)
    ensures SetPixel(p, glyph, size).Some? <==>
      -(size.x / 2) <= p.x <= (size.x + 1) / 2 && -(size.y / 2) <= p.y <= (size.y + 1) / 2
    ensures (size.x + 1) / 2 - -(size.x / 2) + 1 == size.x + 1
    ensures (size.y + 1) / 2 - -(size.y / 2) + 1 == size.y + 1
  {
    assert size.x - size.x / 2 == (size.x + 1) / 2;
    assert size.y - size.y / 2 == (size.y + 1) / 2;
  }

  /** The inclusive bound in action: the point half a screen right of and
      below the centre is written at cell `(columns, rows)`, past the last
      visible column and row. */
  lemma SetPixelOnePastEdge(glyph: char, size: ScreenSize)
    ensures SetPixel(Vector2((size.x + 1) / 2, (size.y + 1) / 2), glyph, size)
         == Some(Put(size.x, size.y, glyph))
    ensures SetPixel(Vector2((size.x + 1) / 2 + 1, 0), glyph, size).None?
  {
    assert size.x - size.x / 2 == (size.x + 1) / 2;
    assert size.y - size.y / 2 == (size.y + 1) / 2;
  }

  /** The writes a run of `set_pixel` calls queues, in call order: one per
      accepted point, none for a clipped one. */
  function Plot(ps: seq<Vector2<int>>, glyph: char, size: ScreenSize): (r: seq<Put>)
    ensures |r| <= |ps|
    decreases |ps|
  {
    if ps == [] then []
    else
      var rest := Plot(ps[..|ps| - 1], glyph, size);
      match SetPixel(ps[|ps| - 1], glyph, size)
      case None => rest
      case Some(w) => rest + [w]
  }

  /** Every queued write is an in-bounds `glyph`; every accepted point's
      write is queued and every queued write comes from an accepted point;
      when no point is clipped there is one write per point. */
  lemma {:induction false} PlotFacts(ps: seq<Vector2<int>>, glyph: char, size: ScreenSize)
    ensures forall w :: w in Plot(ps, glyph, size) ==> w.glyph == glyph && w.col <= size.x && w.row <= size.y
    ensures forall i :: 0 <= i < |ps| && SetPixel(ps[i], glyph, size).Some? ==>
      SetPixel(ps[i], glyph, size).value in Plot(ps, glyph, size)
    ensures forall w :: w in Plot(ps, glyph, size) ==>
      exists i :: 0 <= i < |ps| && SetPixel(ps[i], glyph, size) == Some(w)
    ensures (forall i :: 0 <= i < |ps| ==> SetPixel(ps[i], glyph, size).Some?) ==> |Plot(ps, glyph, size)| == |ps|
    decreases |ps|
  {
    if ps != [] {
      var init := ps[..|ps| - 1];
      PlotFacts(init, glyph, size);
      assert forall i :: 0 <= i < |init| ==> init[i] == ps[i];
    }
  }

  // ---------------------------------------------------------------------
  // draw_line

  function Abs(n: int): nat {
    if n < 0 then -n else n
  }

  function Max(a: nat, b: nat): nat {
    if a < b then b else a
  }

  /** The number of steps `draw_line` takes: the larger absolute delta, or 1
      when the endpoints coincide. */
  function Steps(p1: Vector2<int>, p2: Vector2<int>): (n: nat)
    ensures 1 <= n
    ensures Abs(p2.x - p1.x) <= n && Abs(p2.y - p1.y) <= n
  {
    var m := Max(Abs(p2.x - p1.x), Abs(p2.y - p1.y));
    if m == 0 then 1 else m
  }

  /** A delta divided by a step count no smaller than its magnitude. */
  lemma StepQuotient(d: int, n: nat)
    requires 1 <= n && Abs(d) <= n
    ensures -1.0 <= d as real / n as real <= 1.0
    ensures Abs(d) < n ==> -1.0 < d as real / n as real < 1.0
    ensures d == n ==> d as real / n as real == 1.0
    ensures d + n == 0 ==> d as real / n as real == -1.0
    ensures n as real * (d as real / n as real) == d as real
  {
  }

  /** The per-step advance along each axis: |x_inc| <= 1 and |y_inc| <= 1. */
  function Increment(p1: Vector2<int>, p2: Vector2<int>): (inc: Vector2<real>)
    ensures -1.0 <= inc.x <= 1.0 && -1.0 <= inc.y <= 1.0
    ensures Steps(p1, p2) as real * inc.x == (p2.x - p1.x) as real
    ensures Steps(p1, p2) as real * inc.y == (p2.y - p1.y) as real
  {
    var n := Steps(p1, p2);
    StepQuotient(p2.x - p1.x, n);
    StepQuotient(p2.y - p1.y, n);
    Vector2((p2.x - p1.x) as real / n as real, (p2.y - p1.y) as real / n as real)
  }

  /** The coordinate of sample `k` along one axis, as `draw_line` computes
      it: the start plus `k` repeated additions of the increment. */
  function AxisSample(a: int, inc: real, k: nat): real
    decreases k
  {
    if k == 0 then a as real else AxisSample(a, inc, k - 1) + inc
  }

  /** Accumulating the increment `k` times lands on `a + k * inc`. */
  lemma {:induction false} AxisClosed(a: int, inc: real, k: nat)
    ensures AxisSample(a, inc, k) == a as real + k as real * inc
    decreases k
  {
    if k > 0 {
      AxisClosed(a, inc, k - 1);
      assert (k - 1) as real * inc + inc == k as real * inc;
    }
  }

  /** One step of the loop along one axis: adding the increment moves the
      position from sample `k` to sample `k + 1`. */
  method Advance(pos: real, a: int, inc: real, k: nat) returns (next: real)
    requires pos == AxisSample(a, inc, k)
    ensures next == AxisSample(a, inc, k + 1)
  {
    next := pos + inc;
  }

  /** Sample `k` of a line from `start`: the position `k` increments along,
      rounded to a cell. */
  function Sample(start: Vector2<int>, inc: Vector2<real>, k: nat): Vector2<int> {
    Vector2(Round(AxisSample(start.x, inc.x, k)), Round(AxisSample(start.y, inc.y, k)))
  }

  /** The first `count` samples, appended one per step as `draw_line`'s loop
      plots them. */
  function Samples(start: Vector2<int>, inc: Vector2<real>, count: nat): (s: seq<Vector2<int>>)
    ensures |s| == count
    ensures forall k :: 0 <= k < count ==> s[k] == Sample(start, inc, k)
    decreases count
  {
    if count == 0 then []
    else Samples(start, inc, count - 1) + [Sample(start, inc, count - 1)]
  }

  /** The points `draw_line` hands to `set_pixel`, in order: one more than
      the step count. */
  function LineSamples(p1: Vector2<int>, p2: Vector2<int>): seq<Vector2<int>> {
    Samples(p1, Increment(p1, p2), Steps(p1, p2) + 1)
  }

  /** `draw_line`, as the source runs it: the position is accumulated by
      repeated addition of the increments, and every sample is rounded and
      handed to `set_pixel`. Returns the points plotted and the writes
      queued. */
  method DrawLine(p1: Vector2<int>, p2: Vector2<int>, size: ScreenSize)
    returns (plotted: seq<Vector2<int>>, writes: seq<Put>)
    ensures plotted == LineSamples(p1, p2)
    ensures writes == Plot(plotted, LineGlyph, size)
  {
    var dx := p2.x - p1.x;
    var dy := p2.y - p1.y;
    var steps := Max(Abs(dx), Abs(dy));
    if steps == 0 {
      steps := 1;
    }
    var xInc := dx as real / steps as real;
    var yInc := dy as real / steps as real;
    var x := p1.x as real;
    var y := p1.y as real;
    ghost var inc := Vector2(xInc, yInc);
    assert steps == Steps(p1, p2);
    assert inc == Increment(p1, p2);
    plotted, writes := [], [];
    for i := 0 to steps + 1
      invariant x == AxisSample(p1.x, xInc, i)
      invariant y == AxisSample(p1.y, yInc, i)
      invariant plotted == Samples(p1, inc, i)
      invariant writes == Plot(plotted, LineGlyph, size)
    {
      var point := Vector2(Round(x), Round(y));
      assert (plotted + [point])[..i] == plotted;
      plotted := plotted + [point];
      var put := SetPixel(point, LineGlyph, size);
      if put.Some? {
        writes := writes + [put.value];
      }
      x := Advance(x, p1.x, xInc, i);
      y := Advance(y, p1.y, yInc, i);
    }
  }

  /** `draw_line` plots `max(|dx|, |dy|) + 1` points, and two when the
      endpoints coincide. */
  lemma LineSampleCount(p1: Vector2<int>, p2: Vector2<int>)
    ensures p1 != p2 ==> |LineSamples(p1, p2)| == Max(Abs(p2.x - p1.x), Abs(p2.y - p1.y)) + 1
    ensures p1 == p2 ==> LineSamples(p1, p2) == [p1, p1]
  {
    if p1 == p2 {
      var s := LineSamples(p1, p2);
      var inc := Increment(p1, p2);
      assert inc == Vector2(0.0, 0.0);
      AxisStart(p1.x, inc.x);
      AxisStart(p1.y, inc.y);
      AxisEnd(p1.x, 0, 1);
      AxisEnd(p1.y, 0, 1);
      assert s[0] == p1 && s[1] == p1;
    }
  }

  /** Sample 0 of an axis sits on its start. */
  lemma AxisStart(a: int, inc: real)
    ensures Round(AxisSample(a, inc, 0)) == a
  {
    RoundFacts(a, 0.0, 0.0);
  }

  /** `n` increments of `d / n` reach the end of an axis. */
  lemma AxisEnd(a: int, d: int, n: nat)
    requires 1 <= n
    ensures Round(AxisSample(a, d as real / n as real, n)) == a + d
  {
    AxisClosed(a, d as real / n as real, n);
    assert n as real * (d as real / n as real) == d as real;
    RoundFacts(a + d, 0.0, 0.0);
  }

  /** The sample after the last step is `point2`. */
  lemma SampleEnd(p1: Vector2<int>, p2: Vector2<int>)
    ensures Sample(p1, Increment(p1, p2), Steps(p1, p2)) == p2
  {
    var n := Steps(p1, p2);
    AxisEnd(p1.x, p2.x - p1.x, n);
    AxisEnd(p1.y, p2.y - p1.y, n);
  }

  /** The first sample is `point1`. */
  lemma LineFirst(p1: Vector2<int>, p2: Vector2<int>)
    ensures LineSamples(p1, p2)[0] == p1
  {
    var inc := Increment(p1, p2);
    AxisStart(p1.x, inc.x);
    AxisStart(p1.y, inc.y);
  }

  /** With exact arithmetic the last sample is `point2`. */
  lemma LineLast(p1: Vector2<int>, p2: Vector2<int>)
    ensures LineSamples(p1, p2)[Steps(p1, p2)] == p2
  {
    SampleEnd(p1, p2);
  }

  /** The first sample is `point1` and, with exact arithmetic, the last is
      `point2`. */
  lemma LineEndpoints(p1: Vector2<int>, p2: Vector2<int>)
    ensures LineSamples(p1, p2)[0] == p1
    ensures LineSamples(p1, p2)[|LineSamples(p1, p2)| - 1] == p2
  {
    LineFirst(p1, p2);
    LineLast(p1, p2);
  }

  /** Along an axis whose delta is the step count, every sample sits exactly
      on an integer: sample `k` is `k` cells from the start. */
  lemma DominantAxisExact(a: int, inc: real, k: nat)
    requires inc == 1.0 || inc == -1.0
    ensures Round(AxisSample(a, inc, k)) == if inc == 1.0 then a + k else a - k
  {
    AxisClosed(a, inc, k);
    if inc == 1.0 {
      RoundFacts(a + k, 0.0, 0.0);
    } else {
      RoundFacts(a - k, 0.0, 0.0);
    }
  }

  /** A sample and its successor less than one cell apart round to cells at
      most one apart. */
  lemma NearStep(u: real, inc: real)
    requires -1.0 < inc < 1.0
    ensures -1 <= Round(u + inc) - Round(u) <= 1
  {
    RoundFacts(0, u + inc, u);
  }

  /** One step moves a coordinate of the plotted point by at most one cell. */
  lemma AxisStep(a: int, inc: real, k: nat)
    requires -1.0 <= inc <= 1.0
    ensures -1 <= Round(AxisSample(a, inc, k + 1)) - Round(AxisSample(a, inc, k)) <= 1
  {
    if inc == 1.0 || inc == -1.0 {
      DominantAxisExact(a, inc, k);
      DominantAxisExact(a, inc, k + 1);
    } else {
      NearStep(AxisSample(a, inc, k), inc);
    }
  }

  /** Two cells touch, sides or corners: neither coordinate differs by more
      than one. */
  predicate Adjacent(a: Vector2<int>, b: Vector2<int>) {
    -1 <= b.x - a.x <= 1 && -1 <= b.y - a.y <= 1
  }

  /** With both increments within one cell, each sample touches the next. */
  lemma SampleStep(start: Vector2<int>, inc: Vector2<real>, k: nat)
    requires -1.0 <= inc.x <= 1.0 && -1.0 <= inc.y <= 1.0
    ensures Adjacent(Sample(start, inc, k), Sample(start, inc, k + 1))
  {
    AxisStep(start.x, inc.x, k);
    AxisStep(start.y, inc.y, k);
  }

  /** Consecutive samples are 8-connected: the line has no gaps. */
  lemma LineConnected(p1: Vector2<int>, p2: Vector2<int>)
    ensures forall k :: 0 <= k < |LineSamples(p1, p2)| - 1 ==>
      Adjacent(LineSamples(p1, p2)[k], LineSamples(p1, p2)[k + 1])
  {
    var s := LineSamples(p1, p2);
    var inc := Increment(p1, p2);
    forall k | 0 <= k < |s| - 1
      ensures Adjacent(s[k], s[k + 1])
    {
      SampleStep(p1, inc, k);
    }
  }

  /** A horizontal line `n` cells long, from any start, plots each of its
      `n + 1` cells once, left to right. */
  lemma HorizontalLine(p: Vector2<int>, n: nat)
    requires 1 <= n
    ensures var s := LineSamples(p, Vector2(p.x + n, p.y));
      |s| == n + 1 && forall k :: 0 <= k < |s| ==> s[k] == Vector2(p.x + k, p.y)
  {
    var q := Vector2(p.x + n, p.y);
    var inc := Increment(p, q);
    assert Steps(p, q) == n;
    assert inc == Vector2(1.0, 0.0) by {
      StepQuotient(n, n);
      StepQuotient(0, n);
    }
    forall k | 0 <= k <= n
      ensures LineSamples(p, q)[k] == Vector2(p.x + k, p.y)
    {
      DominantAxisExact(p.x, inc.x, k);
      AxisClosed(p.y, inc.y, k);
      RoundFacts(p.y, 0.0, 0.0);
    }
  }

  /** The four samples of a line stepping one column and two thirds of a
      row at a time. */
  lemma ThirdsSamples(p: Vector2<int>)
    ensures Sample(p, Vector2(1.0, 2.0 / 3.0), 0) == p
    ensures Sample(p, Vector2(1.0, 2.0 / 3.0), 1) == Vector2(p.x + 1, p.y + 1)
    ensures Sample(p, Vector2(1.0, 2.0 / 3.0), 2) == Vector2(p.x + 2, p.y + 1)
    ensures Sample(p, Vector2(1.0, 2.0 / 3.0), 3) == Vector2(p.x + 3, p.y + 2)
  {
    var inc := Vector2(1.0, 2.0 / 3.0);
    assert Sample(p, inc, 0) == p by {
      DominantAxisExact(p.x, 1.0, 0);
      RoundNearest(p.y, p.y as real);
    }
    assert Sample(p, inc, 1) == Vector2(p.x + 1, p.y + 1) by {
      DominantAxisExact(p.x, 1.0, 1);
      AxisClosed(p.y, 2.0 / 3.0, 1);
      RoundNearest(p.y + 1, p.y as real + 2.0 / 3.0);
    }
    assert Sample(p, inc, 2) == Vector2(p.x + 2, p.y + 1) by {
      DominantAxisExact(p.x, 1.0, 2);
      AxisClosed(p.y, 2.0 / 3.0, 2);
      RoundNearest(p.y + 1, p.y as real + 4.0 / 3.0);
    }
    assert Sample(p, inc, 3) == Vector2(p.x + 3, p.y + 2) by {
      DominantAxisExact(p.x, 1.0, 3);
      AxisClosed(p.y, 2.0 / 3.0, 3);
      RoundNearest(p.y + 2, (p.y + 2) as real);
    }
  }

  /** A shallow line three across and two up, from any start, plots four
      cells, one per column, the middle two on the same row. */
  lemma SlopedLineExample(p: Vector2<int>)
    ensures LineSamples(p, Vector2(p.x + 3, p.y + 2))
         == [p, Vector2(p.x + 1, p.y + 1), Vector2(p.x + 2, p.y + 1), Vector2(p.x + 3, p.y + 2)]
  {
    var q := Vector2(p.x + 3, p.y + 2);
    assert Steps(p, q) == 3;
    assert Increment(p, q) == Vector2(1.0, 2.0 / 3.0);
    ThirdsSamples(p);
  }

  // ---------------------------------------------------------------------
  // draw

  /** An edge `draw` renders: both indices address a vertex. */
  predicate InRange(e: Edge, n: nat) {
    e.x < n && e.y < n
  }

  /** One `draw_line` call, with its two endpoints. */
  datatype LineCall = LineCall(from: Vector2<int>, to: Vector2<int>)

  /** A vertex projected at the field of view and rounded to a cell. */
  function ScreenPoint(v: Point3, fov: real): Vector2<int> {
    RoundVec(Projected(v, fov))
  }

  /** The line an in-range edge is drawn as. */
  function EdgeLine(verts: seq<Point3>, e: Edge, fov: real): LineCall
    requires InRange(e, |verts|)
  {
    LineCall(ScreenPoint(verts[e.x], fov), ScreenPoint(verts[e.y], fov))
  }

  /** The `draw_line` calls `draw` makes for an edge list, in list order,
      skipping every edge with an index outside the vertex list. */
  function DrawEdges(verts: seq<Point3>, edges: seq<Edge>, fov: real): (calls: seq<LineCall>)
    ensures |calls| <= |edges|
    ensures forall i :: 0 <= i < |edges| && InRange(edges[i], |verts|) ==>
      EdgeLine(verts, edges[i], fov) in calls
    ensures forall c :: c in calls ==>
      exists i :: 0 <= i < |edges| && InRange(edges[i], |verts|) && c == EdgeLine(verts, edges[i], fov)
    decreases |edges|
  {
    if edges == [] then []
    else
      var init := edges[..|edges| - 1];
      var e := edges[|edges| - 1];
      assert forall i :: 0 <= i < |init| ==> init[i] == edges[i];
      DrawEdges(verts, init, fov) + (if InRange(e, |verts|) then [EdgeLine(verts, e, fov)] else [])
  }

  /** `draw`: the line calls for the canvas's own vertices and edges. The
      canvas is an input only: drawing changes neither list. */
  function Draw(c: Canvas, fov: real): seq<LineCall> {
    DrawEdges(c.verts, c.edges, fov)
  }

  /** Drawing a concatenation of edge lists draws the first list's lines and
      then the second's: `draw` keeps list order. */
  lemma {:induction false} DrawAppend(verts: seq<Point3>, a: seq<Edge>, b: seq<Edge>, fov: real)
    ensures DrawEdges(verts, a + b, fov) == DrawEdges(verts, a, fov) + DrawEdges(verts, b, fov)
    decreases |b|
  {
    if b == [] {
      assert a + b == a;
    } else {
      var b' := b[..|b| - 1];
      assert (a + b)[..|a + b| - 1] == a + b';
      assert (a + b)[|a + b| - 1] == b[|b| - 1];
      DrawAppend(verts, a, b', fov);
    }
  }

  /** An edge with an out-of-range index is skipped without effect; an
      in-range one adds exactly its line at the end. */
  lemma DrawOneMore(verts: seq<Point3>, edges: seq<Edge>, e: Edge, fov: real)
    ensures !InRange(e, |verts|) ==> DrawEdges(verts, edges + [e], fov) == DrawEdges(verts, edges, fov)
    ensures InRange(e, |verts|) ==>
      DrawEdges(verts, edges + [e], fov) == DrawEdges(verts, edges, fov) + [EdgeLine(verts, e, fov)]
  {
    assert (edges + [e])[..|edges|] == edges;
  }

  /** When every edge is in range, `draw` makes exactly one call per edge,
      the k-th for the k-th edge. */
  lemma {:induction false} DrawAllInRange(verts: seq<Point3>, edges: seq<Edge>, fov: real)
    requires forall i :: 0 <= i < |edges| ==> InRange(edges[i], |verts|)
    ensures |DrawEdges(verts, edges, fov)| == |edges|
    ensures forall k :: 0 <= k < |edges| ==> DrawEdges(verts, edges, fov)[k] == EdgeLine(verts, edges[k], fov)
    decreases |edges|
  {
    if edges != [] {
      var init, last := edges[..|edges| - 1], edges[|edges| - 1];
      DrawAllInRange(verts, init, fov);
      assert init + [last] == edges;
      DrawOneMore(verts, init, last, fov);
      var d := DrawEdges(verts, edges, fov);
      assert d == DrawEdges(verts, init, fov) + [EdgeLine(verts, last, fov)];
      forall k | 0 <= k < |edges|
        ensures d[k] == EdgeLine(verts, edges[k], fov)
      {
        if k < |init| {
          assert edges[k] == init[k];
        }
      }
    }
  }

  /** A four-vertex model with one edge naming vertex 5 draws nothing for
      that edge. */
  lemma OutOfRangeEdgeExample(verts: seq<Point3>, fov: real)
    requires |verts| == 4
    ensures DrawEdges(verts, [Vector2(0, 1), Vector2(1, 5)], fov) == [EdgeLine(verts, Vector2(0, 1), fov)]
  {
    DrawOneMore(verts, [], Vector2(0, 1), fov);
    DrawOneMore(verts, [Vector2(0, 1)], Vector2(1, 5), fov);
  }

  /** The writes a sequence of line calls queues, line after line. */
  function LineWrites(calls: seq<LineCall>, size: ScreenSize): (r: seq<Put>)
    ensures forall w :: w in r ==> w.glyph == LineGlyph && w.col <= size.x && w.row <= size.y
    decreases |calls|
  {
    if calls == [] then []
    else
      var last := calls[|calls| - 1];
      PlotFacts(LineSamples(last.from, last.to), LineGlyph, size);
      LineWrites(calls[..|calls| - 1], size) + Plot(LineSamples(last.from, last.to), LineGlyph, size)
  }
}
