/** The frame loop: engine state, key dispatch, the frame-rate gate, the
    render pass and the run loop.

    Clocks, event polling and the terminal are outside the model. A tick
    receives the current time, the pending input event (if any), the screen
    size and the trigonometry as parameters, and produces the commands the
    render pass writes. */
module Engine {
  import opened Vec
  import opened Wrappers
  import Canvas

  /** The key codes the engine distinguishes; every other key is `OtherKey`. */
  datatype KeyCode = Char(c: char) | Up | Down | Left | Right | Tab | OtherKey

  /** One polled event. `NonKey` stands for every event that is not a key
      press, and for a failed read. */
  datatype Event = Key(code: KeyCode) | NonKey

  /** The engine's state. `time` is the instant the last frame was
      rendered. */
  datatype Engine = Engine(
    canvas: Canvas.Canvas,
    time: real,
    fov: real,
    maxFps: real,
    shouldStop: bool,
    showUi: bool)

  const DefaultFov: real := 90.0
  const DefaultMaxFps: real := 60.0

  /** The factors the arrow keys scale by, per frame the key is seen. */
  const GrowFactor: real := 1.01
  const ShrinkFactor: real := 0.99

  /** Radians turned per second of frame time. */
  const TurnRate: real := 4.0

  /** The frame-rate gate needs a positive frame rate. */
  predicate Valid(e: Engine) {
    e.maxFps > 0.0
  }

  /** `Engine::new`: an empty canvas, field of view 90, at most 60 frames per
      second, running, overlay shown, timer started at `now`. */
  function New(now: real): (e: Engine)
    ensures Valid(e)
    ensures e.fov == 90.0 && e.maxFps == 60.0
    ensures !e.shouldStop && e.showUi && e.time == now
    ensures e.canvas.verts == [] && e.canvas.edges == []
  {
    Engine(Canvas.New(), now, DefaultFov, DefaultMaxFps, false, true)
  }

  // ---------------------------------------------------------------------
  // update

  /** Every vertex replaced by its image under `f`, in place. */
  function MapVerts(vs: seq<Point3>, f: Point3 -> Point3): (r: seq<Point3>)
    ensures |r| == |vs|
    ensures forall i :: 0 <= i < |vs| ==> r[i] == f(vs[i])
  {
    seq(|vs|, i requires 0 <= i < |vs| => f(vs[i]))
  }

  function WithVerts(e: Engine, vs: seq<Point3>): Engine {
    e.(canvas := e.canvas.(verts := vs))
  }

  /** The keys `update` reacts to. */
  predicate Handled(code: KeyCode) {
    code in {Char('q'), Up, Down, Left, Right, Char('j'), Char('k'), Char('h'), Char('l'), Tab}
  }

  const QuitKey: Option<Event> := Some(Key(Char('q')))
  const ToggleKey: Option<Event> := Some(Key(Tab))

  /** `update`: react to at most one pending event. */
  function Update(e: Engine, delta: real, input: Option<Event>, trig: real -> SinCos): (r: Engine)
    ensures r.canvas.edges == e.canvas.edges && |r.canvas.verts| == |e.canvas.verts|
    ensures r.fov == e.fov && r.maxFps == e.maxFps && r.time == e.time
    ensures r.shouldStop <==> e.shouldStop || input == QuitKey
    ensures r.showUi <==> (if input == ToggleKey then !e.showUi else e.showUi)
    ensures input == QuitKey ==> r.canvas == e.canvas
  {
    var turn := delta * TurnRate;
    match input
    case None => e
    case Some(NonKey) => e
    case Some(Key(code)) =>
      match code
      case Char('q') => e.(shouldStop := true)
      case Up => WithVerts(e, MapVerts(e.canvas.verts, v => Scale(v, GrowFactor)))
      case Down => WithVerts(e, MapVerts(e.canvas.verts, v => Scale(v, ShrinkFactor)))
      case Left => WithVerts(e, MapVerts(e.canvas.verts, v => RotateY(v, trig(turn))))
      case Right => WithVerts(e, MapVerts(e.canvas.verts, v => RotateY(v, trig(-delta * TurnRate))))
      case Char('j') => WithVerts(e, MapVerts(e.canvas.verts, v => RotateX(v, trig(turn))))
      case Char('k') => WithVerts(e, MapVerts(e.canvas.verts, v => RotateX(v, trig(-delta * TurnRate))))
      case Char('h') => WithVerts(e, MapVerts(e.canvas.verts, v => RotateZ(v, trig(turn))))
      case Char('l') => WithVerts(e, MapVerts(e.canvas.verts, v => RotateZ(v, trig(-delta * TurnRate))))
      case Tab => e.(showUi := !e.showUi)
      case _ => e
  }

  /** No event, a non-key event or a key `update` does not handle leaves the
      whole state unchanged. */
  lemma UpdateIgnores(e: Engine, delta: real, input: Option<Event>, trig: real -> SinCos)
    requires input.None? || input == Some(NonKey) || (input.value.Key? && !Handled(input.value.code))
    ensures Update(e, delta, input, trig) == e
  {
  }

  /** Quitting only raises the stop flag. */
  lemma UpdateQuit(e: Engine, delta: real, trig: real -> SinCos)
    ensures Update(e, delta, QuitKey, trig) == e.(shouldStop := true)
  {
  }

  /** Tab flips the overlay flag and touches nothing else, so two Tabs
      restore the state. */
  lemma UpdateToggle(e: Engine, d1: real, d2: real, trig: real -> SinCos)
    ensures Update(e, d1, ToggleKey, trig) == e.(showUi := !e.showUi)
    ensures Update(Update(e, d1, ToggleKey, trig), d2, ToggleKey, trig) == e
  {
  }

  /** The arrow keys Up and Down scale every vertex by 1.01 and 0.99 and
      change nothing else. */
  lemma UpdateScales(e: Engine, delta: real, trig: real -> SinCos)
    ensures var r := Update(e, delta, Some(Key(Up)), trig);
      r == WithVerts(e, r.canvas.verts) &&
      forall i :: 0 <= i < |e.canvas.verts| ==> r.canvas.verts[i] == Scale(e.canvas.verts[i], 1.01)
    ensures var r := Update(e, delta, Some(Key(Down)), trig);
      r == WithVerts(e, r.canvas.verts) &&
      forall i :: 0 <= i < |e.canvas.verts| ==> r.canvas.verts[i] == Scale(e.canvas.verts[i], 0.99)
  {
  }

  /** Left/Right turn every vertex about y, j/k about x and h/l about z, by
      plus or minus four radians per second of frame time; each turn keeps
      its own axis coordinate and changes nothing but the vertices. */
  lemma UpdateTurns(e: Engine, delta: real, trig: real -> SinCos, i: nat)
    requires i < |e.canvas.verts|
    ensures var v := e.canvas.verts[i];
      && Update(e, delta, Some(Key(Left)), trig).canvas.verts[i] == RotateY(v, trig(4.0 * delta))
      && Update(e, delta, Some(Key(Right)), trig).canvas.verts[i] == RotateY(v, trig(-4.0 * delta))
      && Update(e, delta, Some(Key(Char('j'))), trig).canvas.verts[i] == RotateX(v, trig(4.0 * delta))
      && Update(e, delta, Some(Key(Char('k'))), trig).canvas.verts[i] == RotateX(v, trig(-4.0 * delta))
      && Update(e, delta, Some(Key(Char('h'))), trig).canvas.verts[i] == RotateZ(v, trig(4.0 * delta))
      && Update(e, delta, Some(Key(Char('l'))), trig).canvas.verts[i] == RotateZ(v, trig(-4.0 * delta))
    ensures forall code :: code in {Left, Right, Char('j'), Char('k'), Char('h'), Char('l')} ==>
      var r := Update(e, delta, Some(Key(code)), trig); r == WithVerts(e, r.canvas.verts)
  {
    assert delta * TurnRate == 4.0 * delta;
    assert -delta * TurnRate == -4.0 * delta;
  }

  /** What genuine trigonometry promises at one angle: the pair lies on the
      unit circle and the negated angle gives the opposite pair. */
  predicate TrigAt(trig: real -> SinCos, angle: real) {
    OnUnitCircle(trig(angle)) && trig(-angle) == Opposite(trig(angle))
  }

  /** A turn followed by the opposite turn over the same frame time restores
      every vertex, for each of the three key pairs. */
  lemma OppositeTurnsCancel(e: Engine, delta: real, trig: real -> SinCos)
    requires TrigAt(trig, delta * TurnRate)
    ensures Update(Update(e, delta, Some(Key(Left)), trig), delta, Some(Key(Right)), trig) == e
    ensures Update(Update(e, delta, Some(Key(Char('j'))), trig), delta, Some(Key(Char('k'))), trig) == e
    ensures Update(Update(e, delta, Some(Key(Char('h'))), trig), delta, Some(Key(Char('l'))), trig) == e
  {
    var t := trig(delta * TurnRate);
    assert -delta * TurnRate == -(delta * TurnRate);
    assert trig(-delta * TurnRate) == Opposite(t);
    var vs := e.canvas.verts;
    forall i | 0 <= i < |vs| {
      RotateInverse(vs[i], t);
    }
    var l := Update(Update(e, delta, Some(Key(Left)), trig), delta, Some(Key(Right)), trig);
    assert l.canvas.verts == vs;
    var x := Update(Update(e, delta, Some(Key(Char('j'))), trig), delta, Some(Key(Char('k'))), trig);
    assert x.canvas.verts == vs;
    var z := Update(Update(e, delta, Some(Key(Char('h'))), trig), delta, Some(Key(Char('l'))), trig);
    assert z.canvas.verts == vs;
  }

  /** Scaling compounds per frame: Up then Down leaves every vertex scaled by
      0.9999, not restored. */
  lemma GrowThenShrink(e: Engine, d1: real, d2: real, trig: real -> SinCos)
    ensures var r := Update(Update(e, d1, Some(Key(Up)), trig), d2, Some(Key(Down)), trig);
      forall i :: 0 <= i < |e.canvas.verts| ==> r.canvas.verts[i] == Scale(e.canvas.verts[i], 0.9999)
  {
    var r := Update(Update(e, d1, Some(Key(Up)), trig), d2, Some(Key(Down)), trig);
    forall i | 0 <= i < |e.canvas.verts|
      ensures r.canvas.verts[i] == Scale(e.canvas.verts[i], 0.9999)
    {
      ScaleCompose(e.canvas.verts[i], 1.01, 0.99);
    }
  }

  // ---------------------------------------------------------------------
  // render

  /** One terminal command of a frame, in the order it is issued. */
  datatype Command =
    | ClearScreen
    | Write(put: Canvas.Put)
    | MoveHome
    | StatusLine(fps: int)
    | Flush

  function Writes(puts: seq<Canvas.Put>): (r: seq<Command>)
    ensures |r| == |puts|
    ensures forall i :: 0 <= i < |puts| ==> r[i] == Write(puts[i])
  {
    seq(|puts|, i requires 0 <= i < |puts| => Write(puts[i]))
  }

  /** The status line: moved to the top-left corner, showing the frame
      rate. */
  function Overlay(showUi: bool, fps: int): seq<Command> {
    if showUi then [MoveHome, StatusLine(fps)] else []
  }

  /** The command stream of one frame: clear, every glyph write in the order
      queued, then the status line when shown, and a flush last. */
  function Frame(writes: seq<Canvas.Put>, showUi: bool, fps: int): (r: seq<Command>)
    ensures |r| == |writes| + (if showUi then 4 else 2)
    ensures r[0] == ClearScreen && r[|r| - 1] == Flush
    ensures forall i :: 0 <= i < |writes| ==> r[i + 1] == Write(writes[i])
    ensures (exists i :: 0 <= i < |r| && r[i].StatusLine?) <==> showUi
    ensures showUi ==> r[|writes| + 1] == MoveHome && r[|r| - 2] == StatusLine(fps)
    ensures !showUi ==> r[|writes| + 1] == Flush
    ensures forall i, j :: 0 <= i < j < |r| && r[i].StatusLine? ==> !r[j].Write?
  {
    var w := Writes(writes);
    var r := [ClearScreen] + w + Overlay(showUi, fps) + [Flush];
    assert showUi ==> r[|w| + 2].StatusLine?;
    r
  }

  /** The glyph writes `draw` queues for the engine's canvas. */
  function FrameWrites(e: Engine, size: Canvas.ScreenSize): seq<Canvas.Put> {
    Canvas.LineWrites(Canvas.Draw(e.canvas, e.fov), size)
  }

  /** `render`: the frame for the engine's wireframe, with the status line
      showing the instantaneous rate `1 / delta` rounded. */
  function Render(e: Engine, delta: real, size: Canvas.ScreenSize): seq<Command>
    requires delta > 0.0
  {
    Frame(FrameWrites(e, size), e.showUi, Round(1.0 / delta))
  }

  /** One call of `render`: the state it draws, the frame time it is given
      and the terminal size at that moment. The commands it writes are
      `Render` of the three. */
  datatype RenderCall = RenderCall(state: Engine, delta: real, size: Canvas.ScreenSize)

  /** What a rendered frame looks like on the terminal: cleared first and
      flushed last, every glyph a `#` inside the screen (the clipping bound
      included), and the rate `round(1 / delta)` shown just before the flush
      exactly when the overlay is on. */
  lemma RenderShape(e: Engine, delta: real, size: Canvas.ScreenSize)
    requires delta > 0.0
    ensures var r := Render(e, delta, size);
      && |r| >= 2 && r[0] == ClearScreen && r[|r| - 1] == Flush
      && (forall i :: 0 <= i < |r| && r[i].Write? ==>
            r[i].put.glyph == Canvas.LineGlyph && r[i].put.col <= size.x && r[i].put.row <= size.y)
      && (e.showUi ==> r[|r| - 2] == StatusLine(Round(1.0 / delta)))
      && (!e.showUi ==> forall i :: 0 <= i < |r| ==> !r[i].StatusLine?)
  {
    var w := FrameWrites(e, size);
    var r := Frame(w, e.showUi, Round(1.0 / delta));
    forall i | 0 <= i < |r| && r[i].Write?
      ensures r[i].put.glyph == Canvas.LineGlyph && r[i].put.col <= size.x && r[i].put.row <= size.y
    {
      assert 1 <= i <= |w| by {
        if e.showUi {
          assert i != |w| + 1 && i != |w| + 2;
        }
      }
      assert r[i] == Write(w[i - 1]) && w[i - 1] in w;
    }
  }

  // ---------------------------------------------------------------------
  // run

  /** What one pass of the run loop did. */
  datatype Outcome =
    | Idle                          // the frame was not yet due
    | Quit                          // the stop flag was set: leave the loop
    | Rendered(call: RenderCall)    // a frame was drawn and the timer reset

  datatype Step = Step(engine: Engine, outcome: Outcome)

  /** The frame-rate gate: at least `1 / max_fps` seconds since the last
      frame. */
  predicate FrameDue(e: Engine, now: real)
    requires Valid(e)
  {
    now - e.time >= 1.0 / e.maxFps
  }

  /** One pass of the run loop at time `now`. */
  function Tick(e: Engine, now: real, input: Option<Event>, trig: real -> SinCos,
                size: Canvas.ScreenSize): (r: Step)
    requires Valid(e)
    ensures Valid(r.engine)
    ensures !FrameDue(e, now) ==> r == Step(e, Idle)
    ensures r.outcome.Quit? <==> FrameDue(e, now) && (e.shouldStop || input == QuitKey)
    ensures r.outcome.Rendered? <==> FrameDue(e, now) && !e.shouldStop && input != QuitKey
    ensures r.outcome.Rendered? ==> r.engine.time == now
    ensures r.outcome.Rendered? ==> r.outcome.call.delta == now - e.time > 0.0
    ensures !r.outcome.Rendered? ==> r.engine.time == e.time
    ensures r.engine.canvas.edges == e.canvas.edges
    ensures |r.engine.canvas.verts| == |e.canvas.verts|
    ensures r.engine.fov == e.fov && r.engine.maxFps == e.maxFps
  {
    var delta := now - e.time;
    if delta < 1.0 / e.maxFps then Step(e, Idle)
    else
      var u := Update(e, delta, input, trig);
      if u.shouldStop then Step(u, Quit)
      else Step(u.(time := now), Rendered(RenderCall(u, delta, size)))
  }

  /** A due tick renders the updated state and changes nothing else: the
      render pass leaves vertices and edges as they were. */
  lemma TickRenders(e: Engine, now: real, input: Option<Event>, trig: real -> SinCos,
                    size: Canvas.ScreenSize)
    requires Valid(e) && FrameDue(e, now) && !e.shouldStop && input != QuitKey
    ensures var u := Update(e, now - e.time, input, trig);
      Tick(e, now, input, trig, size) == Step(u.(time := now), Rendered(RenderCall(u, now - e.time, size)))
  {
  }

  /** The quit key stops the loop on the tick it is read, before any render,
      with every vertex where it was. */
  lemma QuitSkipsRender(e: Engine, now: real, trig: real -> SinCos, size: Canvas.ScreenSize)
    requires Valid(e) && FrameDue(e, now)
    ensures Tick(e, now, QuitKey, trig, size) == Step(e.(shouldStop := true), Quit)
  {
  }

  /** One iteration's inputs: the time read, the pending event and the
      terminal size. */
  datatype TickInput = TickInput(now: real, input: Option<Event>, size: Canvas.ScreenSize)

  /** The result of running the loop over a finite schedule of ticks. */
  datatype Session = Session(engine: Engine, renders: seq<RenderCall>, stopped: bool)

  /** `run`: tick until the schedule runs out or the loop breaks on quit. */
  function Run(e: Engine, ticks: seq<TickInput>, trig: real -> SinCos): (s: Session)
    requires Valid(e)
    ensures Valid(s.engine)
    ensures s.engine.canvas.edges == e.canvas.edges
    ensures |s.engine.canvas.verts| == |e.canvas.verts|
    ensures s.engine.fov == e.fov && s.engine.maxFps == e.maxFps
    ensures |s.renders| <= |ticks|
    ensures s.stopped ==> s.engine.shouldStop
    ensures !s.stopped ==> s.engine.shouldStop == e.shouldStop
    decreases |ticks|
  {
    if ticks == [] then Session(e, [], false)
    else
      var t := ticks[0];
      var step := Tick(e, t.now, t.input, trig, t.size);
      match step.outcome
      case Quit => Session(step.engine, [], true)
      case Idle => Run(step.engine, ticks[1..], trig)
      case Rendered(call) =>
        var rest := Run(step.engine, ticks[1..], trig);
        Session(rest.engine, [call] + rest.renders, rest.stopped)
  }

  /** Ticks that come before the frame is due change nothing and render
      nothing. */
  lemma {:induction false} RunWhileWaiting(e: Engine, ticks: seq<TickInput>, trig: real -> SinCos)
    requires Valid(e)
    requires forall k :: 0 <= k < |ticks| ==> !FrameDue(e, ticks[k].now)
    ensures Run(e, ticks, trig) == Session(e, [], false)
    decreases |ticks|
  {
    if ticks != [] {
      RunWhileWaiting(e, ticks[1..], trig);
    }
  }

  /** The loop leaves the session on the quit tick: nothing after it is
      processed and no frame is rendered for it. */
  lemma {:induction false} RunStopsAtQuit(e: Engine, before: seq<TickInput>, q: TickInput,
                                          after: seq<TickInput>, trig: real -> SinCos)
    requires Valid(e) && !e.shouldStop
    requires forall k :: 0 <= k < |before| ==> !FrameDue(e, before[k].now)
    requires FrameDue(e, q.now) && q.input == QuitKey
    ensures Run(e, before + [q] + after, trig) == Session(e.(shouldStop := true), [], true)
    decreases |before|
  {
    if before == [] {
      assert before + [q] + after == [q] + after;
    } else {
      assert (before + [q] + after)[1..] == before[1..] + [q] + after;
      RunStopsAtQuit(e, before[1..], q, after, trig);
    }
  }

  /** Every tick of a schedule whose ticks are each due, and none of which
      reads `q`, renders one frame: the loop never skips or stops. */
  lemma {:induction false} RunAllDue(e: Engine, ticks: seq<TickInput>, trig: real -> SinCos)
    requires Valid(e) && !e.shouldStop
    requires ticks != [] ==> FrameDue(e, ticks[0].now)
    requires forall k :: 0 <= k < |ticks| - 1 ==> ticks[k + 1].now - ticks[k].now >= 1.0 / e.maxFps
    requires forall k :: 0 <= k < |ticks| ==> ticks[k].input != QuitKey
    ensures |Run(e, ticks, trig).renders| == |ticks|
    ensures !Run(e, ticks, trig).stopped
    decreases |ticks|
  {
    if ticks != [] {
      var t := ticks[0];
      var step := Tick(e, t.now, t.input, trig, t.size);
      var rest := ticks[1..];
      forall k | 0 <= k < |rest| - 1
        ensures rest[k + 1].now - rest[k].now >= 1.0 / step.engine.maxFps
      {
        assert rest[k + 1] == ticks[k + 2] && rest[k] == ticks[k + 1];
      }
      if rest != [] {
        assert rest[0] == ticks[1];
      }
      RunAllDue(step.engine, rest, trig);
    }
  }
}
