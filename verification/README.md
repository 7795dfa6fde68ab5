# TDEngine core in Dafny

A model of TDEngine, a terminal wireframe viewer, with proofs about it. The
viewer keeps a list of 3D vertices and a list of edges (index pairs). It
rotates and scales the vertices in response to keys and projects each
in-range edge onto the terminal. Each edge is rasterised into `#` glyphs by a
fixed-step line interpolation. The model covers:

- `vec.dfy` (module `Vec`): vectors, rotation about each axis, scaling, the
  zero-guarded perspective projection and `f32::round` (halfway cases away
  from zero).
- `canvas.dfy` (module `Canvas`): `set_pixel` centring and clipping, with the
  inclusive upper bound kept as written. Also `draw_line`, written as a loop
  that adds the increments the way the source does. It is proved to plot
  exactly the line's samples, where sample `k` is the start plus `k`
  increments, rounded. Also `draw`, which walks the edge list in order and
  skips out-of-range edges.
- `engine.dfy` (module `Engine`): engine defaults, key dispatch in `update`,
  the frame-rate gate, the render order (clear, lines, overlay, flush), the
  timer reset, and the run loop over a finite schedule of ticks.
- `startup.dfy` (module `Startup`): the built-in cube, edge extraction with
  `windows(2)` from a model file's flat index list, and the fallback to the
  cube when the file cannot be opened.
- `wrappers.dfy` (module `Wrappers`): `Option`.

The source computes in `f32`. The model computes over exact `real`s. Sine and
cosine are not computed: a rotation takes a `SinCos` pair, and the engine
takes a `trig: real -> SinCos` parameter. So the rotation facts hold for any
trigonometry. The inverse and norm laws hold whenever the pair lies on the
unit circle.

Terminal output is a trace:

- each accepted `set_pixel` is a `Canvas.Put`;
- each frame is a sequence of `Engine.Command`s. A rendered tick records
  its `render` call (`Engine.RenderCall`: the state, the frame time and the
  screen size), and the frame it writes is `Engine.Render` of that call;
- time, the pending event and the terminal size are per-tick inputs.

Three facts about the code that shape the model:

- `draw_line` (`src/canvas.rs:37-54`) is a fixed-step DDA, not Bresenham.
  Each step moves at most one cell on each axis (`Canvas.LineConnected`). It
  plots `max(|dx|, |dy|) + 1` points. Coincident endpoints give two points at
  the same cell.
- `set_pixel` compares with `>` (`src/canvas.rs:30`), so column `cols` and
  row `rows` are written. The model keeps this (`Canvas.SetPixel`), and
  `Canvas.SetPixelOnePastEdge` shows the cell it reaches.
- `src/canvas.rs:42` assigns to a binding that is not `mut`, which Rust
  rejects. The model sets `steps := 1` when both deltas are zero.

## Model

| member | source | states |
|---|---|---|
| `Vec.TupleRoundTrip` | src/vec.rs:19-23 | Tuple-to-vector conversions keep every component in order and lose nothing. This covers pairs and triples (the `Vector3` impl at lines 79-83 is the same). |
| `Vec.Opposite` | src/vec.rs:47-48 | The pair for a negated angle (sine negated, cosine kept) is on the unit circle exactly when the original pair is. |
| `Vec.RotateX` | src/vec.rs:47-54 | `rotate_x` leaves `x` unchanged. |
| `Vec.RotateY` | src/vec.rs:56-63 | `rotate_y` leaves `y` unchanged. |
| `Vec.RotateZ` | src/vec.rs:65-72 | `rotate_z` leaves `z` unchanged. |
| `Vec.RotateInverse` | src/vec.rs:47-72 | For a (sin, cos) pair on the unit circle, rotating about any axis and then by the negated angle returns the original vertex. |
| `Vec.RotatePreservesNorm` | src/vec.rs:47-72 | For a pair on the unit circle, each rotation keeps the vertex's squared distance from the origin. |
| `Vec.ScaleUnitAndZero` | src/vec.rs:74-76 | Scaling by 1 is the identity. Scaling by 0 collapses a vertex to the origin. |
| `Vec.ScaleCompose` | src/vec.rs:74-76 | Scaling by `a` and then by `b` is scaling by `a * b`. |
| `Vec.ScaleNorm` | src/vec.rs:74-76 | Scaling by `a` multiplies the squared length by `a * a`. |
| `Vec.ScaleInverse` | src/vec.rs:74-76 | A non-zero scale is undone by scaling by its reciprocal. |
| `Vec.ProjectionDivisor` | src/vec.rs:40-43 | The divisor is never zero. It is `z + fov` whenever that sum is non-zero. |
| `Vec.Projected` | src/vec.rs:39-45 | Each projected coordinate times the divisor equals that coordinate times `fov`. When `z + fov == 0` the result is the coordinates times `fov * 1000`. |
| `Vec.Round` | src/vec.rs:14-16 | The result is within 1/2 of the input. A tie goes away from zero: strictly above `a - 1/2` for `a >= 0`, strictly below `a + 1/2` for `a < 0`. |
| `Vec.RoundNearest` | src/vec.rs:14-16 | An input strictly within 1/2 of an integer rounds to that integer. |
| `Vec.RoundFacts` | src/vec.rs:14-16 | Integers round to themselves. Rounding is monotone. Inputs less than 1 apart round to integers at most 1 apart. |
| `Canvas.New` | src/canvas.rs:14-20 | A new canvas has no vertices and no edges, so drawing it issues no line at any field of view. |
| `Canvas.SetPixel` | src/canvas.rs:27-35 | A write is queued exactly when the centred point `(x + cols/2, y + rows/2)` has both coordinates `>= 0`, `x <= cols` and `y <= rows`. The write is the given glyph at that cell. Every other point is dropped. |
| `Canvas.SetPixelWindow` | src/canvas.rs:28-31 | In logical coordinates the accepted points are `-(cols/2) <= x <= (cols+1)/2`, and the same for rows. That is `cols + 1` columns and `rows + 1` rows. |
| `Canvas.SetPixelOnePastEdge` | src/canvas.rs:30 | The point `((cols+1)/2, (rows+1)/2)` is written at cell `(cols, rows)`, one past the last visible cell. The next column is dropped. |
| `Canvas.Plot` | src/canvas.rs:48-52 | A run of `set_pixel` calls queues at most one write per point. |
| `Canvas.PlotFacts` | src/canvas.rs:48-52 | Each queued write is in bounds and has the given glyph. Every accepted point's write is present, and every write comes from an accepted point. If all points are accepted, there is one write per point. |
| `Canvas.Steps` | src/canvas.rs:40-43 | The step count is at least 1 and at least each absolute delta. |
| `Canvas.Increment` | src/canvas.rs:44-45 | Both per-step increments are within [-1, 1]. Steps times increment equals the delta on each axis. |
| `Canvas.StepQuotient` | src/canvas.rs:44-45 | A delta divided by a step count at least its magnitude is within [-1, 1]. It is strictly inside when the delta is smaller, and exactly ±1 when the delta is ±steps. |
| `Canvas.AxisClosed` | src/canvas.rs:46-51 | Adding the increment `k` times to a start coordinate gives exactly `start + k * increment`. |
| `Canvas.Samples` | src/canvas.rs:46-52 | The loop's first `count` points are exactly `count` points, the k-th at the position `k` increments from the start, rounded. |
| `Canvas.DrawLine` | src/canvas.rs:37-54 | The loop that adds `x_increase`/`y_increase` to a running position plots exactly the line's samples in order. It queues exactly the writes `set_pixel` accepts from those points, in order. |
| `Canvas.LineSampleCount` | src/canvas.rs:40-48 | Distinct endpoints give `max(|dx|, |dy|) + 1` samples. Coincident endpoints give exactly two samples, both at the point. |
| `Canvas.LineEndpoints` | src/canvas.rs:44-51 | The first sample is `point1` and the last is `point2`. |
| `Canvas.SampleStep` | src/canvas.rs:44-51 | If both increments are within one cell, each rounded sample touches the next, at a side or a corner. |
| `Canvas.LineConnected` | src/canvas.rs:44-51 | Consecutive plotted points touch, so a drawn line has no gaps. |
| `Canvas.HorizontalLine` | src/canvas.rs:37-54 | A horizontal line `n >= 1` cells long, from any start, plots its `n + 1` cells once each, left to right. |
| `Canvas.SlopedLineExample` | src/canvas.rs:37-54 | The line from `p` to `p + (3, 2)` plots `p`, `p + (1,1)`, `p + (2,1)` and `p + (3,2)`. |
| `Canvas.DrawEdges` | src/canvas.rs:56-66 | At most one line per edge. Every edge with both indices in range produces its line, and every line comes from such an edge. |
| `Canvas.DrawAppend` | src/canvas.rs:58-64 | Drawing `a + b` makes `a`'s calls followed by `b`'s calls, so list order is kept. |
| `Canvas.DrawOneMore` | src/canvas.rs:59-63 | Appending an out-of-range edge changes nothing. Appending an in-range edge adds exactly its line at the end. |
| `Canvas.DrawAllInRange` | src/canvas.rs:57-63 | If every edge is in range, there is exactly one call per edge, and the k-th call is the k-th edge's line. |
| `Canvas.OutOfRangeEdgeExample` | src/canvas.rs:59 | With four vertices, an edge naming vertex 5 is skipped without error. |
| `Canvas.LineWrites` | src/canvas.rs:56-66 | Every write a frame's line calls queue is a `#` inside the accepted window. |
| `Engine.New` | src/engine.rs:17-26 | A new engine has fov 90, max_fps 60, `should_stop` false, `show_ui` true, an empty canvas and the timer at the start time. |
| `Engine.Update` | src/engine.rs:49-88 | The edge list, vertex count, fov, max_fps and timer never change. `should_stop` is raised exactly by `q`. `show_ui` flips exactly on Tab. Quitting leaves the canvas unchanged. |
| `Engine.UpdateIgnores` | src/engine.rs:50-51 | No event, a non-key event or an unhandled key leaves the whole state unchanged. |
| `Engine.UpdateQuit` | src/engine.rs:53-56 | `q` only sets the stop flag. |
| `Engine.UpdateToggle` | src/engine.rs:81-83 | Tab flips `show_ui` and nothing else, so two Tabs restore the state. |
| `Engine.UpdateScales` | src/engine.rs:57-62 | Up scales every vertex by 1.01 and Down by 0.99. Nothing else changes. |
| `Engine.UpdateTurns` | src/engine.rs:63-80 | Left/Right rotate every vertex about y by ±4·delta, j/k about x, h/l about z. Only vertices change. |
| `Engine.OppositeTurnsCancel` | src/engine.rs:63-80 | With valid trigonometry, a turn followed by the opposite turn over the same frame time restores the state, for each key pair. |
| `Engine.GrowThenShrink` | src/engine.rs:57-62 | Up followed by Down scales every vertex by 0.9999. The scaling compounds and is not undone. |
| `Engine.Frame` | src/engine.rs:90-99 | A frame starts with a clear and ends with a flush. Between them come all glyph writes in the order queued. With `show_ui` set, the writes are followed by a move to the top-left corner and one status line showing the given rate, then the flush. Without it, the flush follows the writes directly. A status line appears exactly when `show_ui` is set, and no glyph write follows it. |
| `Engine.RenderShape` | src/engine.rs:90-99 | A rendered frame is cleared first and flushed last. Every glyph it writes is a `#` inside the screen, with the inclusive bound. The rate `round(1/delta)` is shown just before the flush when `show_ui` is set, and no status line appears when it is not. |
| `Engine.Tick` | src/engine.rs:31-40 | Before `1/max_fps` has elapsed nothing changes. A due tick quits exactly when the stop flag is set or `q` arrives, and otherwise renders, passing the elapsed time (positive) as `delta`. The timer is reset only on a rendered tick. Edges, vertex count, fov and max_fps are kept. |
| `Engine.TickRenders` | src/engine.rs:33-39 | A due tick that does not quit calls `render` on the updated state with the elapsed time as `delta`. The timer is the only other change, so rendering leaves vertices and edges alone. |
| `Engine.QuitSkipsRender` | src/engine.rs:34-37 | A due `q` tick sets the stop flag and ends without rendering. The vertices are unchanged. |
| `Engine.Run` | src/engine.rs:31-41 | Over any schedule of ticks the edge list, vertex count, fov and max_fps are kept. There is at most one `render` call per tick. The loop stops only with the stop flag set. |
| `Engine.RunWhileWaiting` | src/engine.rs:32-33 | Ticks before the frame is due render nothing and change nothing. |
| `Engine.RunStopsAtQuit` | src/engine.rs:31-41 | Waiting ticks followed by a due `q` end the session with no frame rendered. Nothing after the quit is processed. |
| `Engine.RunAllDue` | src/engine.rs:31-41 | If the first tick is due, later ticks are at least `1/max_fps` apart and none reads `q`, then every tick makes one `render` call and the loop does not stop. |
| `Startup.DefaultCubeShape` | src/main.rs:10-33 | There are 8 distinct vertices, each coordinate ±10. There are 12 edges, all indices < 8. Each edge joins corners that differ in exactly one coordinate. |
| `Startup.CubeDrawsAll` | src/main.rs:20-33 | For any eight vertices, such as the cube after any rotations and scalings, `draw` renders all 12 cube edges in list order. |
| `Startup.ObjEdges` | src/main.rs:39 | `n` flat indices give `max(n-1, 0)` edges, and the k-th edge is `(indices[k], indices[k+1])`. |
| `Startup.ObjEdgesChain` | src/main.rs:39 | Consecutive extracted edges share an endpoint. With at least two indices, every index appears in some edge. |
| `Startup.Start` | src/main.rs:9-41 | With no path, or a file that cannot be opened, the engine starts on the unchanged default cube. An unparseable file aborts. A parsed file supplies the vertices in order and the `windows(2)` edges. Every other engine field is as `Engine::new` sets it. |
| `Startup.DefaultFirstFrame` | src/main.rs:9-42 | Started without a model file, the engine holds the cube, and a due tick with no input renders a frame. Only the timer changes. |

## Left out

- Terminal I/O: raw mode, cursor hide/show, clearing, `queue!`/`execute!`, flushing and `window_size`. These are foreign calls. Output is a trace of commands, and the screen size is a parameter.
- Restoring the terminal after the loop (`src/engine.rs:42-46`): it is only terminal calls.
- Re-querying the screen size on every `set_pixel`: a frame uses one size, so a resize during a frame is not modelled.
- Event polling, `event::read` and `Instant`: a tick receives an `Option<Event>` and the time as inputs. A failed poll is `None`, and a failed read is `NonKey`.
- Engine.Tick: resets the timer to the instant the tick was read. The source reads the clock again after rendering.
- `f32` arithmetic: accumulated rounding error in the interpolation, `sin_cos`, and NaN and infinities. The model computes over exact reals, and trigonometry is an input.
- Canvas.LineEndpoints: the last sample is `point2` only with exact arithmetic. With `f32` accumulation it can be off.
- `i32` and `u16` widths. Overflow of `point.x + cols/2` or of the deltas, and the saturating `as i32` cast after rounding, are not modelled. Integers are unbounded.
- The FPS text: only the rounded value `round(1/delta)` is modelled, not the formatted string.
- `io::Result` error propagation: every terminal call is assumed to succeed.
- Argument parsing with clap (`src/args.rs`) and OBJ parsing (`obj::load_obj`): the parse result is an `ObjFile` input, and the `expect` panic is `None` from `Startup.Start`.
- `engine.run().unwrap()` in `main`: it is a foreign call.
