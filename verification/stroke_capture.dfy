/** Stroke capture on the drawing canvas: the pointer handlers as a state
    machine.  The state is whether a stroke is being captured and the path
    captured so far.  Pointer-down starts a fresh one-point path in the
    current colour and width; a move while capturing appends one point and
    previews the path; pointer-up or pointer-leave while capturing completes
    the path, handing it to the completion callback, and stops capturing.  In
    read-only mode every event is ignored.  Pointer positions are converted
    from page coordinates by subtracting the canvas's top-left corner.

    Handler calls are taken one at a time, each seeing the state the previous
    one left. */
module StrokeCapture {

  import opened Schema
  import Drawing

  datatype Capture = Capture(drawing: bool, current: Path)

  /** What the handlers read besides the state: the component's props, whether
      the canvas element is mounted, and the canvas's top-left corner on the
      page. */
  datatype Env = Env(readOnly: bool, mounted: bool, color: string, strokeWidth: real, rectLeft: real, rectTop: real)

  datatype Event =
    | Down(clientX: real, clientY: real)
    | Move(clientX: real, clientY: real)
    | Up
    | Leave

  /** What a handler does besides updating the state: nothing, redraw the
      canvas with the path in progress on top, or complete a path. */
  datatype Effect = Quiet | Preview(path: Path) | Complete(path: Path)

  datatype Step = Step(state: Capture, effect: Effect)

  /** The state when the canvas first renders. */
  function Init(color: string, strokeWidth: real): Capture {
    Capture(false, Path([], color, strokeWidth))
  }

  /** A page position as a canvas position. */
  function ToCanvas(env: Env, clientX: real, clientY: real): Point {
    Point(clientX - env.rectLeft, clientY - env.rectTop)
  }

  /** One handler call. */
  function Handle(s: Capture, env: Env, e: Event): Step {
    if env.readOnly then Step(s, Quiet)
    else
      match e
      case Down(cx, cy) =>
        if !env.mounted then Step(s, Quiet)
        else Step(Capture(true, Path([ToCanvas(env, cx, cy)], env.color, env.strokeWidth)), Quiet)
      case Move(cx, cy) =>
        if !s.drawing || !env.mounted then Step(s, Quiet)
        else
          var path := s.current.(points := s.current.points + [ToCanvas(env, cx, cy)]);
          Step(s.(current := path), Preview(path))
      case _ =>
        if s.drawing then Step(s.(drawing := false), Complete(s.current))
        else Step(s, Quiet)
  }

  datatype RunResult = RunResult(state: Capture, completed: seq<Path>)

  function Completed(effect: Effect): seq<Path> {
    if effect.Complete? then [effect.path] else []
  }

  /** A sequence of handler calls: the final state and the paths completed, in order. */
  function Run(s: Capture, env: Env, events: seq<Event>): RunResult
    decreases |events|
  {
    if events == [] then RunResult(s, [])
    else
      var step := Handle(s, env, events[0]);
      var rest := Run(step.state, env, events[1..]);
      RunResult(rest.state, Completed(step.effect) + rest.completed)
  }

  // ---------------------------------------------------------------------
  // Single events
  // ---------------------------------------------------------------------

  /** Before any pointer-down, moves, ups and leaves change nothing and
      complete nothing. */
  lemma InitIgnoresAllButDown(color: string, strokeWidth: real, env: Env, e: Event)
    requires !e.Down?
    ensures Handle(Init(color, strokeWidth), env, e) == Step(Init(color, strokeWidth), Quiet)
    ensures Init(color, strokeWidth).current.points == []
  {
  }

  /** Pointer-down discards any path in progress and starts a one-point path
      at the converted position, in the current colour and width. */
  lemma DownStarts(s: Capture, env: Env, cx: real, cy: real)
    requires !env.readOnly && env.mounted
    ensures var r := Handle(s, env, Down(cx, cy));
      && r.state.drawing
      && r.state.current.points == [Point(cx - env.rectLeft, cy - env.rectTop)]
      && r.state.current.color == env.color && r.state.current.strokeWidth == env.strokeWidth
      && r.effect == Quiet
  {
  }

  /** A move while capturing appends exactly the converted position and
      keeps everything else; a move while idle does nothing. */
  lemma MoveAppends(s: Capture, env: Env, cx: real, cy: real)
    requires !env.readOnly && env.mounted
    ensures var r := Handle(s, env, Move(cx, cy));
      if s.drawing then
        && r.state.drawing
        && r.state.current.points == s.current.points + [Point(cx - env.rectLeft, cy - env.rectTop)]
        && r.state.current.color == s.current.color && r.state.current.strokeWidth == s.current.strokeWidth
        && r.effect == Preview(r.state.current)
      else r == Step(s, Quiet)
  {
  }

  /** Up and leave complete the path in progress once and stop capturing,
      keeping the path; while idle they do nothing. */
  lemma UpCompletes(s: Capture, env: Env, e: Event)
    requires !env.readOnly && (e.Up? || e.Leave?)
    ensures var r := Handle(s, env, e);
      if s.drawing then r == Step(Capture(false, s.current), Complete(s.current))
      else r == Step(s, Quiet)
  {
  }

  // ---------------------------------------------------------------------
  // Event sequences
  // ---------------------------------------------------------------------

  /** In read-only mode no sequence of events changes the state or completes a path. */
  lemma {:induction false} ReadOnlyInert(s: Capture, env: Env, events: seq<Event>)
    requires env.readOnly
    ensures Run(s, env, events) == RunResult(s, [])
    decreases |events|
  {
    if events != [] {
      ReadOnlyInert(s, env, events[1..]);
    }
  }

  /** Running two sequences one after the other. */
  lemma {:induction false} RunJoin(s: Capture, env: Env, a: seq<Event>, b: seq<Event>)
    ensures var first := Run(s, env, a);
      var second := Run(first.state, env, b);
      Run(s, env, a + b) == RunResult(second.state, first.completed + second.completed)
    decreases |a|
  {
    if a == [] {
      assert a + b == b;
    } else {
      assert (a + b)[0] == a[0] && (a + b)[1..] == a[1..] + b;
      RunJoin(Handle(s, env, a[0]).state, env, a[1..], b);
    }
  }

  function MoveEvents(positions: seq<(real, real)>): seq<Event>
    decreases |positions|
  {
    if positions == [] then [] else [Move(positions[0].0, positions[0].1)] + MoveEvents(positions[1..])
  }

  /** Page positions as canvas positions, in order. */
  function Converted(env: Env, positions: seq<(real, real)>): seq<Point>
    decreases |positions|
  {
    if positions == [] then [] else [ToCanvas(env, positions[0].0, positions[0].1)] + Converted(env, positions[1..])
  }

  /** Moves while capturing append their converted positions, in order, and
      complete nothing. */
  lemma {:induction false} MovesAppend(s: Capture, env: Env, positions: seq<(real, real)>)
    requires !env.readOnly && env.mounted && s.drawing
    ensures Run(s, env, MoveEvents(positions)) ==
      RunResult(s.(current := s.current.(points := s.current.points + Converted(env, positions))), [])
    decreases |positions|
  {
    if positions == [] {
      assert s.current.points + [] == s.current.points;
    } else {
      var events := MoveEvents(positions);
      var pt := ToCanvas(env, positions[0].0, positions[0].1);
      var next := s.(current := s.current.(points := s.current.points + [pt]));
      assert events[0] == Move(positions[0].0, positions[0].1);
      assert Handle(s, env, events[0]) == Step(next, Preview(next.current));
      assert events[1..] == MoveEvents(positions[1..]);
      MovesAppend(next, env, positions[1..]);
      var tail := Converted(env, positions[1..]);
      assert s.current.points + [pt] + tail == s.current.points + Converted(env, positions);
    }
  }

  /** A gesture, pointer-down, any number of moves and pointer-up, completes
      exactly one path: the converted positions in order, in the colour and
      width current at pointer-down.  A gesture without moves completes a
      one-point path, which draws nothing. */
  lemma {:induction false} GestureCompletesOnePath(s: Capture, env: Env, down: (real, real), positions: seq<(real, real)>)
    requires !env.readOnly && env.mounted
    ensures var path := Path([ToCanvas(env, down.0, down.1)] + Converted(env, positions), env.color, env.strokeWidth);
      Run(s, env, [Down(down.0, down.1)] + MoveEvents(positions) + [Up]) == RunResult(Capture(false, path), [path])
    ensures positions == [] ==>
      Drawing.DrawPath(Run(s, env, [Down(down.0, down.1)] + MoveEvents(positions) + [Up]).completed[0]) == []
  {
    var started := Handle(s, env, Down(down.0, down.1)).state;
    RunJoin(s, env, [Down(down.0, down.1)], MoveEvents(positions));
    MovesAppend(started, env, positions);
    RunJoin(s, env, [Down(down.0, down.1)] + MoveEvents(positions), [Up]);
  }
}
