/** Polyline emission: the canvas commands that stroke one path.  A path of
    fewer than two points emits nothing; otherwise the commands open a path,
    set the stroke colour and width with round caps and joins, move to the
    first point, draw a line to each further point in order, and stroke. */
module Drawing {

  import opened Wrappers
  import opened Schema

  datatype Cmd =
    | BeginPath
    | SetStrokeStyle(color: string)
    | SetLineWidth(width: real)
    | SetLineCap(cap: string)
    | SetLineJoin(join: string)
    | MoveTo(x: real, y: real)
    | LineTo(x: real, y: real)
    | Stroke

  /** Opening the path and setting its style. */
  function Style(path: Path): seq<Cmd> {
    [BeginPath, SetStrokeStyle(path.color), SetLineWidth(path.strokeWidth), SetLineCap("round"), SetLineJoin("round")]
  }

  /** A line to each point, in order. */
  function LinesTo(points: seq<Point>): seq<Cmd>
    decreases |points|
  {
    if points == [] then [] else [LineTo(points[0].x, points[0].y)] + LinesTo(points[1..])
  }

  /** The commands that stroke `path`. */
  function DrawPath(path: Path): seq<Cmd> {
    if |path.points| < 2 then []
    else
      var first := path.points[0];
      Style(path) + [MoveTo(first.x, first.y)] + LinesTo(path.points[1..]) + [Stroke]
  }

  // ---------------------------------------------------------------------
  // The shape of the emitted commands
  // ---------------------------------------------------------------------

  lemma {:induction false} LinesToShape(points: seq<Point>)
    ensures |LinesTo(points)| == |points|
    ensures forall i :: 0 <= i < |points| ==> LinesTo(points)[i] == LineTo(points[i].x, points[i].y)
    decreases |points|
  {
    if points != [] {
      LinesToShape(points[1..]);
    }
  }

  /** Fewer than two points emit nothing.  Otherwise the five style commands
      come first, then one move to the first point, a line to every further
      point in order, and a final stroke. */
  lemma {:induction false} DrawPathShape(path: Path)
    ensures |path.points| < 2 <==> DrawPath(path) == []
    ensures var n, cmds := |path.points|, DrawPath(path);
      n >= 2 ==>
        && |cmds| == n + 6
        && cmds[..5] == Style(path)
        && cmds[5] == MoveTo(path.points[0].x, path.points[0].y)
        && (forall i :: 1 <= i < n ==> cmds[5 + i] == LineTo(path.points[i].x, path.points[i].y))
        && cmds[n + 5] == Stroke
  {
    var n := |path.points|;
    if n >= 2 {
      var lines := path.points[1..];
      LinesToShape(lines);
      var cmds := DrawPath(path);
      assert cmds == Style(path) + [MoveTo(path.points[0].x, path.points[0].y)] + LinesTo(lines) + [Stroke];
      forall i | 1 <= i < n
        ensures cmds[5 + i] == LineTo(path.points[i].x, path.points[i].y)
      {
        assert cmds[5 + i] == LinesTo(lines)[i - 1];
        assert lines[i - 1] == path.points[i];
      }
    }
  }

  predicate IsBeginPath(c: Cmd) { c.BeginPath? }
  predicate IsMoveTo(c: Cmd) { c.MoveTo? }
  predicate IsLineTo(c: Cmd) { c.LineTo? }
  predicate IsStroke(c: Cmd) { c.Stroke? }
  predicate NotLineTo(c: Cmd) { !c.LineTo? }

  /** How many of the commands satisfy `p`. */
  function Count(cmds: seq<Cmd>, p: Cmd -> bool): nat
    decreases |cmds|
  {
    if cmds == [] then 0 else (if p(cmds[0]) then 1 else 0) + Count(cmds[1..], p)
  }

  lemma {:induction false} CountJoin(a: seq<Cmd>, b: seq<Cmd>, p: Cmd -> bool)
    ensures Count(a + b, p) == Count(a, p) + Count(b, p)
    decreases |a|
  {
    if a != [] {
      assert a + b == [a[0]] + (a[1..] + b);
      CountCons(a[0], a[1..] + b, p);
      assert a == [a[0]] + a[1..];
      CountCons(a[0], a[1..], p);
      CountJoin(a[1..], b, p);
    } else {
      assert a + b == b;
    }
  }

  lemma CountCons(c: Cmd, rest: seq<Cmd>, p: Cmd -> bool)
    ensures Count([c] + rest, p) == (if p(c) then 1 else 0) + Count(rest, p)
  {
    assert ([c] + rest)[1..] == rest;
  }

  /** The style commands and the move, counted one by one. */
  lemma HeadCount(path: Path, first: Point, p: Cmd -> bool)
    ensures Count(Style(path) + [MoveTo(first.x, first.y)], p) ==
      (if p(BeginPath) then 1 else 0) + (if p(SetStrokeStyle(path.color)) then 1 else 0)
      + (if p(SetLineWidth(path.strokeWidth)) then 1 else 0) + (if p(SetLineCap("round")) then 1 else 0)
      + (if p(SetLineJoin("round")) then 1 else 0) + (if p(MoveTo(first.x, first.y)) then 1 else 0)
  {
    var c0, c1, c2, c3, c4, c5 := BeginPath, SetStrokeStyle(path.color), SetLineWidth(path.strokeWidth),
      SetLineCap("round"), SetLineJoin("round"), MoveTo(first.x, first.y);
    assert Style(path) + [c5] == [c0] + ([c1] + ([c2] + ([c3] + ([c4] + ([c5] + [])))));
    CountCons(c5, [], p);
    CountCons(c4, [c5] + [], p);
    CountCons(c3, [c4] + ([c5] + []), p);
    CountCons(c2, [c3] + ([c4] + ([c5] + [])), p);
    CountCons(c1, [c2] + ([c3] + ([c4] + ([c5] + []))), p);
    CountCons(c0, [c1] + ([c2] + ([c3] + ([c4] + ([c5] + [])))), p);
  }

  lemma {:induction false} CountLines(points: seq<Point>)
    ensures Count(LinesTo(points), IsLineTo) == |points|
    ensures Count(LinesTo(points), NotLineTo) == 0
    decreases |points|
  {
    if points != [] {
      CountLines(points[1..]);
    }
  }

  /** A path of n ≥ 2 points is opened once, moved to once, stroked once, and
      has exactly n - 1 lines. */
  lemma {:induction false} DrawPathCounts(path: Path)
    requires |path.points| >= 2
    ensures Count(DrawPath(path), IsBeginPath) == 1
    ensures Count(DrawPath(path), IsMoveTo) == 1
    ensures Count(DrawPath(path), IsLineTo) == |path.points| - 1
    ensures Count(DrawPath(path), IsStroke) == 1
  {
    var first := path.points[0];
    var head := Style(path) + [MoveTo(first.x, first.y)];
    var lines := LinesTo(path.points[1..]);
    assert DrawPath(path) == head + lines + [Stroke];
    CountLines(path.points[1..]);
    CountJoin(head + lines, [Stroke], IsBeginPath);
    CountJoin(head, lines, IsBeginPath);
    CountJoin(head + lines, [Stroke], IsMoveTo);
    CountJoin(head, lines, IsMoveTo);
    CountJoin(head + lines, [Stroke], IsLineTo);
    CountJoin(head, lines, IsLineTo);
    CountJoin(head + lines, [Stroke], IsStroke);
    CountJoin(head, lines, IsStroke);
    CountNotLines(lines, IsBeginPath);
    CountNotLines(lines, IsMoveTo);
    CountNotLines(lines, IsStroke);
    HeadCount(path, first, IsBeginPath);
    HeadCount(path, first, IsMoveTo);
    HeadCount(path, first, IsLineTo);
    HeadCount(path, first, IsStroke);
    CountCons(Stroke, [], IsBeginPath);
    CountCons(Stroke, [], IsMoveTo);
    CountCons(Stroke, [], IsLineTo);
    CountCons(Stroke, [], IsStroke);
  }

  /** A predicate no line satisfies counts nothing among lines. */
  lemma {:induction false} CountNotLines(lines: seq<Cmd>, p: Cmd -> bool)
    requires forall c :: p(c) ==> !c.LineTo?
    requires Count(lines, NotLineTo) == 0
    ensures Count(lines, p) == 0
    decreases |lines|
  {
    if lines != [] {
      CountNotLines(lines[1..], p);
    }
  }

  // ---------------------------------------------------------------------
  // Reading a stroke back
  // ---------------------------------------------------------------------

  /** The points of a run of lines, if every command is a line. */
  function ParseLines(cmds: seq<Cmd>): Option<seq<Point>>
    decreases |cmds|
  {
    if cmds == [] then Some([])
    else if !cmds[0].LineTo? then None
    else
      match ParseLines(cmds[1..])
      case None => None
      case Some(rest) => Some([Point(cmds[0].x, cmds[0].y)] + rest)
  }

  /** The path a command sequence strokes, if it has the shape of a stroke. */
  function ParseStroke(cmds: seq<Cmd>): Option<Path> {
    if && |cmds| >= 8
       && cmds[0] == BeginPath && cmds[1].SetStrokeStyle? && cmds[2].SetLineWidth?
       && cmds[3] == SetLineCap("round") && cmds[4] == SetLineJoin("round")
       && cmds[5].MoveTo? && cmds[|cmds| - 1] == Stroke
    then
      match ParseLines(cmds[6..|cmds| - 1])
      case None => None
      case Some(rest) => Some(Path([Point(cmds[5].x, cmds[5].y)] + rest, cmds[1].color, cmds[2].width))
    else None
  }

  lemma {:induction false} LinesRoundTrip(points: seq<Point>)
    ensures ParseLines(LinesTo(points)) == Some(points)
    decreases |points|
  {
    if points != [] {
      LinesRoundTrip(points[1..]);
      assert [points[0]] + points[1..] == points;
    }
  }

  lemma {:induction false} LinesInverse(cmds: seq<Cmd>)
    requires ParseLines(cmds).Some?
    ensures LinesTo(ParseLines(cmds).value) == cmds
    decreases |cmds|
  {
    if cmds != [] {
      LinesInverse(cmds[1..]);
      var rest := ParseLines(cmds[1..]).value;
      assert ([Point(cmds[0].x, cmds[0].y)] + rest)[1..] == rest;
    }
  }

  /** The commands of a path of two or more points read back as that path. */
  lemma {:induction false} StrokeRoundTrip(path: Path)
    requires |path.points| >= 2
    ensures ParseStroke(DrawPath(path)) == Some(path)
  {
    var first := path.points[0];
    var cmds := DrawPath(path);
    LinesToShape(path.points[1..]);
    LinesRoundTrip(path.points[1..]);
    assert cmds[6..|cmds| - 1] == LinesTo(path.points[1..]);
    assert [first] + path.points[1..] == path.points;
  }

  /** Whatever reads back as a path is exactly the commands of that path. */
  lemma {:induction false} StrokeInverse(cmds: seq<Cmd>)
    requires ParseStroke(cmds).Some?
    ensures |ParseStroke(cmds).value.points| >= 2
    ensures DrawPath(ParseStroke(cmds).value) == cmds
  {
    var lines := cmds[6..|cmds| - 1];
    var rest := ParseLines(lines).value;
    LinesInverse(lines);
    LinesToShape(rest);
    var path := ParseStroke(cmds).value;
    assert path.points[1..] == rest;
    assert cmds == cmds[..5] + [cmds[5]] + lines + [cmds[|cmds| - 1]];
  }
}
