/** The compiler from a path object's operators to SVG path commands, and what both
    sides draw. */
module PathSvg {
  import opened PageObjects

  // SVG path commands (section 9.3 of SVG 2).
  datatype Command = MoveTo(to: Point) | LineTo(to: Point) | CurveTo(c1: Point, c2: Point, to: Point) | ClosePath

  // How many captured points each construction operator contributed; an operator
  // outside the table constructs nothing.
  predicate Constructs(op: string) { op in ["m", "l", "re", "c", "v", "y", "h"] }

  function PointsPerOp(op: string): nat {
    if op == "m" || op == "l" then 1
    else if op == "re" then 4
    else if op == "c" then 3
    else if op == "v" || op == "y" then 2
    else 0
  }

  function Construction(ops: seq<string>): (r: seq<string>)
    ensures forall k :: 0 <= k < |r| ==> Constructs(r[k])
  {
    if ops == [] then []
    else Construction(ops[..|ops| - 1]) + if Constructs(ops[|ops| - 1]) then [ops[|ops| - 1]] else []
  }

  function PointTotal(ops: seq<string>): nat {
    if ops == [] then 0 else PointTotal(ops[..|ops| - 1]) + PointsPerOp(ops[|ops| - 1])
  }

  // ------------------------------------------------------------------- meaning

  datatype Segment = Line(to: Point) | Cubic(c1: Point, c2: Point, to: Point)

  datatype Subpath = Subpath(start: Point, segments: seq<Segment>, closed: bool)

  // A pen drawing subpaths: the finished ones, and the one in progress.
  datatype Pen = Pen(done: seq<Subpath>, start: Point, cur: Point, segments: seq<Segment>, open: bool)

  const NO_PEN := Pen([], ORIGIN, ORIGIN, [], false)

  // Ends the subpath in progress; a bare move leaves nothing behind.
  function Finished(pen: Pen): seq<Subpath> {
    if pen.open && pen.segments != [] then pen.done + [Subpath(pen.start, pen.segments, false)] else pen.done
  }

  function Move(pen: Pen, p: Point): Pen { Pen(Finished(pen), p, p, [], true) }

  // After a close the next segment begins a new subpath where the last one began.
  function Draw(pen: Pen, s: Segment): Pen { pen.(segments := pen.segments + [s], cur := s.to, open := true) }

  function Close(pen: Pen): Pen {
    if pen.open then Pen(pen.done + [Subpath(pen.start, pen.segments, true)], pen.start, pen.start, [], false) else pen
  }

  // A PDF construction operator (section 8.5.2 of ISO 32000-1) with its points.
  function PdfStep(pen: Pen, op: string, p: seq<Point>): Pen
    requires Constructs(op) && |p| == PointsPerOp(op)
  {
    if op == "m" then Move(pen, p[0])
    else if op == "l" then Draw(pen, Line(p[0]))
    else if op == "re" then
      Close(Draw(Draw(Draw(Move(pen, p[0]), Line(p[1])), Line(p[2])), Line(p[3])))
    else if op == "c" then Draw(pen, Cubic(p[0], p[1], p[2]))
    else if op == "v" then Draw(pen, Cubic(pen.cur, p[0], p[1]))
    else if op == "y" then Draw(pen, Cubic(p[0], p[1], p[1]))
    else Close(pen)
  }

  function SvgStep(pen: Pen, c: Command): Pen {
    match c
    case MoveTo(p) => Move(pen, p)
    case LineTo(p) => Draw(pen, Line(p))
    case CurveTo(c1, c2, p) => Draw(pen, Cubic(c1, c2, p))
    case ClosePath => Close(pen)
  }

  function SvgRun(pen: Pen, d: seq<Command>): Pen {
    if d == [] then pen else SvgStep(SvgRun(pen, d[..|d| - 1]), d[|d| - 1])
  }

  function PdfRun(pen: Pen, ops: seq<string>, pts: seq<Point>): Pen
    requires (forall k :: 0 <= k < |ops| ==> Constructs(ops[k])) && PointTotal(ops) == |pts|
  {
    if ops == [] then pen
    else
      var n := |pts| - PointsPerOp(ops[|ops| - 1]);
      PdfStep(PdfRun(pen, ops[..|ops| - 1], pts[..n]), ops[|ops| - 1], pts[n..])
  }

  // The subpaths a path draws.
  function SvgDrawing(d: seq<Command>): seq<Subpath> { Finished(SvgRun(NO_PEN, d)) }

  function PdfDrawing(ops: seq<string>, pts: seq<Point>): seq<Subpath>
    requires (forall k :: 0 <= k < |ops| ==> Constructs(ops[k])) && PointTotal(ops) == |pts|
  {
    Finished(PdfRun(NO_PEN, ops, pts))
  }

  // ------------------------------------------------------------------ compiler

  // The commands for one operator. `first` says nothing has been written yet; `cur`
  // is the compiler's own idea of the current point.
  function Emit(op: string, p: seq<Point>, cur: Point, first: bool): seq<Command>
    requires Constructs(op) && |p| == PointsPerOp(op)
  {
    if op == "m" then [MoveTo(p[0])]
    else if op == "l" then [if first then MoveTo(p[0]) else LineTo(p[0])]
    else if op == "re" then [MoveTo(p[0]), LineTo(p[1]), LineTo(p[2]), LineTo(p[3]), ClosePath]
    else if op == "c" then [CurveTo(p[0], p[1], p[2])]
    else if op == "v" then [CurveTo(cur, p[0], p[1])]
    else if op == "y" then [CurveTo(p[0], p[1], p[1])]
    else [ClosePath]
  }

  // A close leaves the compiler's current point where it was.
  function NextCur(op: string, p: seq<Point>, cur: Point): Point
    requires Constructs(op) && |p| == PointsPerOp(op)
  {
    if op == "m" || op == "l" || op == "re" then p[0]
    else if op == "c" then p[2]
    else if op == "v" || op == "y" then p[1]
    else cur
  }

  function Compiled(ops: seq<string>, pts: seq<Point>, cur0: Point): (r: (seq<Command>, Point))
    requires (forall k :: 0 <= k < |ops| ==> Constructs(ops[k])) && PointTotal(ops) == |pts|
  {
    if ops == [] then ([], cur0)
    else
      var n := |pts| - PointsPerOp(ops[|ops| - 1]);
      var (d, cur) := Compiled(ops[..|ops| - 1], pts[..n], cur0);
      (d + Emit(ops[|ops| - 1], pts[n..], cur, d == []), NextCur(ops[|ops| - 1], pts[n..], cur))
  }

  // The fallback when operators and points do not tally: every point joined in turn.
  function Polyline(pts: seq<Point>, close: bool): seq<Command>
    requires pts != []
  {
    [MoveTo(pts[0])] + seq(|pts| - 1, k requires 0 <= k < |pts| - 1 => LineTo(pts[k + 1]))
    + if close then [ClosePath] else []
  }

  function PathData(pts: seq<Point>, ops: seq<string>): seq<Command> {
    if pts == [] then []
    else if PointTotal(Construction(ops)) != |pts| then Polyline(pts, "re" in ops || "h" in ops)
    else Compiled(Construction(ops), pts, pts[0]).0
  }

  lemma {:induction false} PointTotalSplit(ops: seq<string>, k: nat)
    requires k <= |ops|
    ensures PointTotal(ops[..k]) <= PointTotal(ops)
  {
    if k < |ops| {
      PointTotalSplit(ops[..|ops| - 1], k);
      assert ops[..|ops| - 1][..k] == ops[..k];
    } else {
      assert ops[..k] == ops;
    }
  }

  lemma {:induction false} CompiledOneMore(built: seq<string>, pts: seq<Point>, k: nat, i: nat, next: nat, cur0: Point)
    requires k < |built| && (forall m :: 0 <= m < |built| ==> Constructs(built[m]))
    requires i == PointTotal(built[..k]) && next == i + PointsPerOp(built[k]) <= |pts|
    ensures PointTotal(built[..k + 1]) == next
    ensures var (d, cur) := Compiled(built[..k], pts[..i], cur0);
            Compiled(built[..k + 1], pts[..next], cur0)
            == (d + Emit(built[k], pts[i..next], cur, d == []), NextCur(built[k], pts[i..next], cur))
  {
    assert built[..k + 1][..k] == built[..k];
    assert pts[..next][..i] == pts[..i] && pts[..next][i..] == pts[i..next];
  }

  // The compiler itself, consuming the points in step with the operators.
  method PathD(pts: seq<Point>, ops: seq<string>) returns (d: seq<Command>)
    ensures d == PathData(pts, ops)
  {
    if pts == [] {
      return [];
    }
    var built := Construction(ops);
    if PointTotal(built) != |pts| {
      return Polyline(pts, "re" in ops || "h" in ops);
    }
    d := Compile(built, pts);
  }

  method Compile(built: seq<string>, pts: seq<Point>) returns (d: seq<Command>)
    requires (forall k :: 0 <= k < |built| ==> Constructs(built[k])) && PointTotal(built) == |pts| && pts != []
    ensures d == Compiled(built, pts, pts[0]).0
  {
    d := [];
    var cur, i := pts[0], 0;
    for k := 0 to |built|
      invariant i == PointTotal(built[..k]) <= |pts|
      invariant (d, cur) == Compiled(built[..k], pts[..i], pts[0])
    {
      var op := built[k];
      var next := i + PointsPerOp(op);
      assert built[..k + 1][..k] == built[..k];
      PointTotalSplit(built, k + 1);
      CompiledOneMore(built, pts, k, i, next, pts[0]);
      var chunk := pts[i..next];
      d, cur, i := d + Emit(op, chunk, cur, d == []), NextCur(op, chunk, cur), next;
    }
    assert built[..|built|] == built && pts[..i] == pts;
  }
}
