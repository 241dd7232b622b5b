/** The compiled commands draw what the operators draw, and exactly when they do. */
module PathMeaning {
  import opened PageObjects
  import opened PathSvg
  import opened PdfParse

  ghost predicate Tallied(ops: seq<string>, pts: seq<Point>) {
    (forall k :: 0 <= k < |ops| ==> Constructs(ops[k])) && PointTotal(ops) == |pts|
  }

  // A path begins with a move or a rectangle.
  predicate StartsWell(ops: seq<string>) { ops != [] && (ops[0] == "m" || ops[0] == "re") }

  // How many of the points the last operator leaves for the others.
  function Rest(ops: seq<string>, pts: seq<Point>): nat
    requires Tallied(ops, pts) && ops != []
  {
    |pts| - PointsPerOp(ops[|ops| - 1])
  }

  // Where operators leave off, by their own points: the start of the last subpath, and
  // the end of the last operator that has points. A rectangle ends where it starts.
  datatype Ending = Ending(start: Point, last: Point)

  function EndingAfter(e: Ending, op: string, p: seq<Point>): Ending
    requires |p| == PointsPerOp(op)
  {
    if op == "m" || op == "re" then Ending(p[0], p[0])
    else if p != [] then e.(last := p[|p| - 1])
    else e
  }

  function Ends(ops: seq<string>, pts: seq<Point>): Ending
    requires PointTotal(ops) <= |pts|
  {
    if ops == [] then Ending(ORIGIN, ORIGIN)
    else
      var init, op := ops[..|ops| - 1], ops[|ops| - 1];
      EndingAfter(Ends(init, pts), op, pts[PointTotal(init)..PointTotal(ops)])
  }

  // The operators up to a close leave off where their subpath started.
  ghost predicate Meets(ops: seq<string>, pts: seq<Point>, k: nat)
    requires k <= |ops| && PointTotal(ops) <= |pts|
  {
    PointTotalSplit(ops, k);
    Ends(ops[..k], pts).start == Ends(ops[..k], pts).last
  }

  // Wherever a `v` follows a close, the close did not move the current point.
  ghost predicate CurvesMeet(ops: seq<string>, pts: seq<Point>)
    requires PointTotal(ops) <= |pts|
  {
    forall k :: 0 < k < |ops| && ops[k - 1] == "h" && ops[k] == "v" ==> Meets(ops, pts, k)
  }

  // Each operator looks only at the points before it.
  lemma {:induction false} EndsOfPrefix(ops: seq<string>, pts: seq<Point>, n: nat)
    requires PointTotal(ops) <= n <= |pts|
    ensures Ends(ops, pts[..n]) == Ends(ops, pts)
  {
    if ops != [] {
      var init := ops[..|ops| - 1];
      EndsOfPrefix(init, pts, n);
      assert pts[..n][PointTotal(init)..PointTotal(ops)] == pts[PointTotal(init)..PointTotal(ops)];
    }
  }

  lemma {:induction false} EndsOfLast(ops: seq<string>, pts: seq<Point>)
    requires Tallied(ops, pts) && ops != []
    ensures var n := Rest(ops, pts);
            var init := ops[..|ops| - 1];
            Tallied(init, pts[..n]) && Ends(ops, pts) == EndingAfter(Ends(init, pts[..n]), ops[|ops| - 1], pts[n..])
  {
    EndsOfPrefix(ops[..|ops| - 1], pts, Rest(ops, pts));
    assert pts[Rest(ops, pts)..|pts|] == pts[Rest(ops, pts)..];
  }

  lemma {:induction false} NextCurEnds(op: string, p: seq<Point>, e: Ending)
    requires Constructs(op) && |p| == PointsPerOp(op)
    ensures NextCur(op, p, e.last) == EndingAfter(e, op, p).last
    ensures op == "m" || op == "re" ==> forall cur :: NextCur(op, p, cur) == EndingAfter(e, op, p).last
  {
  }

  // The compiler's current point is the last operator's end, whatever it starts from.
  lemma {:induction false} CompilerEnds(ops: seq<string>, pts: seq<Point>, cur0: Point)
    requires Tallied(ops, pts) && StartsWell(ops)
    ensures Compiled(ops, pts, cur0).1 == Ends(ops, pts).last
  {
    var n := Rest(ops, pts);
    var init := ops[..|ops| - 1];
    EndsOfLast(ops, pts);
    NextCurEnds(ops[|ops| - 1], pts[n..], Ends(init, pts[..n]));
    if init != [] {
      CompilerEnds(init, pts[..n], cur0);
    }
  }

  // A pen that stands where the operators left off; `closed` says the last was a close.
  ghost predicate Stands(pen: Pen, e: Ending, closed: bool) {
    && pen.start == e.start && pen.cur == (if closed then e.start else e.last)
    && (!pen.open ==> pen.cur == pen.start)
  }

  lemma {:induction false} StandsAfter(pen: Pen, e: Ending, closed: bool, op: string, p: seq<Point>)
    requires Constructs(op) && |p| == PointsPerOp(op) && (Stands(pen, e, closed) || op == "m" || op == "re")
    ensures Stands(PdfStep(pen, op, p), EndingAfter(e, op, p), op == "h")
  {
  }

  // The true current point is that too, or after a close the start of the subpath.
  lemma {:induction false} PenEnds(ops: seq<string>, pts: seq<Point>)
    requires Tallied(ops, pts) && StartsWell(ops)
    ensures Stands(PdfRun(NO_PEN, ops, pts), Ends(ops, pts), ops[|ops| - 1] == "h")
  {
    var n := Rest(ops, pts);
    var init := ops[..|ops| - 1];
    EndsOfLast(ops, pts);
    if init != [] {
      PenEnds(init, pts[..n]);
      StandsAfter(PdfRun(NO_PEN, init, pts[..n]), Ends(init, pts[..n]), init[|init| - 1] == "h", ops[|ops| - 1], pts[n..]);
    } else {
      StandsAfter(NO_PEN, Ends(init, pts[..n]), false, ops[0], pts[n..]);
    }
  }

  // A last `v` meets when the compiler's current point is the true one.
  lemma {:induction false} LastMeets(ops: seq<string>, pts: seq<Point>, cur0: Point)
    requires Tallied(ops, pts) && StartsWell(ops)
    ensures Compiled(ops, pts, cur0).1 == PdfRun(NO_PEN, ops, pts).cur <==> (ops[|ops| - 1] == "h" ==> Meets(ops, pts, |ops|))
  {
    CompilerEnds(ops, pts, cur0);
    PenEnds(ops, pts);
    assert ops[..|ops|] == ops;
  }

  // One operator more.
  lemma {:induction false} CurvesMeetStep(ops: seq<string>, pts: seq<Point>)
    requires Tallied(ops, pts) && |ops| > 1
    ensures var n := Rest(ops, pts);
            var init := ops[..|ops| - 1];
            CurvesMeet(ops, pts) <==>
            CurvesMeet(init, pts[..n]) && (ops[|ops| - 1] == "v" && init[|init| - 1] == "h" ==> Meets(init, pts[..n], |init|))
  {
    var n := Rest(ops, pts);
    var init := ops[..|ops| - 1];
    forall k | 0 < k < |ops| ensures Meets(ops, pts, k) <==> Meets(init, pts[..n], k) {
      MeetsInPrefix(ops, pts, k);
    }
    assert forall k :: 0 <= k < |init| ==> init[k] == ops[k];
  }

  // And in the terms of the compiler's current point and the true one.
  lemma {:induction false} LastCurveMeets(ops: seq<string>, pts: seq<Point>, cur0: Point)
    requires Tallied(ops, pts) && StartsWell(ops)
    ensures var n := Rest(ops, pts);
            var init := ops[..|ops| - 1];
            CurvesMeet(ops, pts) <==>
            CurvesMeet(init, pts[..n]) && (ops[|ops| - 1] == "v" ==> Compiled(init, pts[..n], cur0).1 == PdfRun(NO_PEN, init, pts[..n]).cur)
  {
    if |ops| > 1 {
      CurvesMeetStep(ops, pts);
      LastMeets(ops[..|ops| - 1], pts[..Rest(ops, pts)], cur0);
    }
  }

  lemma {:induction false} MeetsInPrefix(ops: seq<string>, pts: seq<Point>, k: nat)
    requires Tallied(ops, pts) && k < |ops|
    ensures Meets(ops, pts, k) <==> Meets(ops[..|ops| - 1], pts[..Rest(ops, pts)], k)
  {
    var init := ops[..|ops| - 1];
    assert init[..k] == ops[..k];
    PointTotalSplit(init, k);
    EndsOfPrefix(ops[..k], pts, Rest(ops, pts));
  }

  lemma {:induction false} SvgRunConcat(pen: Pen, d: seq<Command>, e: seq<Command>)
    ensures SvgRun(pen, d + e) == SvgRun(SvgRun(pen, d), e)
  {
    if e == [] {
      assert d + e == d;
    } else {
      assert (d + e)[..|d + e| - 1] == d + e[..|e| - 1];
      SvgRunConcat(pen, d, e[..|e| - 1]);
    }
  }

  lemma {:induction false} SvgRunOne(pen: Pen, c: Command)
    ensures SvgRun(pen, [c]) == SvgStep(pen, c)
  {
    assert [c][..0] == [];
    assert SvgRun(pen, []) == pen;
  }

  lemma {:induction false} SvgRunRectangle(pen: Pen, a: Point, b: Point, c: Point, e: Point)
    ensures SvgRun(pen, [MoveTo(a), LineTo(b), LineTo(c), LineTo(e), ClosePath])
            == Close(Draw(Draw(Draw(Move(pen, a), Line(b)), Line(c)), Line(e)))
  {
    SvgRunOne(pen, MoveTo(a));
    SvgRunConcat(pen, [MoveTo(a)], [LineTo(b)]);
    SvgRunConcat(pen, [MoveTo(a), LineTo(b)], [LineTo(c)]);
    SvgRunConcat(pen, [MoveTo(a), LineTo(b), LineTo(c)], [LineTo(e)]);
    SvgRunConcat(pen, [MoveTo(a), LineTo(b), LineTo(c), LineTo(e)], [ClosePath]);
    SvgRunOne(Move(pen, a), LineTo(b));
    SvgRunOne(Draw(Move(pen, a), Line(b)), LineTo(c));
    SvgRunOne(Draw(Draw(Move(pen, a), Line(b)), Line(c)), LineTo(e));
    SvgRunOne(Draw(Draw(Draw(Move(pen, a), Line(b)), Line(c)), Line(e)), ClosePath);
    assert [MoveTo(a)] + [LineTo(b)] == [MoveTo(a), LineTo(b)];
    assert [MoveTo(a), LineTo(b)] + [LineTo(c)] == [MoveTo(a), LineTo(b), LineTo(c)];
    assert [MoveTo(a), LineTo(b), LineTo(c)] + [LineTo(e)] == [MoveTo(a), LineTo(b), LineTo(c), LineTo(e)];
    assert [MoveTo(a), LineTo(b), LineTo(c), LineTo(e)] + [ClosePath] == [MoveTo(a), LineTo(b), LineTo(c), LineTo(e), ClosePath];
  }

  // The operator as the compiler sees it: a `v` from the compiler's own current point.
  function CompilerStep(pen: Pen, op: string, p: seq<Point>, cur: Point): Pen
    requires Constructs(op) && |p| == PointsPerOp(op)
  {
    if op == "v" then Draw(pen, Cubic(cur, p[0], p[1])) else PdfStep(pen, op, p)
  }

  lemma {:induction false} EmitMeans(pen: Pen, op: string, p: seq<Point>, cur: Point, first: bool)
    requires Constructs(op) && |p| == PointsPerOp(op) && (first ==> op == "m" || op == "re")
    ensures SvgRun(pen, Emit(op, p, cur, first)) == CompilerStep(pen, op, p, cur)
  {
    if op == "re" {
      SvgRunRectangle(pen, p[0], p[1], p[2], p[3]);
    } else {
      SvgRunOne(pen, Emit(op, p, cur, first)[0]);
    }
  }

  // The pen the compiled commands move.
  function SvgPen(ops: seq<string>, pts: seq<Point>, cur0: Point): Pen
    requires Tallied(ops, pts)
  {
    SvgRun(NO_PEN, Compiled(ops, pts, cur0).0)
  }

  lemma {:induction false} NothingFirst(ops: seq<string>, pts: seq<Point>, cur0: Point)
    requires Tallied(ops, pts)
    ensures Compiled(ops, pts, cur0).0 == [] <==> ops == []
  {
    if ops != [] {
      var n := Rest(ops, pts);
      NothingFirst(ops[..|ops| - 1], pts[..n], cur0);
    }
  }

  lemma {:induction false} CompiledLast(ops: seq<string>, pts: seq<Point>, cur0: Point)
    requires Tallied(ops, pts) && ops != []
    ensures var n := Rest(ops, pts);
            var (d, cur) := Compiled(ops[..|ops| - 1], pts[..n], cur0);
            Compiled(ops, pts, cur0).0 == d + Emit(ops[|ops| - 1], pts[n..], cur, d == [])
  {
  }

  lemma {:induction false} SvgPenStep(ops: seq<string>, pts: seq<Point>, cur0: Point)
    requires Tallied(ops, pts) && StartsWell(ops)
    ensures var n := Rest(ops, pts);
            var init := ops[..|ops| - 1];
            SvgPen(ops, pts, cur0) == CompilerStep(SvgPen(init, pts[..n], cur0), ops[|ops| - 1], pts[n..], Compiled(init, pts[..n], cur0).1)
  {
    var n := Rest(ops, pts);
    var init := ops[..|ops| - 1];
    var (d, cur) := Compiled(init, pts[..n], cur0);
    NothingFirst(init, pts[..n], cur0);
    CompiledLast(ops, pts, cur0);
    SvgRunConcat(NO_PEN, d, Emit(ops[|ops| - 1], pts[n..], cur, d == []));
    EmitMeans(SvgRun(NO_PEN, d), ops[|ops| - 1], pts[n..], cur, d == []);
  }

  // ---------------------------------------------------------------- same shape

  // Two pens that agree on everything but possibly where segments bend.
  ghost predicate Parallel(p: Pen, q: Pen) {
    && p.start == q.start && p.cur == q.cur && p.open == q.open
    && |p.done| == |q.done| && |p.segments| == |q.segments|
    && (!p.open ==> p.segments == []) && (!q.open ==> q.segments == [])
  }

  // A step keeps pens parallel; it keeps them different once they differ; and it
  // makes them differ exactly when it is a `v` from a wrong current point.
  lemma {:induction false} StepParallel(p: Pen, q: Pen, op: string, at: seq<Point>, cur: Point)
    requires Parallel(p, q) && Constructs(op) && |at| == PointsPerOp(op)
    ensures Parallel(CompilerStep(p, op, at, cur), PdfStep(q, op, at))
    ensures CompilerStep(p, op, at, cur) == PdfStep(q, op, at) <==> p == q && (op == "v" ==> cur == q.cur)
  {
    if op == "v" {
      DrawParallel(p, q, Cubic(cur, at[0], at[1]), Cubic(q.cur, at[0], at[1]));
    } else if op == "re" {
      MoveParallel(p, q, at[0]);
      var p1, q1 := Move(p, at[0]), Move(q, at[0]);
      DrawParallel(p1, q1, Line(at[1]), Line(at[1]));
      var p2, q2 := Draw(p1, Line(at[1])), Draw(q1, Line(at[1]));
      DrawParallel(p2, q2, Line(at[2]), Line(at[2]));
      var p3, q3 := Draw(p2, Line(at[2])), Draw(q2, Line(at[2]));
      DrawParallel(p3, q3, Line(at[3]), Line(at[3]));
      CloseParallel(Draw(p3, Line(at[3])), Draw(q3, Line(at[3])));
    } else if op == "m" {
      MoveParallel(p, q, at[0]);
    } else if op == "h" {
      CloseParallel(p, q);
    } else {
      var s := if op == "l" then Line(at[0]) else if op == "c" then Cubic(at[0], at[1], at[2]) else Cubic(at[0], at[1], at[1]);
      DrawParallel(p, q, s, s);
    }
  }

  lemma {:induction false} AppendsDiffer<T>(a: seq<T>, b: seq<T>, x: T, y: T)
    requires |a| == |b|
    ensures a + [x] == b + [y] <==> a == b && x == y
  {
    if a + [x] == b + [y] {
      assert (a + [x])[..|a|] == a && (b + [y])[..|b|] == b;
      assert (a + [x])[|a|] == x && (b + [y])[|b|] == y;
    }
  }

  lemma {:induction false} DrawParallel(p: Pen, q: Pen, s: Segment, t: Segment)
    requires Parallel(p, q) && s.to == t.to
    ensures Parallel(Draw(p, s), Draw(q, t))
    ensures Draw(p, s) == Draw(q, t) <==> p == q && s == t
  {
    AppendsDiffer(p.segments, q.segments, s, t);
  }

  lemma {:induction false} FinishedDiffers(p: Pen, q: Pen)
    requires Parallel(p, q)
    ensures |Finished(p)| == |Finished(q)|
    ensures Finished(p) == Finished(q) <==> p == q
  {
    AppendsDiffer(p.done, q.done, Subpath(p.start, p.segments, false), Subpath(q.start, q.segments, false));
  }

  lemma {:induction false} MoveParallel(p: Pen, q: Pen, at: Point)
    requires Parallel(p, q)
    ensures Parallel(Move(p, at), Move(q, at))
    ensures Move(p, at) == Move(q, at) <==> p == q
  {
    FinishedDiffers(p, q);
  }

  lemma {:induction false} CloseParallel(p: Pen, q: Pen)
    requires Parallel(p, q)
    ensures Parallel(Close(p), Close(q))
    ensures Close(p) == Close(q) <==> p == q
  {
    AppendsDiffer(p.done, q.done, Subpath(p.start, p.segments, true), Subpath(q.start, q.segments, true));
  }

  lemma {:induction false} PensAgree(ops: seq<string>, pts: seq<Point>, cur0: Point)
    requires Tallied(ops, pts) && (ops != [] ==> StartsWell(ops))
    ensures Parallel(SvgPen(ops, pts, cur0), PdfRun(NO_PEN, ops, pts))
    ensures SvgPen(ops, pts, cur0) == PdfRun(NO_PEN, ops, pts) <==> CurvesMeet(ops, pts)
  {
    if ops != [] {
      var n := Rest(ops, pts);
      var init := ops[..|ops| - 1];
      PensAgree(init, pts[..n], cur0);
      SvgPenStep(ops, pts, cur0);
      StepParallel(SvgPen(init, pts[..n], cur0), PdfRun(NO_PEN, init, pts[..n]), ops[|ops| - 1], pts[n..], Compiled(init, pts[..n], cur0).1);
      LastCurveMeets(ops, pts, cur0);
    }
  }

  // ---------------------------------------------------------------- the theorem

  // The commands draw the same subpaths, lines and cubics as the operators exactly when
  // every `v` that follows a close finds the subpath back where it started.
  lemma {:induction false} PathMeansTheSame(ops: seq<string>, pts: seq<Point>)
    requires Tallied(Construction(ops), pts) && StartsWell(Construction(ops)) && pts != []
    ensures SvgDrawing(PathData(pts, ops)) == PdfDrawing(Construction(ops), pts) <==> CurvesMeet(Construction(ops), pts)
  {
    var built := Construction(ops);
    PensAgree(built, pts, pts[0]);
    FinishedDiffers(SvgPen(built, pts, pts[0]), PdfRun(NO_PEN, built, pts));
  }

  predicate NoCurveAfterClose(ops: seq<string>) {
    forall k :: 0 < k < |ops| ==> !(ops[k - 1] == "h" && ops[k] == "v")
  }

  // So with no `v` directly after an `h` the meaning is always kept.
  lemma {:induction false} PathMeansTheSameWithoutClose(ops: seq<string>, pts: seq<Point>)
    requires Tallied(Construction(ops), pts) && StartsWell(Construction(ops)) && pts != []
    requires NoCurveAfterClose(Construction(ops))
    ensures SvgDrawing(PathData(pts, ops)) == PdfDrawing(Construction(ops), pts)
  {
    PathMeansTheSame(ops, pts);
  }

  ghost predicate Built(ops: seq<string>) { forall k :: 0 <= k < |ops| ==> Constructs(ops[k]) }

  lemma {:induction false} OneOperatorMore(ops: seq<string>, op: string, pts: seq<Point>)
    requires Built(ops) && Constructs(op) && PointTotal(ops) + PointsPerOp(op) <= |pts|
    ensures var more, n := ops + [op], PointTotal(ops);
            && Built(more) && PointTotal(more) == n + PointsPerOp(op)
            && Ends(more, pts) == EndingAfter(Ends(ops, pts), op, pts[n..n + PointsPerOp(op)])
  {
    assert (ops + [op])[..|ops|] == ops;
  }

  // A line, and the close that takes the pen back from its end.
  lemma {:induction false} LineClosed(ops: seq<string>, pts: seq<Point>)
    requires Built(ops) && PointTotal(ops) < |pts|
    ensures var n, closed := PointTotal(ops), ops + ["l"] + ["h"];
            && Built(closed) && PointTotal(closed) == n + 1 && Ends(closed, pts) == Ending(Ends(ops, pts).start, pts[n])
  {
    OneOperatorMore(ops, "l", pts);
    OneOperatorMore(ops + ["l"], "h", pts);
  }

  // Elsewhere it is lost: a line away from the start of its subpath, a close, and a `v`.
  lemma {:induction false} CloseThenCurve(ops: seq<string>, pts: seq<Point>)
    requires Built(ops) && StartsWell(ops) && PointTotal(ops) + 3 == |pts| && pts[PointTotal(ops)] != Ends(ops, pts).start
    ensures var all := ops + ["l"] + ["h"] + ["v"];
            Tallied(all, pts) && SvgDrawing(PathData(pts, all)) != PdfDrawing(all, pts)
  {
    var closed := ops + ["l"] + ["h"];
    LineClosed(ops, pts);
    OneOperatorMore(closed, "v", pts);
    assert (closed + ["v"])[..|closed|] == closed;
    BendsElsewhere(closed + ["v"], pts, |closed|);
  }

  lemma {:induction false} JustMoved(p: Point, rest: seq<Point>)
    ensures Built(["m"]) && PointTotal(["m"]) == 1 && Ends(["m"], [p] + rest) == Ending(p, p)
  {
    assert ["m"][..0] == [];
    assert PointTotal([]) == 0;
  }

  // For one, `0 0 m 1 0 l h 2 2 3 0 v`.
  lemma {:induction false} CloseThenCurveExample()
    ensures var ops, pts := ["m"] + ["l"] + ["h"] + ["v"], [Point(0.0, 0.0)] + [Point(1.0, 0.0), Point(2.0, 2.0), Point(3.0, 0.0)];
            Tallied(ops, pts) && SvgDrawing(PathData(pts, ops)) != PdfDrawing(ops, pts)
  {
    JustMoved(Point(0.0, 0.0), [Point(1.0, 0.0), Point(2.0, 2.0), Point(3.0, 0.0)]);
    CloseThenCurve(["m"], [Point(0.0, 0.0)] + [Point(1.0, 0.0), Point(2.0, 2.0), Point(3.0, 0.0)]);
  }

  lemma {:induction false} BendsElsewhere(ops: seq<string>, pts: seq<Point>, k: nat)
    requires Tallied(ops, pts) && StartsWell(ops) && pts != []
    requires 0 < k < |ops| && ops[k - 1] == "h" && ops[k] == "v" && !Meets(ops, pts, k)
    ensures SvgDrawing(PathData(pts, ops)) != PdfDrawing(ops, pts)
  {
    ConstructionOfAll(ops);
    PathMeansTheSame(ops, pts);
  }

  // -------------------------------------------------- the operators always tally

  // A curve operator with the operands it takes.
  predicate WellOperanded(o: Operation) {
    Curves(o.op) ==> |o.operands| / 2 == PointsPerOp(o.op)
  }

  lemma {:induction false} ConstructionOfAll(ops: seq<string>)
    requires forall k :: 0 <= k < |ops| ==> Constructs(ops[k])
    ensures Construction(ops) == ops
  {
    if ops != [] {
      ConstructionOfAll(ops[..|ops| - 1]);
    }
  }

  lemma {:induction false} PaintConstructsNothing(ops: seq<string>, op: string)
    requires (forall k :: 0 <= k < |ops| ==> Constructs(ops[k])) && Paints(op)
    ensures Construction(ops + [op]) == ops
  {
    PaintIsNoConstruction(op);
    assert (ops + [op])[..|ops|] == ops;
    ConstructionOfAll(ops);
  }

  // The two vocabularies do not even share a first letter.
  lemma {:induction false} PaintIsNoConstruction(op: string)
    requires Paints(op)
    ensures !Constructs(op)
  {
    assert op[0] in ['S', 's', 'f', 'F', 'B', 'b', 'n'];
    if Constructs(op) {
      FirstLetter(op);
    }
  }

  lemma {:induction false} FirstLetter(op: string)
    requires Constructs(op)
    ensures |op| > 0 && op[0] in ['m', 'l', 'r', 'c', 'v', 'y', 'h']
  {
  }

  ghost predicate ObjectTallies(o: PageObject) {
    o.style.PathStyle? ==> o.points != [] && Tallied(Construction(o.ops), o.points)
  }

  ghost predicate WalkTallies(w: Walk) {
    && Tallied(w.currentOps, w.current)
    && forall k :: 0 <= k < |w.objects| ==> ObjectTallies(w.objects[k])
  }

  lemma {:induction false} BuildTallies(w: Walk, o: Operation)
    requires WalkTallies(w) && WellOperanded(o) && BuildsPath(o)
    ensures WalkTallies(BuildPath(w, o))
  {
    BuiltPoints(o);
    TalliedOneMore(w.currentOps, o.op, w.current, MapPoints(w.gs.ctm, PathPoints(o)));
  }

  lemma {:induction false} TalliedOneMore(ops: seq<string>, op: string, pts: seq<Point>, more: seq<Point>)
    requires Tallied(ops, pts) && Constructs(op) && |more| == PointsPerOp(op)
    ensures Tallied(ops + [op], pts + more)
  {
    assert (ops + [op])[..|ops|] == ops;
  }

  lemma {:induction false} BuiltPoints(o: Operation)
    requires WellOperanded(o) && BuildsPath(o)
    ensures |PathPoints(o)| == PointsPerOp(o.op) && Constructs(o.op)
  {
  }

  lemma {:induction false} PaintTallies(w: Walk, op: string)
    requires WalkTallies(w) && Paints(op)
    ensures WalkTallies(PaintPath(w, op))
  {
    PaintConstructsNothing(w.currentOps, op);
  }

  lemma {:induction false} TextTallies(env: Env, w: Walk, o: Operation)
    requires WalkTallies(w)
    ensures WalkTallies(ShowText(env, w, o))
  {
    assert TextObject(env, w.gs, o.shown, o.op, |w.objects|).style.TextStyle?;
  }

  lemma {:induction false} ImageTallies(w: Walk, o: Operation)
    requires WalkTallies(w)
    ensures WalkTallies(DrawImage(w, o))
  {
    assert !ImageOf(o, |w.objects|).style.PathStyle?;
  }

  lemma {:induction false} StepTallies(env: Env, w: Walk, o: Operation)
    requires WalkTallies(w) && WellOperanded(o)
    ensures WalkTallies(Step(env, w, o))
  {
    match KindOf(o) {
      case Build => BuildTallies(w, o);
      case Paint => PaintTallies(w, o.op);
      case Text => TextTallies(env, w, o);
      case Image => ImageTallies(w, o);
      case _ =>
    }
  }

  lemma {:induction false} RunTallies(env: Env, ops: seq<Operation>)
    requires forall k :: 0 <= k < |ops| ==> WellOperanded(ops[k])
    ensures WalkTallies(Run(env, START, ops))
  {
    if ops != [] {
      RunTallies(env, ops[..|ops| - 1]);
      StepTallies(env, Run(env, START, ops[..|ops| - 1]), ops[|ops| - 1]);
    }
  }

  // With well-formed curve operators, every path object a page yields passes the
  // accounting test, so the lossy fallback is never taken.
  lemma {:induction false} ParsedPathsTally(env: Env, ops: seq<Operation>, k: nat)
    requires forall i :: 0 <= i < |ops| ==> WellOperanded(ops[i])
    requires k < |Parsed(env, ops).objects| && Parsed(env, ops).objects[k].style.PathStyle?
    ensures var o := Parsed(env, ops).objects[k];
            && o.points != [] && PointTotal(Construction(o.ops)) == |o.points|
            && PathData(o.points, o.ops) == Compiled(Construction(o.ops), o.points, o.points[0]).0
  {
    RunTallies(env, ops);
    assert ObjectTallies(Parsed(env, ops).objects[k]);
  }
}
