/** What the operators of a content stream mean (sections 8.3, 8.4 and 9.4 of ISO 32000-1),
    told apart from the steps that carry them out. */
module ContentStream {
  import opened PageObjects
  import opened Rounding
  import opened PdfParse

  // -------------------------------------------------------------------- matrices

  // One coordinate of a point taken through a matrix.
  function Line(a: real, c: real, e: real, x: real, y: real): real { a * x + c * y + e }

  lemma {:induction false} ApplyByLines(m: Matrix, p: Point)
    ensures Apply(m, p) == Point(Line(m.a, m.c, m.e, p.x, p.y), Line(m.b, m.d, m.f, p.x, p.y))
  {
  }

  lemma {:induction false} MulByLines(m: Matrix, n: Matrix)
    ensures Mul(m, n) == Matrix(Line(n.a, n.c, 0.0, m.a, m.b), Line(n.b, n.d, 0.0, m.a, m.b),
                                Line(n.a, n.c, 0.0, m.c, m.d), Line(n.b, n.d, 0.0, m.c, m.d),
                                Line(n.a, n.c, n.e, m.e, m.f), Line(n.b, n.d, n.f, m.e, m.f))
  {
  }

  lemma {:induction false} Composed(a: real, b: real, c: real, d: real, e: real, f: real, k: real, l: real, t: real, x: real, y: real)
    ensures Line(Line(k, l, 0.0, a, b), Line(k, l, 0.0, c, d), Line(k, l, t, e, f), x, y) == Line(k, l, t, Line(a, c, e, x, y), Line(b, d, f, x, y))
  {
  }

  // The product applies its first factor first.
  lemma {:induction false} MulComposes(m: Matrix, n: Matrix, p: Point)
    ensures Apply(Mul(m, n), p) == Apply(n, Apply(m, p))
  {
    MulByLines(m, n);
    ApplyByLines(Mul(m, n), p);
    ApplyByLines(m, p);
    ApplyByLines(n, Apply(m, p));
    Composed(m.a, m.b, m.c, m.d, m.e, m.f, n.a, n.c, n.e, p.x, p.y);
    Composed(m.a, m.b, m.c, m.d, m.e, m.f, n.b, n.d, n.f, p.x, p.y);
  }

  lemma {:induction false} LineAt(a: real, c: real, e: real, x: real, y: real)
    ensures Line(a, c, e, 0.0, 0.0) == e && Line(a, c, e, 1.0, 0.0) == a + e && Line(a, c, e, 0.0, 1.0) == c + e
    ensures Line(1.0, 0.0, e, x, y) == x + e && Line(0.0, 1.0, e, x, y) == y + e
  {
  }

  // A matrix puts the origin at (e, f), and the unit points a step (a, b) and (c, d) off it.
  lemma {:induction false} MatrixImages(m: Matrix)
    ensures Apply(m, ORIGIN) == Point(m.e, m.f)
    ensures Apply(m, Point(1.0, 0.0)) == Point(m.a + m.e, m.b + m.f)
    ensures Apply(m, Point(0.0, 1.0)) == Point(m.c + m.e, m.d + m.f)
  {
    ApplyByLines(m, ORIGIN);
    ApplyByLines(m, Point(1.0, 0.0));
    ApplyByLines(m, Point(0.0, 1.0));
    LineAt(m.a, m.c, m.e, 0.0, 0.0);
    LineAt(m.b, m.d, m.f, 0.0, 0.0);
  }

  lemma {:induction false} TranslationShifts(tx: real, ty: real, p: Point)
    ensures Apply(Translation(tx, ty), p) == Point(p.x + tx, p.y + ty) && Apply(IDENTITY, p) == p
  {
    ApplyByLines(Translation(tx, ty), p);
    ApplyByLines(IDENTITY, p);
    LineAt(0.0, 0.0, tx, p.x, p.y);
    LineAt(0.0, 0.0, ty, p.x, p.y);
    LineAt(0.0, 0.0, 0.0, p.x, p.y);
  }

  // -------------------------------------------------------------------- brackets

  // How many states are saved and not yet restored.
  function Opened(ops: seq<Operation>): int {
    if ops == [] then 0
    else Opened(ops[..|ops| - 1]) + if ops[|ops| - 1].op == "q" then 1 else if ops[|ops| - 1].op == "Q" then -1 else 0
  }

  // Never restores more than was saved since it began.
  ghost predicate Contained(ops: seq<Operation>) { forall k :: 0 <= k <= |ops| ==> Opened(ops[..k]) >= 0 }

  lemma {:induction false} StackOps(o: Operation)
    ensures KindOf(o) == Save <==> o.op == "q"
    ensures KindOf(o) == Restore <==> o.op == "Q"
  {
  }

  lemma {:induction false} OtherStepsKeepStack(env: Env, w: Walk, o: Operation)
    requires KindOf(o) != Save && KindOf(o) != Restore
    ensures Step(env, w, o).stack == w.stack
  {
    match KindOf(o)
    case Text => assert ShowText(env, w, o).stack == w.stack;
    case Build => assert BuildPath(w, o).stack == w.stack;
    case Paint => assert PaintPath(w, o.op).stack == w.stack;
    case Image => assert DrawImage(w, o).stack == w.stack;
    case _ =>
  }

  // What was on the stack stays there, and what was saved since lies on top of it.
  lemma {:induction false} StackBeneath(env: Env, w: Walk, ops: seq<Operation>) returns (above: seq<GState>)
    requires Contained(ops)
    ensures Run(env, w, ops).stack == w.stack + above && |above| == Opened(ops)
  {
    if ops == [] {
      above := [];
    } else {
      var init, o := ops[..|ops| - 1], ops[|ops| - 1];
      ContainedInit(ops);
      above := StackBeneath(env, w, init);
      above := StepAbove(env, w, Run(env, w, init), o, above, Opened(init));
    }
  }

  lemma {:induction false} ContainedInit(ops: seq<Operation>)
    requires Contained(ops) && ops != []
    ensures Contained(ops[..|ops| - 1]) && Opened(ops) >= 0
  {
    var init := ops[..|ops| - 1];
    assert ops[..|ops|] == ops;
    forall k | 0 <= k <= |init| ensures Opened(init[..k]) >= 0 {
      assert init[..k] == ops[..k];
    }
  }

  lemma {:induction false} StepAbove(env: Env, w: Walk, now: Walk, o: Operation, above: seq<GState>, depth: int) returns (more: seq<GState>)
    requires now.stack == w.stack + above && |above| == depth && (o.op == "Q" ==> depth > 0)
    ensures Step(env, now, o).stack == w.stack + more
    ensures |more| == depth + if o.op == "q" then 1 else if o.op == "Q" then -1 else 0
  {
    StackOps(o);
    if o.op == "q" {
      more := above + [now.gs];
    } else if o.op == "Q" {
      more := above[..|above| - 1];
      assert now.stack[..|now.stack| - 1] == w.stack + more;
    } else {
      more := above;
      OtherStepsKeepStack(env, now, o);
    }
  }

  lemma {:induction false} RunAppended(env: Env, w: Walk, a: seq<Operation>, b: seq<Operation>)
    ensures Run(env, w, a + b) == Run(env, Run(env, w, a), b)
  {
    if b == [] {
      assert a + b == a;
    } else {
      assert (a + b)[..|a + b| - 1] == a + b[..|b| - 1];
      RunAppended(env, w, a, b[..|b| - 1]);
    }
  }

  lemma {:induction false} RunOne(env: Env, w: Walk, o: Operation)
    ensures Run(env, w, [o]) == Step(env, w, o)
  {
    assert [o][..0] == [];
  }

  // Between a q and its Q anything may happen to the graphics state: afterwards it is what
  // it was, and so is all that was saved before.
  lemma {:induction false} BracketRestores(env: Env, w: Walk, save: Operation, ops: seq<Operation>, restore: Operation)
    requires save.op == "q" && restore.op == "Q" && Contained(ops) && Opened(ops) == 0
    ensures var after := Run(env, w, [save] + ops + [restore]); after.gs == w.gs && after.stack == w.stack
  {
    StackOps(save);
    StackOps(restore);
    RunAppended(env, w, [save] + ops, [restore]);
    RunAppended(env, w, [save], ops);
    RunOne(env, w, save);
    RunOne(env, Run(env, w, [save] + ops), restore);
    var inner := Step(env, w, save);
    var above := StackBeneath(env, inner, ops);
    assert inner.stack + [] == inner.stack == w.stack + [w.gs];
    assert (w.stack + [w.gs])[..|w.stack|] == w.stack;
  }

  // A Q with nothing saved goes back to the state of a fresh page.
  lemma {:induction false} StrayRestore(env: Env, w: Walk, o: Operation)
    requires o.op == "Q" && w.stack == []
    ensures Step(env, w, o) == w.(gs := Step(env, w, o).gs)
    ensures var gs := Step(env, w, o).gs;
            gs.ctm == gs.tm == gs.tlm == IDENTITY && gs.lineWidth == 1.0 && gs.fill == gs.stroke == [] && gs.font == "" && gs.size == gs.leading == 0.0
  {
    StackOps(o);
  }

  // ----------------------------------------------------------------------- state

  // The number an operand stands for; what is no number counts as nothing.
  function Value(o: Operation, k: nat): real
    requires k < |o.operands|
  {
    if o.operands[k].number.Some? then o.operands[k].number.value else 0.0
  }

  ghost predicate IsMatrix(m: Matrix, o: Operation)
    requires |o.operands| >= 6
  {
    m == Matrix(Value(o, 0), Value(o, 1), Value(o, 2), Value(o, 3), Value(o, 4), Value(o, 5))
  }

  lemma {:induction false} OperandMatrix(o: Operation)
    requires |o.operands| >= 6
    ensures IsMatrix(MatrixOf(o.operands), o)
  {
  }

  // Nothing but the matrix, which now takes a point through the operand's matrix first.
  lemma {:induction false} CmMeans(env: Env, gs: GState, o: Operation, p: Point)
    requires o.op == "cm" && |o.operands| >= 6
    ensures SetsState(o) && var gs' := SetState(env, gs, o);
            gs' == gs.(ctm := gs'.ctm)
            && exists m :: IsMatrix(m, o) && Apply(gs'.ctm, p) == Apply(gs.ctm, Apply(m, p))
  {
    OperandMatrix(o);
    MulComposes(MatrixOf(o.operands), gs.ctm, p);
  }

  lemma {:induction false} WidthMeans(env: Env, gs: GState, o: Operation)
    requires o.op == "w" && |o.operands| >= 1
    ensures SetsState(o) && var gs' := SetState(env, gs, o);
            gs' == gs.(lineWidth := if o.operands[0].number.Some? then o.operands[0].number.value else 1.0)
  {
  }

  // A colour's components in thousandths.
  ghost predicate IsColour(c: Colour, o: Operation) {
    |c| == |o.operands| && forall k: nat :: k < |c| ==> -0.5 <= c[k] as real - 1000.0 * Value(o, k) <= 0.5
  }

  lemma {:induction false} OperandColour(o: Operation)
    ensures IsColour(ColourOf(o.operands), o)
  {
    var c := ColourOf(o.operands);
    forall k: nat | k < |c| ensures -0.5 <= c[k] as real - 1000.0 * Value(o, k) <= 0.5 {
      RoundError(Value(o, k) * 1000.0);
    }
  }

  // The small letters set the colour of fills and of text, the capitals that of strokes.
  lemma {:induction false} FillMeans(env: Env, gs: GState, o: Operation)
    requires o.op == "g" || o.op == "rg" || o.op == "k"
    ensures SetsState(o) && var gs' := SetState(env, gs, o); gs' == gs.(fill := gs'.fill) && IsColour(gs'.fill, o)
  {
    OperandColour(o);
  }

  lemma {:induction false} StrokeMeans(env: Env, gs: GState, o: Operation)
    requires o.op == "G" || o.op == "RG" || o.op == "K"
    ensures SetsState(o) && var gs' := SetState(env, gs, o); gs' == gs.(stroke := gs'.stroke) && IsColour(gs'.stroke, o)
  {
    OperandColour(o);
  }

  // Text starts over at the origin of user space.
  lemma {:induction false} BeginTextMeans(env: Env, gs: GState, o: Operation, p: Point)
    requires o.op == "BT"
    ensures SetsState(o) && var gs' := SetState(env, gs, o);
            gs' == gs.(tm := gs'.tm, tlm := gs'.tlm) && Apply(gs'.tm, p) == p && Apply(gs'.tlm, p) == p
  {
    TranslationShifts(0.0, 0.0, p);
  }

  lemma {:induction false} TextMatrixMeans(env: Env, gs: GState, o: Operation)
    requires o.op == "Tm" && |o.operands| >= 6
    ensures SetsState(o) && var gs' := SetState(env, gs, o);
            gs' == gs.(tm := gs'.tm, tlm := gs'.tm) && IsMatrix(gs'.tm, o)
  {
    OperandMatrix(o);
  }

  lemma {:induction false} LeadingMeans(env: Env, gs: GState, o: Operation)
    requires o.op == "TL" && |o.operands| >= 1
    ensures SetsState(o) && SetState(env, gs, o) == gs.(leading := Value(o, 0))
  {
  }

  // The next line starts at an offset from where the last one did.
  ghost predicate NextLine(gs: GState, gs': GState, tx: real, ty: real, p: Point) {
    gs'.tm == gs'.tlm && Apply(gs'.tm, p) == Apply(gs.tlm, Point(p.x + tx, p.y + ty))
  }

  lemma {:induction false} MoveTextMeans(gs: GState, tx: real, ty: real, p: Point)
    ensures var gs' := MoveText(gs, tx, ty); gs' == gs.(tm := gs'.tm, tlm := gs'.tlm) && NextLine(gs, gs', tx, ty, p)
  {
    MulComposes(Translation(tx, ty), gs.tlm, p);
    TranslationShifts(tx, ty, p);
  }

  lemma {:induction false} OffsetMeans(env: Env, gs: GState, o: Operation, p: Point)
    requires (o.op == "Td" || o.op == "TD") && |o.operands| >= 2
    ensures SetsState(o) && var gs' := SetState(env, gs, o);
            gs' == gs.(tm := gs'.tm, tlm := gs'.tlm, leading := if o.op == "TD" then -Value(o, 1) else gs.leading)
            && NextLine(gs, gs', Value(o, 0), Value(o, 1), p)
  {
    MoveTextMeans(if o.op == "TD" then gs.(leading := -Value(o, 1)) else gs, Value(o, 0), Value(o, 1), p);
  }

  lemma {:induction false} NextLineMeans(env: Env, gs: GState, o: Operation, p: Point)
    requires o.op == "T*"
    ensures SetsState(o) && var gs' := SetState(env, gs, o);
            gs' == gs.(tm := gs'.tm, tlm := gs'.tlm) && NextLine(gs, gs', 0.0, -gs.leading, p)
  {
    MoveTextMeans(gs, 0.0, -gs.leading, p);
  }

  // The face behind the font resource, without the slash, and the size.
  lemma {:induction false} FontMeans(env: Env, gs: GState, o: Operation)
    requires o.op == "Tf" && |o.operands| >= 2
    ensures SetsState(o) && var gs' := SetState(env, gs, o);
            gs' == gs.(font := gs'.font, size := Value(o, 1))
            && exists n: nat :: n <= |o.operands[0].text| && (forall k :: 0 <= k < n ==> o.operands[0].text[k] == '/')
                 && (n < |o.operands[0].text| ==> o.operands[0].text[n] != '/')
                 && gs'.font == if o.operands[0].text[n..] in env.baseFonts then env.baseFonts[o.operands[0].text[n..]] else o.operands[0].text[n..]
  {
    var n := SlashesDropped(o.operands[0].text);
  }

  lemma {:induction false} SlashesDropped(s: string) returns (n: nat)
    ensures n <= |s| && (forall k :: 0 <= k < n ==> s[k] == '/') && (n < |s| ==> s[n] != '/') && WithoutSlashes(s) == s[n..]
  {
    if s != "" && s[0] == '/' {
      n := SlashesDropped(s[1..]);
      n := n + 1;
    } else {
      n := 0;
    }
  }

  // These are carried out as changes of state, whatever else the walk holds.
  lemma {:induction false} StateStepMeans(env: Env, w: Walk, o: Operation)
    requires SetsState(o) && o.op != "q" && o.op != "Q"
    ensures Step(env, w, o) == w.(gs := SetState(env, w.gs, o))
  {
  }

  // --------------------------------------------------------------------- objects

  function HalfUnits(k: int): real { k as real / 2.0 }

  // On the half-unit grid, as near as it gets.
  ghost predicate Snapped(p: Point, q: Point) {
    && -0.25 <= p.x - q.x <= 0.25 && -0.25 <= p.y - q.y <= 0.25
    && (exists k: int :: p.x == HalfUnits(k)) && (exists k: int :: p.y == HalfUnits(k))
  }

  lemma {:induction false} SnapHalf(v: real)
    ensures -0.25 <= Snap(v, 0.5) - v <= 0.25 && exists k: int :: Snap(v, 0.5) == HalfUnits(k)
  {
    RoundError(v / 0.5);
    var k := RoundHalfEven(v / 0.5);
    assert Snap(v, 0.5) == HalfUnits(k);
  }

  lemma {:induction false} SnapPointMeans(p: Point)
    ensures Snapped(SnapPoint(p), p)
  {
    SnapHalf(p.x);
    SnapHalf(p.y);
  }

  lemma {:induction false} SnapTenth(v: real)
    ensures -0.05 <= Snap(v, 0.1) - v <= 0.05
  {
    RoundError(v / 0.1);
  }

  // A path painted: what the walk has gathered since the last, in the style of the moment.
  ghost predicate PaintedPath(x: PageObject, gs: GState, current: seq<Point>, ops: seq<string>, paint: string) {
    && current != [] && x.ops == ops + [paint] && Snapped(x.pos, current[0])
    && |x.points| == |current| && (forall k :: 0 <= k < |current| ==> Snapped(x.points[k], current[k]))
    && x.style.PathStyle? && x.style.paint == paint && x.style.fill == gs.fill && x.style.stroke == gs.stroke
    && -0.05 <= x.style.width - gs.lineWidth <= 0.05
    && x.signature.PathSignature? && x.signature.ops == x.ops && |x.signature.relative| == |current|
    && forall k :: 0 <= k < |current| ==>
         Snapped(x.signature.relative[k], Point(current[k].x - current[0].x, current[k].y - current[0].y))
  }

  lemma {:induction false} PathObjectMeans(gs: GState, current: seq<Point>, ops: seq<string>, paint: string, index: nat)
    requires current != []
    ensures PaintedPath(PathObject(gs, current, ops, paint, index), gs, current, ops, paint)
    ensures PathObject(gs, current, ops, paint, index).index == index
  {
    var x := PathObject(gs, current, ops, paint, index);
    forall k | 0 <= k < |current|
      ensures Snapped(x.points[k], current[k])
      ensures Snapped(x.signature.relative[k], Point(current[k].x - current[0].x, current[k].y - current[0].y))
    {
      SnapPointMeans(current[k]);
      SnapPointMeans(Point(current[k].x - current[0].x, current[k].y - current[0].y));
    }
    SnapPointMeans(current[0]);
    SnapTenth(gs.lineWidth);
  }

  lemma {:induction false} PaintMeans(env: Env, w: Walk, o: Operation)
    requires KindOf(o) == Paint
    ensures var w' := Step(env, w, o);
            && w' == w.(objects := w'.objects, current := [], currentOps := [])
            && if w.current == [] then w'.objects == w.objects
               else |w'.objects| == |w.objects| + 1 && w'.objects[..|w.objects|] == w.objects
                    && PaintedPath(w'.objects[|w.objects|], w.gs, w.current, w.currentOps, o.op) && w'.objects[|w.objects|].index == |w.objects|
  {
    if w.current != [] {
      PathObjectMeans(w.gs, w.current, w.currentOps, o.op, |w.objects|);
    }
  }

  // Equal keys mean the same operators over points that lie alike about the first, to
  // within half a unit.
  lemma {:induction false} EqualPathKeys(x: PageObject, y: PageObject, gs: GState, gs': GState, a: seq<Point>, b: seq<Point>, ops: seq<string>, ops': seq<string>, paint: string, paint': string)
    requires PaintedPath(x, gs, a, ops, paint) && PaintedPath(y, gs', b, ops', paint') && x.signature == y.signature
    ensures x.ops == y.ops && |a| == |b|
    ensures forall k :: 0 <= k < |a| ==>
              && -0.5 <= (a[k].x - a[0].x) - (b[k].x - b[0].x) <= 0.5
              && -0.5 <= (a[k].y - a[0].y) - (b[k].y - b[0].y) <= 0.5
  {
    forall k | 0 <= k < |a|
      ensures -0.5 <= (a[k].x - a[0].x) - (b[k].x - b[0].x) <= 0.5 && -0.5 <= (a[k].y - a[0].y) - (b[k].y - b[0].y) <= 0.5
    {
      assert Snapped(x.signature.relative[k], Point(a[k].x - a[0].x, a[k].y - a[0].y));
      assert Snapped(y.signature.relative[k], Point(b[k].x - b[0].x, b[k].y - b[0].y));
    }
  }

  // Which operators paint, show text, build a path or draw an image.
  lemma {:induction false} PaintingOps(o: Operation)
    ensures KindOf(o) == Paint <==> Paints(o.op)
  {
  }

  lemma {:induction false} PaintingNames(op: string)
    ensures Paints(op)
            <==> op == "S" || op == "s" || op == "f" || op == "F" || op == "f*" || op == "B" || op == "B*" || op == "b" || op == "b*" || op == "n"
  {
  }

  lemma {:induction false} ShowingOps(o: Operation)
    ensures KindOf(o) == Text <==> o.op == "Tj" || o.op == "TJ" || o.op == "'" || o.op == "\""
  {
  }

  lemma {:induction false} BuildingOps(o: Operation)
    ensures KindOf(o) == Build
            <==> (o.op == "re" && |o.operands| >= 4) || ((o.op == "m" || o.op == "l") && |o.operands| >= 2)
                 || o.op == "c" || o.op == "v" || o.op == "y" || o.op == "h"
  {
  }

  lemma {:induction false} ImageOps(o: Operation)
    ensures KindOf(o) == Image <==> o.op == "Do" || o.op == "BI" || o.op == "INLINE IMAGE"
  {
  }

  // Construction adds the operands' points, taken through the matrix of the moment.
  lemma {:induction false} BuildMeans(env: Env, w: Walk, o: Operation)
    requires KindOf(o) == Build
    ensures var w' := Step(env, w, o);
            && w' == w.(current := w'.current, currentOps := w.currentOps + [o.op])
            && |w'.current| == |w.current| + |PathPoints(o)| && w'.current[..|w.current|] == w.current
            && forall k :: 0 <= k < |PathPoints(o)| ==> w'.current[|w.current| + k] == Apply(w.gs.ctm, PathPoints(o)[k])
  {
  }

  lemma {:induction false} PointsMean(o: Operation)
    requires BuildsPath(o)
    ensures o.op == "m" || o.op == "l" ==> |o.operands| >= 2 && PathPoints(o) == [Point(Value(o, 0), Value(o, 1))]
    ensures o.op == "h" ==> PathPoints(o) == []
    ensures o.op == "c" || o.op == "v" || o.op == "y" ==>
              |PathPoints(o)| == |o.operands| / 2
              && forall k :: 0 <= k < |PathPoints(o)| ==> PathPoints(o)[k] == Point(Value(o, 2 * k), Value(o, 2 * k + 1))
  {
  }

  // A rectangle by its corner and its sides, counter-clockwise from the corner.
  lemma {:induction false} RectangleMeans(o: Operation)
    requires o.op == "re" && |o.operands| >= 4
    ensures BuildsPath(o)
    ensures var (x, y, w, h) := (Value(o, 0), Value(o, 1), Value(o, 2), Value(o, 3));
            PathPoints(o) == [Point(x, y), Point(x + w, y), Point(x + w, y + h), Point(x, y + h)]
  {
  }

  // A text run: the string in its face and size, where text space's origin is on the page.
  ghost predicate ShownText(env: Env, x: PageObject, gs: GState, text: string, op: string) {
    && Snapped(x.pos, Apply(gs.ctm, Apply(gs.tm, ORIGIN))) && x.points == [] && x.ops == [op]
    && x.signature.TextSignature? && x.signature.text == text && x.signature.face == FontFace(gs.font)
    && x.style.TextStyle? && x.style.fill == gs.fill && x.style.size == x.signature.size
    && var length := env.hypot(gs.tm.a, gs.tm.b);
       -0.25 <= x.signature.size - (if length == 0.0 then gs.size else gs.size * length) <= 0.25
  }

  lemma {:induction false} TextObjectMeans(env: Env, gs: GState, text: string, op: string, index: nat)
    ensures ShownText(env, TextObject(env, gs, text, op, index), gs, text, op) && TextObject(env, gs, text, op, index).index == index
  {
    TextIsPlaced(gs);
    TextIsSized(env, gs);
  }

  lemma {:induction false} TextIsPlaced(gs: GState)
    ensures Snapped(SnapPoint(Apply(Mul(gs.tm, gs.ctm), ORIGIN)), Apply(gs.ctm, Apply(gs.tm, ORIGIN)))
  {
    MulComposes(gs.tm, gs.ctm, ORIGIN);
    SnapPointMeans(Apply(Mul(gs.tm, gs.ctm), ORIGIN));
  }

  lemma {:induction false} TextIsSized(env: Env, gs: GState)
    ensures var length := env.hypot(gs.tm.a, gs.tm.b);
            -0.25 <= Snap(ShownSize(env, gs.size, gs.tm), 0.5) - (if length == 0.0 then gs.size else gs.size * length) <= 0.25
  {
    SnapHalf(ShownSize(env, gs.size, gs.tm));
  }

  lemma {:induction false} ShowTextMeans(env: Env, w: Walk, o: Operation, p: Point)
    ensures var w' := ShowText(env, w, o);
            && w' == w.(objects := w'.objects, gs := w'.gs)
            && (if o.shown == "" then w'.objects == w.objects
                else |w'.objects| == |w.objects| + 1 && w'.objects[..|w.objects|] == w.objects
                     && ShownText(env, w'.objects[|w.objects|], w.gs, o.shown, o.op) && w'.objects[|w.objects|].index == |w.objects|)
            && (if o.op == "'" || o.op == "\"" then
                  w'.gs == w.gs.(tm := w'.gs.tm, tlm := w'.gs.tlm) && NextLine(w.gs, w'.gs, 0.0, -w.gs.leading, p)
                else w'.gs == w.gs)
  {
    TextObjectMeans(env, w.gs, o.shown, o.op, |w.objects|);
    MoveTextMeans(w.gs, 0.0, -w.gs.leading, p);
    QuotesStartLines(o.op);
  }

  lemma {:induction false} TextMeans(env: Env, w: Walk, o: Operation, p: Point)
    requires KindOf(o) == Text
    ensures var w' := Step(env, w, o);
            && w' == w.(objects := w'.objects, gs := w'.gs)
            && (if o.shown == "" then w'.objects == w.objects
                else |w'.objects| == |w.objects| + 1 && w'.objects[..|w.objects|] == w.objects
                     && ShownText(env, w'.objects[|w.objects|], w.gs, o.shown, o.op) && w'.objects[|w.objects|].index == |w.objects|)
            && (if o.op == "'" || o.op == "\"" then
                  w'.gs == w.gs.(tm := w'.gs.tm, tlm := w'.gs.tlm) && NextLine(w.gs, w'.gs, 0.0, -w.gs.leading, p)
                else w'.gs == w.gs)
  {
    ShowTextMeans(env, w, o, p);
    assert Step(env, w, o) == ShowText(env, w, o);
  }

  lemma {:induction false} QuotesStartLines(op: string)
    ensures StartsNextLine(op) <==> op == "'" || op == "\""
  {
  }

  // The tag of a subset font says nothing about the face.
  lemma {:induction false} FaceMeans(tag: string, face: string)
    requires |tag| == 6 && forall k :: 0 <= k < 6 ==> 'A' <= tag[k] <= 'Z'
    ensures FontFace(tag + "+" + face) == face
  {
    var font := tag + "+" + face;
    assert font[7..] == face;
  }

  lemma {:induction false} UntaggedFace(font: string)
    requires forall tag: string, face: string :: font == tag + "+" + face && |tag| == 6 ==> exists k :: 0 <= k < 6 && !('A' <= tag[k] <= 'Z')
    ensures FontFace(font) == font
  {
    if |font| >= 7 && font[6] == '+' {
      var tag, face := font[..6], font[7..];
      assert font == tag + "+" + face;
      var k :| 0 <= k < 6 && !('A' <= tag[k] <= 'Z');
      assert !('A' <= font[k] <= 'Z');
    }
  }

  // An image leaves a marker at the origin and a note that the page has raster content.
  lemma {:induction false} ImageMeans(env: Env, w: Walk, o: Operation)
    requires KindOf(o) == Image
    ensures var w' := Step(env, w, o);
            && w' == w.(objects := w'.objects, hasRaster := true)
            && |w'.objects| == |w.objects| + 1 && w'.objects[..|w.objects|] == w.objects
            && var x := w'.objects[|w.objects|];
               && x.pos == ORIGIN && x.points == [] && x.index == |w.objects|
               && (if o.op == "Do" then
                     var name := if o.operands == [] then "" else o.operands[0].text;
                     x.signature == XObjectSignature(name) && x.style == XObjectStyle(name) && x.ops == ["Do"]
                   else x.signature == ImageSignature(o.image.1, o.image.2, o.image.0) && x.style == InlineStyle(o.image.1, o.image.2) && x.ops == ["BI"])
  {
  }

  // An operation that is no operator at all, or a move, a line or a rectangle short of
  // operands.
  predicate Strange(o: Operation) {
    || !Familiar(o.op)
    || ((o.op == "m" || o.op == "l") && |o.operands| < 2)
    || (o.op == "re" && |o.operands| < 4)
  }

  predicate Familiar(op: string) {
    || op in ["m", "l", "re", "c", "v", "y", "h", "Tj", "TJ", "'", "\""]
    || op in ["S", "s", "f", "F", "f*", "B", "B*", "b", "b*", "n", "sh"]
    || op in ["q", "Q", "cm", "w", "J", "j", "M", "d", "ri", "i", "gs", "W", "W*"]
    || op in ["g", "G", "rg", "RG", "k", "K", "cs", "CS", "sc", "SC", "scn", "SCN"]
    || op in ["BT", "ET", "Tf", "Td", "TD", "Tm", "T*", "TL", "Tc", "Tw", "Tz", "Ts", "Tr"]
    || op in ["BI", "ID", "EI", "INLINE IMAGE", "Do", "BMC", "BDC", "EMC", "MP", "DP"]
  }

  lemma {:induction false} FamiliarNames(op: string)
    ensures Familiar(op) <==> Benign(op) || ShowsText(op) || Paints(op) || Curves(op) || op == "m" || op == "l" || op == "re" || op == "h"
  {
  }

  lemma {:induction false} SettersAreBenign(o: Operation)
    ensures SetsState(o) || o.op == "q" || o.op == "Q" || DrawsImage(o.op) ==> Benign(o.op)
  {
  }

  lemma {:induction false} PointNames(op: string)
    requires op == "m" || op == "l" || op == "re"
    ensures !Benign(op) && !ShowsText(op) && !Paints(op) && !Curves(op) && op != "h"
    ensures op == "re" <==> |op| == 2
  {
  }

  lemma {:induction false} UnknownIsElsewhere(o: Operation)
    ensures KindOf(o) == Unknown <==> !Benign(o.op) && !ShowsText(o.op) && !Paints(o.op) && !BuildsPath(o)
  {
    SettersAreBenign(o);
  }

  lemma {:induction false} StrangeIsUnknown(o: Operation)
    ensures KindOf(o) == Unknown <==> Strange(o)
  {
    UnknownIsElsewhere(o);
    FamiliarNames(o.op);
    if o.op == "m" || o.op == "l" || o.op == "re" {
      PointNames(o.op);
    }
  }

  // The names of some operations, in the order of the stream.
  function Names(ops: seq<Operation>, some: Operation -> bool): seq<string> {
    if ops == [] then [] else Names(ops[..|ops| - 1], some) + if some(ops[|ops| - 1]) then [ops[|ops| - 1].op] else []
  }

  lemma {:induction false} StepNotes(env: Env, w: Walk, o: Operation)
    ensures Step(env, w, o).unknownOps == w.unknownOps + if KindOf(o) == Unknown then [o.op] else []
    ensures Step(env, w, o).hasRaster <==> w.hasRaster || KindOf(o) == Image
  {
  }

  lemma {:induction false} NotedSoFar(env: Env, ops: seq<Operation>, odd: Operation -> bool, pictured: Operation -> bool)
    requires forall o :: (odd(o) <==> KindOf(o) == Unknown) && (pictured(o) <==> KindOf(o) == Image)
    ensures Run(env, START, ops).unknownOps == Names(ops, odd)
    ensures Run(env, START, ops).hasRaster <==> Names(ops, pictured) != []
  {
    if ops != [] {
      var n := |ops| - 1;
      NotedSoFar(env, ops[..n], odd, pictured);
      StepNotes(env, Run(env, START, ops[..n]), ops[n]);
    }
  }

  predicate Pictured(o: Operation) { o.op == "Do" || o.op == "BI" || o.op == "INLINE IMAGE" }

  lemma {:induction false} NamesOf(ops: seq<Operation>, some: Operation -> bool)
    ensures Names(ops, some) != [] <==> exists k :: 0 <= k < |ops| && some(ops[k])
  {
    if ops != [] {
      var n := |ops| - 1;
      NamesOf(ops[..n], some);
      assert forall k :: 0 <= k < n ==> ops[..n][k] == ops[k];
    }
  }

  // What a page reports as not understood is each strange operation, in order, and only
  // those; and it has raster content exactly when something on it draws an image.
  lemma {:induction false} PageNotes(env: Env, ops: seq<Operation>)
    ensures Parsed(env, ops).unknownOps == Names(ops, Strange)
    ensures Parsed(env, ops).hasRaster <==> exists k :: 0 <= k < |ops| && Pictured(ops[k])
  {
    forall o ensures (Strange(o) <==> KindOf(o) == Unknown) && (Pictured(o) <==> KindOf(o) == Image) {
      StrangeIsUnknown(o);
      ImageOps(o);
    }
    NotedSoFar(env, ops, Strange, Pictured);
    NamesOf(ops, Pictured);
  }
}
