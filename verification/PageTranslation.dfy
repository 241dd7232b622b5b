/** A page shifted as a whole: putting `1 0 0 1 tx ty cm` before a content stream moves
    every object by (tx, ty) and changes nothing else about it. */
module PageTranslation {
  import opened PageObjects
  import opened Rounding
  import opened PdfParse
  import PdfMatch
  import PageShift

  // The matrix followed by a translation.
  function Nudge(m: Matrix, tx: int, ty: int): Matrix {
    m.(e := m.e + tx as real, f := m.f + ty as real)
  }

  function NudgePoint(p: Point, tx: int, ty: int): Point {
    Point(p.x + tx as real, p.y + ty as real)
  }

  function NudgePoints(p: seq<Point>, tx: int, ty: int): (r: seq<Point>)
    ensures |r| == |p| && forall k :: 0 <= k < |p| ==> r[k] == NudgePoint(p[k], tx, ty)
  {
    seq(|p|, k requires 0 <= k < |p| => NudgePoint(p[k], tx, ty))
  }

  lemma {:induction false} NudgeIsTranslation(m: Matrix, tx: int, ty: int)
    ensures Mul(m, Translation(tx as real, ty as real)) == Nudge(m, tx, ty)
    ensures Mul(Translation(tx as real, ty as real), IDENTITY) == Nudge(IDENTITY, tx, ty)
  {
  }

  lemma {:induction false} MulNudge(m: Matrix, n: Matrix, tx: int, ty: int)
    ensures Mul(m, Nudge(n, tx, ty)) == Nudge(Mul(m, n), tx, ty)
  {
    var x, y := m.e * n.a + m.f * n.c, m.e * n.b + m.f * n.d;
    assert Mul(m, n).e == x + n.e && Mul(m, n).f == y + n.f;
    assert Mul(m, Nudge(n, tx, ty)).e == x + (n.e + tx as real);
    assert Mul(m, Nudge(n, tx, ty)).f == y + (n.f + ty as real);
  }

  lemma {:induction false} ApplyNudge(m: Matrix, p: Point, tx: int, ty: int)
    ensures Apply(Nudge(m, tx, ty), p) == NudgePoint(Apply(m, p), tx, ty)
  {
  }

  lemma {:induction false} SnapNudge(p: Point, tx: int, ty: int)
    ensures SnapPoint(NudgePoint(p, tx, ty)) == NudgePoint(SnapPoint(p), tx, ty)
  {
    SnapHalfShift(p.x, tx);
    SnapHalfShift(p.y, ty);
  }

  // ------------------------------------------------- the two walks side by side

  ghost predicate Beside(gs: GState, gs': GState, tx: int, ty: int) {
    gs' == gs.(ctm := Nudge(gs.ctm, tx, ty))
  }

  predicate IsImage(o: PageObject) { o.style.InlineStyle? || o.style.XObjectStyle? }

  // An image sits at the origin whatever the matrix; anything else moves.
  ghost predicate ObjectBeside(o: PageObject, o': PageObject, tx: int, ty: int) {
    if IsImage(o) then o' == o
    else o' == o.(pos := NudgePoint(o.pos, tx, ty), points := NudgePoints(o.points, tx, ty))
  }

  ghost predicate ObjectsBeside(a: seq<PageObject>, b: seq<PageObject>, tx: int, ty: int) {
    |a| == |b| && forall k :: 0 <= k < |a| ==> ObjectBeside(a[k], b[k], tx, ty)
  }

  ghost predicate StacksBeside(a: seq<GState>, b: seq<GState>, tx: int, ty: int) {
    |a| == |b| && forall k :: 0 <= k < |a| ==> Beside(a[k], b[k], tx, ty)
  }

  ghost predicate WalksBeside(w: Walk, w': Walk, tx: int, ty: int) {
    && Beside(w.gs, w'.gs, tx, ty)
    && StacksBeside(w.stack, w'.stack, tx, ty)
    && w'.current == NudgePoints(w.current, tx, ty)
    && w'.currentOps == w.currentOps
    && ObjectsBeside(w.objects, w'.objects, tx, ty)
    && w'.unknownOps == w.unknownOps
    && w'.hasRaster == w.hasRaster
  }

  lemma {:induction false} StateBeside(env: Env, gs: GState, gs': GState, o: Operation, tx: int, ty: int)
    requires Beside(gs, gs', tx, ty) && SetsState(o)
    ensures Beside(SetState(env, gs, o), SetState(env, gs', o), tx, ty)
  {
    if o.op == "cm" {
      MulNudge(MatrixOf(o.operands), gs.ctm, tx, ty);
    }
  }

  lemma {:induction false} TextBeside(env: Env, gs: GState, gs': GState, s: string, op: string, index: nat, tx: int, ty: int)
    requires Beside(gs, gs', tx, ty)
    ensures ObjectBeside(TextObject(env, gs, s, op, index), TextObject(env, gs', s, op, index), tx, ty)
  {
    MulNudge(gs.tm, gs.ctm, tx, ty);
    ApplyNudge(Mul(gs.tm, gs.ctm), ORIGIN, tx, ty);
    SnapNudge(Apply(Mul(gs.tm, gs.ctm), ORIGIN), tx, ty);
    assert NudgePoints([], tx, ty) == [];
  }

  lemma {:induction false} PathBeside(gs: GState, gs': GState, current: seq<Point>, ops: seq<string>, op: string, index: nat, tx: int, ty: int)
    requires Beside(gs, gs', tx, ty) && current != []
    ensures ObjectBeside(PathObject(gs, current, ops, op, index), PathObject(gs', NudgePoints(current, tx, ty), ops, op, index), tx, ty)
  {
    var moved := NudgePoints(current, tx, ty);
    forall k | 0 <= k < |current|
      ensures Point(moved[k].x - moved[0].x, moved[k].y - moved[0].y) == Point(current[k].x - current[0].x, current[k].y - current[0].y)
      ensures SnapPoint(moved[k]) == NudgePoint(SnapPoint(current[k]), tx, ty)
    {
      SnapNudge(current[k], tx, ty);
    }
    assert Relative(moved) == Relative(current);
    assert SnapPoints(moved) == NudgePoints(SnapPoints(current), tx, ty);
  }

  lemma {:induction false} PointsBeside(m: Matrix, p: seq<Point>, tx: int, ty: int)
    ensures MapPoints(Nudge(m, tx, ty), p) == NudgePoints(MapPoints(m, p), tx, ty)
  {
    forall k | 0 <= k < |p| ensures Apply(Nudge(m, tx, ty), p[k]) == NudgePoint(Apply(m, p[k]), tx, ty) {
      ApplyNudge(m, p[k], tx, ty);
    }
  }

  lemma {:induction false} NudgeConcat(a: seq<Point>, b: seq<Point>, tx: int, ty: int)
    ensures NudgePoints(a + b, tx, ty) == NudgePoints(a, tx, ty) + NudgePoints(b, tx, ty)
  {
  }

  lemma {:induction false} ShowTextBeside(env: Env, w: Walk, w': Walk, o: Operation, tx: int, ty: int)
    requires WalksBeside(w, w', tx, ty)
    ensures WalksBeside(ShowText(env, w, o), ShowText(env, w', o), tx, ty)
  {
    TextBeside(env, w.gs, w'.gs, o.shown, o.op, |w.objects|, tx, ty);
  }

  lemma {:induction false} PaintBeside(w: Walk, w': Walk, op: string, tx: int, ty: int)
    requires WalksBeside(w, w', tx, ty)
    ensures WalksBeside(PaintPath(w, op), PaintPath(w', op), tx, ty)
  {
    assert NudgePoints([], tx, ty) == [];
    if w.current != [] {
      PathBeside(w.gs, w'.gs, w.current, w.currentOps, op, |w.objects|, tx, ty);
    }
  }

  // Every step keeps the walks side by side, save a restore with nothing saved:
  // that one resets the matrix, and with it the shift.
  lemma {:induction false} StepBeside(env: Env, w: Walk, w': Walk, o: Operation, tx: int, ty: int)
    requires WalksBeside(w, w', tx, ty)
    requires KindOf(o) == Restore ==> w.stack != []
    ensures WalksBeside(Step(env, w, o), Step(env, w', o), tx, ty)
  {
    match KindOf(o) {
      case Save =>
      case Restore =>
      case State =>
        StateBeside(env, w.gs, w'.gs, o, tx, ty);
      case Text =>
        ShowTextBeside(env, w, w', o, tx, ty);
      case Build =>
        BuildBeside(w, w', o, tx, ty);
      case Paint =>
        PaintBeside(w, w', o.op, tx, ty);
      case Image =>
        ImageBeside(w, w', o, tx, ty);
      case Unknown =>
      case Ignored =>
    }
  }

  lemma {:induction false} BuildBeside(w: Walk, w': Walk, o: Operation, tx: int, ty: int)
    requires WalksBeside(w, w', tx, ty) && BuildsPath(o)
    ensures WalksBeside(BuildPath(w, o), BuildPath(w', o), tx, ty)
  {
    PointsBeside(w.gs.ctm, PathPoints(o), tx, ty);
    NudgeConcat(w.current, MapPoints(w.gs.ctm, PathPoints(o)), tx, ty);
  }

  lemma {:induction false} ImageBeside(w: Walk, w': Walk, o: Operation, tx: int, ty: int)
    requires WalksBeside(w, w', tx, ty)
    ensures WalksBeside(DrawImage(w, o), DrawImage(w', o), tx, ty)
  {
  }

  // How many saved states are on the stack after these operations, `depth` being
  // there before; none of them restores from an empty stack.
  predicate NeverUnderflows(ops: seq<Operation>, depth: nat) {
    if ops == [] then true
    else
      && NeverUnderflows(ops[..|ops| - 1], depth)
      && (KindOf(ops[|ops| - 1]) == Restore ==> DepthAfter(ops[..|ops| - 1], depth) > 0)
  }

  function DepthAfter(ops: seq<Operation>, depth: nat): nat {
    if ops == [] then depth
    else
      var d := DepthAfter(ops[..|ops| - 1], depth);
      match KindOf(ops[|ops| - 1])
      case Save => d + 1
      case Restore => if d == 0 then 0 else d - 1
      case _ => d
  }

  lemma {:induction false} RunDepth(env: Env, w: Walk, ops: seq<Operation>)
    ensures |Run(env, w, ops).stack| == DepthAfter(ops, |w.stack|)
  {
    if ops != [] {
      RunDepth(env, w, ops[..|ops| - 1]);
      StepDepth(env, Run(env, w, ops[..|ops| - 1]), ops[|ops| - 1]);
    }
  }

  lemma {:induction false} StepDepth(env: Env, w: Walk, o: Operation)
    ensures var d := |w.stack|;
            |Step(env, w, o).stack| == match KindOf(o) case Save => d + 1 case Restore => (if d == 0 then 0 else d - 1) case _ => d
  {
    match KindOf(o)
    case Text => assert ShowText(env, w, o).stack == w.stack;
    case Build => assert BuildPath(w, o).stack == w.stack;
    case Paint => assert PaintPath(w, o.op).stack == w.stack;
    case Image => assert DrawImage(w, o).stack == w.stack;
    case _ =>
  }

  lemma {:induction false} RunsBeside(env: Env, w: Walk, w': Walk, ops: seq<Operation>, tx: int, ty: int)
    requires WalksBeside(w, w', tx, ty) && NeverUnderflows(ops, |w.stack|)
    ensures WalksBeside(Run(env, w, ops), Run(env, w', ops), tx, ty)
  {
    if ops != [] {
      var init := ops[..|ops| - 1];
      RunsBeside(env, w, w', init, tx, ty);
      RunDepth(env, w, init);
      StepBeside(env, Run(env, w, init), Run(env, w', init), ops[|ops| - 1], tx, ty);
    }
  }

  lemma {:induction false} RunFrom(env: Env, w: Walk, o: Operation, ops: seq<Operation>)
    ensures Run(env, w, [o] + ops) == Run(env, Step(env, w, o), ops)
  {
    if ops == [] {
      assert [o] + ops == [o] && [o][..0] == [];
      assert Run(env, w, [o]) == Step(env, Run(env, w, []), o);
    } else {
      assert ([o] + ops)[..|[o] + ops| - 1] == [o] + ops[..|ops| - 1];
      RunFrom(env, w, o, ops[..|ops| - 1]);
    }
  }

  // The operation that shifts everything after it.
  predicate ShiftsBy(o: Operation, tx: int, ty: int) {
    && o.op == "cm" && |o.operands| >= 6
    && MatrixOf(o.operands) == Translation(tx as real, ty as real)
  }

  lemma {:induction false} StateStep(env: Env, w: Walk, o: Operation, gs: GState)
    requires KindOf(o) == State && SetState(env, w.gs, o) == gs
    ensures Step(env, w, o) == w.(gs := gs)
  {
  }

  lemma {:induction false} FirstStep(env: Env, cm: Operation, tx: int, ty: int)
    requires ShiftsBy(cm, tx, ty)
    ensures WalksBeside(START, Step(env, START, cm), tx, ty)
  {
    ShiftSetsMatrix(env, cm, INITIAL);
    NudgeIsTranslation(IDENTITY, tx, ty);
    StateStep(env, START, cm, INITIAL.(ctm := Nudge(IDENTITY, tx, ty)));
    StartsBeside(tx, ty);
  }

  lemma {:induction false} StartsBeside(tx: int, ty: int)
    ensures WalksBeside(START, START.(gs := INITIAL.(ctm := Nudge(IDENTITY, tx, ty))), tx, ty)
  {
    assert NudgePoints([], tx, ty) == [];
  }

  lemma {:induction false} ShiftSetsMatrix(env: Env, cm: Operation, gs: GState)
    requires cm.op == "cm" && |cm.operands| >= 6
    ensures KindOf(cm) == State && SetState(env, gs, cm) == gs.(ctm := Mul(MatrixOf(cm.operands), gs.ctm))
  {
  }

  // Signatures, styles, drawing order and unknown operators stay; positions move.
  lemma {:induction false} ShiftedParse(env: Env, cm: Operation, ops: seq<Operation>, tx: int, ty: int)
    requires ShiftsBy(cm, tx, ty) && NeverUnderflows(ops, 0)
    ensures var page, page' := Parsed(env, ops), Parsed(env, [cm] + ops);
            && ObjectsBeside(page.objects, page'.objects, tx, ty)
            && page'.unknownOps == page.unknownOps && page'.hasRaster == page.hasRaster
  {
    RunFrom(env, START, cm, ops);
    FirstStep(env, cm, tx, ty);
    RunsBeside(env, START, Step(env, START, cm), ops, tx, ty);
  }

  // ----------------------------------------------------- and nothing is reported

  predicate NoImages(ops: seq<Operation>) {
    forall k :: 0 <= k < |ops| ==> KindOf(ops[k]) != Image
  }

  lemma {:induction false} NoImageStep(env: Env, w: Walk, o: Operation)
    requires KindOf(o) != Image && forall k :: 0 <= k < |w.objects| ==> !IsImage(w.objects[k])
    ensures forall k :: 0 <= k < |Step(env, w, o).objects| ==> !IsImage(Step(env, w, o).objects[k])
  {
  }

  lemma {:induction false} NoImageObjects(env: Env, ops: seq<Operation>)
    requires NoImages(ops)
    ensures forall k :: 0 <= k < |Run(env, START, ops).objects| ==> !IsImage(Run(env, START, ops).objects[k])
  {
    if ops != [] {
      NoImageObjects(env, ops[..|ops| - 1]);
      NoImageStep(env, Run(env, START, ops[..|ops| - 1]), ops[|ops| - 1]);
    }
  }

  // A vector page and its shifted copy compare as wholly unchanged exactly when some
  // object's signature occurs once on the page, or the shift is no shift.
  lemma {:induction false} ShiftedPageIsUnchanged(env: Env, cm: Operation, ops: seq<Operation>, tx: int, ty: int, off: Point)
    requires ShiftsBy(cm, tx, ty) && NeverUnderflows(ops, 0) && NoImages(ops)
    requires Parsed(env, ops).objects != []
    requires PdfMatch.Dominant(PdfMatch.VoteList(Parsed(env, ops).objects, Parsed(env, [cm] + ops).objects,
                                                 |Parsed(env, ops).objects|), off)
    ensures PageShift.AllUnchanged(Parsed(env, ops).objects, Parsed(env, [cm] + ops).objects, off)
            <==> PageShift.SomeSignatureOnce(Parsed(env, ops).objects) || (tx == 0 && ty == 0)
  {
    ShiftedParse(env, cm, ops, tx, ty);
    NoImageObjects(env, ops);
    var a, b := Parsed(env, ops).objects, Parsed(env, [cm] + ops).objects;
    assert PageShift.Shifted(a, b, tx, ty);
    PageShift.ShiftIsInvisibleExactly(a, b, tx, ty, off);
  }
}
