/** The state each object of a rendered page is tagged with, and how it is drawn. */
module PageStates {
  import opened Wrappers
  import opened Vocabulary
  import opened PageObjects
  import opened PathSvg
  import opened PdfMatch
  import opened PdfVerdicts
  import opened PageRender
  import opened PathMeaning

  lemma {:induction false} ItemsFrom(ds: seq<ObjectDelta>, pick: ObjectDelta -> seq<Item>, x: Item)
    ensures x in Items(ds, pick) <==> exists d :: d in ds && x in pick(d)
  {
    if ds != [] {
      var init, last := ds[..|ds| - 1], ds[|ds| - 1];
      ItemsFrom(init, pick, x);
      assert ds == init + [last];
    }
  }

  // A one-sided delta is an addition or a deletion, as its side says.
  lemma {:induction false} SidesFixState(before: seq<PageObject>, after: seq<PageObject>, off: Point, d: ObjectDelta)
    requires d in PageDeltas(before, after, off)
    ensures d.was.Some? || d.now.Some?
    ensures d.now.None? <==> d.state == Deleted
    ensures d.was.None? <==> d.state == Added
  {
    ReportedExactly(before, after, off, d);
  }

  // The sides a delta has are those its state says.
  ghost predicate SidesFit(d: ObjectDelta) {
    (d.was.Some? || d.now.Some?) && (d.now.None? <==> d.state == Deleted) && (d.was.None? <==> d.state == Added)
  }

  lemma {:induction false} OldItemOf(d: ObjectDelta, x: Item)
    requires SidesFit(d)
    ensures x in OldItem(d) <==> !x.onNew && d.was == Some(x.at) && d.state == x.state
  {
  }

  lemma {:induction false} NewItemOf(d: ObjectDelta, x: Item)
    requires SidesFit(d)
    ensures x in NewItem(d) <==> x.onNew && d.now == Some(x.at) && d.state == x.state
  {
  }

  lemma {:induction false} ChangeItemOf(d: ObjectDelta, x: Item)
    requires SidesFit(d)
    ensures x in ChangeItem(d) <==> ShowsChange(d, x)
  {
  }

  lemma {:induction false} DeltaFits(before: seq<PageObject>, after: seq<PageObject>, off: Point, d: ObjectDelta)
    requires d in PageDeltas(before, after, off)
    ensures SidesFit(d)
  {
    SidesFixState(before, after, off, d);
  }

  // The newest side of a delta, in its state, where that is not unchanged.
  predicate ShowsChange(d: ObjectDelta, x: Item) {
    d.state == x.state != Unchanged && if d.now.Some? then x.onNew && d.now == Some(x.at) else !x.onNew && d.was == Some(x.at)
  }

  lemma {:induction false} OldDrawn(before: seq<PageObject>, after: seq<PageObject>, off: Point, x: Item)
    ensures var ds := PageDeltas(before, after, off);
            x in Items(ds, OldItem) <==> !x.onNew && exists d :: d in ds && d.was == Some(x.at) && d.state == x.state
  {
    var ds := PageDeltas(before, after, off);
    ItemsFrom(ds, OldItem, x);
    forall d | d in ds ensures x in OldItem(d) <==> !x.onNew && d.was == Some(x.at) && d.state == x.state {
      DeltaFits(before, after, off, d);
      OldItemOf(d, x);
    }
  }

  lemma {:induction false} NewDrawn(before: seq<PageObject>, after: seq<PageObject>, off: Point, x: Item)
    ensures var ds := PageDeltas(before, after, off);
            x in Items(ds, NewItem) <==> x.onNew && exists d :: d in ds && d.now == Some(x.at) && d.state == x.state
  {
    var ds := PageDeltas(before, after, off);
    ItemsFrom(ds, NewItem, x);
    forall d | d in ds ensures x in NewItem(d) <==> x.onNew && d.now == Some(x.at) && d.state == x.state {
      DeltaFits(before, after, off, d);
      NewItemOf(d, x);
    }
  }

  lemma {:induction false} ChangesDrawn(before: seq<PageObject>, after: seq<PageObject>, off: Point, x: Item)
    ensures var ds := PageDeltas(before, after, off);
            x in Items(ds, ChangeItem) <==> exists d :: d in ds && ShowsChange(d, x)
  {
    var ds := PageDeltas(before, after, off);
    ItemsFrom(ds, ChangeItem, x);
    forall d | d in ds ensures x in ChangeItem(d) <==> ShowsChange(d, x) {
      DeltaFits(before, after, off, d);
      ChangeItemOf(d, x);
    }
  }

  // Every object is drawn in the state of its delta: the old one in the old layer, the new
  // one in the new layer, and of what differs the newest side in the layer of changes.
  lemma {:induction false} DrawnStates(before: seq<PageObject>, after: seq<PageObject>, off: Point, x: Item)
    ensures var ds := PageDeltas(before, after, off);
            && (x in Items(ds, OldItem) <==> !x.onNew && exists d :: d in ds && d.was == Some(x.at) && d.state == x.state)
            && (x in Items(ds, NewItem) <==> x.onNew && exists d :: d in ds && d.now == Some(x.at) && d.state == x.state)
            && (x in Items(ds, ChangeItem) <==> exists d :: d in ds && ShowsChange(d, x))
  {
    OldDrawn(before, after, off, x);
    NewDrawn(before, after, off, x);
    ChangesDrawn(before, after, off, x);
  }

  // How one object is drawn: text by its outlines, an image by a marker, a path by its
  // commands, filled or stroked at the width of its style.
  lemma {:induction false} DrawnAs(o: PageObject, state: DiffState, outline: Outliner)
    ensures var x := RenderObject(o, state, outline);
            match o.signature
            case TextSignature(_, _, _) => if outline(o).Some? then x == Some(Glyphs(state, outline(o).value)) else x.None?
            case ImageSignature(_, _, _) => x == Some(Marker(state))
            case XObjectSignature(_) => x == Some(Marker(state))
            case PathSignature(_, _) =>
              if o.points == [] then x.None?
              else if exists k :: 0 <= k < |o.ops| && FillsPath(o.ops[k]) then x == Some(Filled(state, PathData(o.points, o.ops)))
              else x == Some(Stroked(state, PathData(o.points, o.ops), if o.style.PathStyle? then o.style.width else 1.0))
  {
    FilledByName(o);
    if o.points != [] {
      PathDataIsSome(o.points, o.ops);
    }
  }

  predicate FillsPath(op: string) {
    op == "f" || op == "F" || op == "f*" || op == "B" || op == "B*" || op == "b" || op == "b*"
  }

  // A path with points always has commands.
  lemma {:induction false} PathDataIsSome(pts: seq<Point>, ops: seq<string>)
    requires pts != []
    ensures PathData(pts, ops) != []
  {
    if PointTotal(Construction(ops)) == |pts| {
      assert Construction(ops) != [];
      NothingFirst(Construction(ops), pts, pts[0]);
    }
  }

  lemma {:induction false} FillIsNoConstruction(op: string)
    ensures Constructs(op) ==> !FillsPath(op)
  {
    if FillsPath(op) {
      PaintIsNoConstruction(op);
    }
  }

  lemma {:induction false} FilledByName(o: PageObject)
    ensures IsFilled(o) <==> exists k :: 0 <= k < |o.ops| && FillsPath(o.ops[k])
  {
    if k :| 0 <= k < |o.ops| && FillsPath(o.ops[k]) {
      assert o.ops[k] in ["f", "F", "f*", "B", "B*", "b", "b*"];
    }
  }

  // A painted path is filled exactly when the operator that painted it fills.
  lemma {:induction false} PaintedFill(o: PageObject, ops: seq<string>, paint: string)
    requires o.ops == ops + [paint] && forall k :: 0 <= k < |ops| ==> Constructs(ops[k])
    ensures IsFilled(o) <==> FillsPath(paint)
  {
    FilledByName(o);
    assert o.ops[|ops|] == paint;
    forall k | 0 <= k < |ops| ensures !FillsPath(o.ops[k]) {
      assert o.ops[k] == ops[k];
      FillIsNoConstruction(ops[k]);
    }
  }

  function LinesTo(to: seq<Point>): (r: seq<Segment>)
    ensures |r| == |to| && forall k :: 0 <= k < |r| ==> r[k] == Line(to[k])
  {
    seq(|to|, k requires 0 <= k < |to| => Line(to[k]))
  }

  function LineCommands(to: seq<Point>): (r: seq<Command>)
    ensures |r| == |to| && forall k :: 0 <= k < |r| ==> r[k] == LineTo(to[k])
  {
    seq(|to|, k requires 0 <= k < |to| => LineTo(to[k]))
  }

  // When operators and points do not tally, every point is joined in turn; closed if the
  // path held a rectangle or a close.
  lemma {:induction false} FallbackMeans(pts: seq<Point>, ops: seq<string>)
    requires |pts| > 1 && PointTotal(Construction(ops)) != |pts|
    ensures SvgDrawing(PathData(pts, ops)) == [Subpath(pts[0], LinesTo(pts[1..]), "re" in ops || "h" in ops)]
  {
    FallbackTaken(pts, ops);
    ClosedOrOpen(pts, "re" in ops || "h" in ops);
  }

  lemma {:induction false} FallbackTaken(pts: seq<Point>, ops: seq<string>)
    requires pts != [] && PointTotal(Construction(ops)) != |pts|
    ensures PathData(pts, ops) == Polyline(pts, "re" in ops || "h" in ops)
  {
  }

  lemma {:induction false} PolylineIs(pts: seq<Point>, close: bool)
    requires pts != []
    ensures Polyline(pts, close) == [MoveTo(pts[0])] + LineCommands(pts[1..]) + if close then [ClosePath] else []
  {
    assert seq(|pts| - 1, k requires 0 <= k < |pts| - 1 => LineTo(pts[k + 1])) == LineCommands(pts[1..]);
  }

  lemma {:induction false} ClosedOrOpen(pts: seq<Point>, close: bool)
    requires |pts| > 1
    ensures SvgDrawing(Polyline(pts, close)) == [Subpath(pts[0], LinesTo(pts[1..]), close)]
  {
    var d := [MoveTo(pts[0])] + LineCommands(pts[1..]);
    PolylineDrawn(pts);
    PolylineIs(pts, close);
    if close {
      SvgRunConcat(NO_PEN, d, [ClosePath]);
      SvgRunOne(SvgRun(NO_PEN, d), ClosePath);
    } else {
      assert d + [] == d;
    }
  }

  lemma {:induction false} PolylineDrawn(pts: seq<Point>)
    requires |pts| > 1
    ensures var pen := SvgRun(NO_PEN, [MoveTo(pts[0])] + LineCommands(pts[1..]));
            pen.done == [] && pen.start == pts[0] && pen.segments == LinesTo(pts[1..]) && pen.open
  {
    SvgRunOne(NO_PEN, MoveTo(pts[0]));
    SvgRunConcat(NO_PEN, [MoveTo(pts[0])], LineCommands(pts[1..]));
    LinesRun(Move(NO_PEN, pts[0]), pts[1..], LineCommands(pts[1..]), LinesTo(pts[1..]));
    assert [] + LinesTo(pts[1..]) == LinesTo(pts[1..]);
  }

  lemma {:induction false} LinesRun(pen: Pen, to: seq<Point>, tail: seq<Command>, lines: seq<Segment>)
    requires |tail| == |to| == |lines| && forall k :: 0 <= k < |to| ==> tail[k] == LineTo(to[k]) && lines[k] == Line(to[k])
    ensures var after := SvgRun(pen, tail);
            && after.done == pen.done && after.start == pen.start && after.segments == pen.segments + lines
            && (tail != [] ==> after.open)
  {
    if tail == [] {
      assert pen.segments + lines == pen.segments;
    } else {
      var n := |tail| - 1;
      LinesRun(pen, to[..n], tail[..n], lines[..n]);
      assert lines == lines[..n] + [lines[n]];
    }
  }
}
