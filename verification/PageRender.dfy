/** The three layers of a rendered page: what was there, what is there now, and what
    differs. */
module PageRender {
  import opened Wrappers
  import opened Vocabulary
  import opened Indexing
  import opened PageObjects
  import opened PathSvg
  import opened PdfMatch
  import opened PdfMatchTheorems

  // The glyph outlines of a text object, where there are any.
  type Outliner = PageObject -> Option<string>

  datatype Drawn =
    | Glyphs(state: DiffState, outline: string)
    | Marker(state: DiffState)
    | Filled(state: DiffState, data: seq<Command>)
    | Stroked(state: DiffState, data: seq<Command>, width: real)

  predicate IsFilled(o: PageObject) {
    exists k :: 0 <= k < |o.ops| && o.ops[k] in ["f", "F", "f*", "B", "B*", "b", "b*"]
  }

  function StrokeWidth(o: PageObject): real { if o.style.PathStyle? then o.style.width else 1.0 }

  // One object tagged with a state; nothing when it cannot be drawn.
  function RenderObject(o: PageObject, state: DiffState, outline: Outliner): Option<Drawn> {
    match o.signature
    case TextSignature(_, _, _) => (match outline(o) case None => None case Some(g) => Some(Glyphs(state, g)))
    case ImageSignature(_, _, _) => Some(Marker(state))
    case XObjectSignature(_) => Some(Marker(state))
    case PathSignature(_, _) =>
      var d := PathData(o.points, o.ops);
      if d == [] then None
      else if IsFilled(o) then Some(Filled(state, d))
      else Some(Stroked(state, d, StrokeWidth(o)))
  }

  function OldState(state: DiffState): DiffState {
    if state == Deleted || state == Modified then state else Unchanged
  }

  function NewState(state: DiffState): DiffState {
    if state == Added || state == Modified then state else Unchanged
  }

  // An object of either page and the state it is drawn in.
  datatype Item = Item(onNew: bool, at: nat, state: DiffState)

  function OldItem(d: ObjectDelta): seq<Item> {
    if d.was.Some? then [Item(false, d.was.value, OldState(d.state))] else []
  }

  function NewItem(d: ObjectDelta): seq<Item> {
    if d.now.Some? then [Item(true, d.now.value, NewState(d.state))] else []
  }

  function ChangeItem(d: ObjectDelta): seq<Item> {
    if d.state == Unchanged then []
    else if d.now.Some? then [Item(true, d.now.value, d.state)]
    else if d.was.Some? then [Item(false, d.was.value, d.state)]
    else []
  }

  function Items(ds: seq<ObjectDelta>, pick: ObjectDelta -> seq<Item>): seq<Item> {
    if ds == [] then [] else Items(ds[..|ds| - 1], pick) + pick(ds[|ds| - 1])
  }

  datatype Pages = Pages(before: seq<PageObject>, after: seq<PageObject>)

  predicate Exists(p: Pages, i: Item) { i.at < if i.onNew then |p.after| else |p.before| }

  function ObjectOf(p: Pages, i: Item): PageObject
    requires Exists(p, i)
  {
    if i.onNew then p.after[i.at] else p.before[i.at]
  }

  function Draw(p: Pages, i: Item, outline: Outliner): Option<Drawn> {
    if Exists(p, i) then RenderObject(ObjectOf(p, i), i.state, outline) else None
  }

  // A layer's body, if all of it can be drawn.
  function Body(p: Pages, items: seq<Item>, outline: Outliner): Option<seq<Drawn>> {
    if items == [] then Some([])
    else
      match Body(p, items[..|items| - 1], outline)
      case None => None
      case Some(body) => (match Draw(p, items[|items| - 1], outline) case None => None case Some(x) => Some(body + [x]))
  }

  datatype Layers = Layers(older: seq<Drawn>, newer: seq<Drawn>, changes: seq<Drawn>)

  function Rendered(p: Pages, ds: seq<ObjectDelta>, outline: Outliner): Option<Layers> {
    match (Body(p, Items(ds, OldItem), outline), Body(p, Items(ds, NewItem), outline), Body(p, Items(ds, ChangeItem), outline))
    case (Some(a), Some(b), Some(c)) => Some(Layers(a, b, c))
    case _ => None
  }

  // ------------------------------------------------------------------ the loop

  lemma {:induction false} BodyConcat(p: Pages, a: seq<Item>, b: seq<Item>, outline: Outliner)
    ensures Body(p, a + b, outline)
            == if Body(p, a, outline).Some? && Body(p, b, outline).Some?
               then Some(Body(p, a, outline).value + Body(p, b, outline).value) else None
  {
    if b == [] {
      assert a + b == a;
      if Body(p, a, outline).Some? {
        assert Body(p, a, outline).value + [] == Body(p, a, outline).value;
      }
    } else {
      var init, last := b[..|b| - 1], b[|b| - 1];
      assert (a + b)[..|a + b| - 1] == a + init && (a + b)[|a + b| - 1] == last;
      BodyConcat(p, a, init, outline);
      if Body(p, a, outline).Some? && Body(p, init, outline).Some? && Draw(p, last, outline).Some? {
        assert Body(p, a, outline).value + (Body(p, init, outline).value + [Draw(p, last, outline).value])
            == Body(p, a, outline).value + Body(p, init, outline).value + [Draw(p, last, outline).value];
      }
    }
  }

  lemma {:induction false} ItemsSplit(ds: seq<ObjectDelta>, k: nat, pick: ObjectDelta -> seq<Item>)
    requires k < |ds|
    ensures Items(ds[..k + 1], pick) == Items(ds[..k], pick) + pick(ds[k])
  {
    assert ds[..k + 1][..k] == ds[..k];
  }

  lemma {:induction false} UndrawableSpreads(p: Pages, ds: seq<ObjectDelta>, k: nat, pick: ObjectDelta -> seq<Item>, outline: Outliner)
    requires k <= |ds| && Body(p, Items(ds[..k], pick), outline).None?
    ensures Body(p, Items(ds, pick), outline).None?
    decreases |ds| - k
  {
    if k == |ds| {
      assert ds[..k] == ds;
    } else {
      ItemsSplit(ds, k, pick);
      BodyConcat(p, Items(ds[..k], pick), pick(ds[k]), outline);
      UndrawableSpreads(p, ds, k + 1, pick, outline);
    }
  }

  // Adds at most one object to a layer.
  method AddTo(p: Pages, body: seq<Drawn>, more: seq<Item>, outline: Outliner, ghost items: seq<Item>) returns (body': Option<seq<Drawn>>)
    requires |more| <= 1 && Body(p, items, outline) == Some(body)
    ensures body' == Body(p, items + more, outline)
  {
    if more == [] {
      assert items + more == items;
      return Some(body);
    }
    assert (items + more)[..|items + more| - 1] == items;
    var el := Draw(p, more[0], outline);
    body' := if el.None? then None else Some(body + [el.value]);
  }

  method RenderPage(p: Pages, ds: seq<ObjectDelta>, outline: Outliner) returns (layers: Option<Layers>)
    ensures layers == Rendered(p, ds, outline)
  {
    var olds, news, changes: seq<Drawn> := [], [], [];
    for k := 0 to |ds|
      invariant Body(p, Items(ds[..k], OldItem), outline) == Some(olds)
      invariant Body(p, Items(ds[..k], NewItem), outline) == Some(news)
      invariant Body(p, Items(ds[..k], ChangeItem), outline) == Some(changes)
    {
      ItemsSplit(ds, k, OldItem);
      ItemsSplit(ds, k, NewItem);
      ItemsSplit(ds, k, ChangeItem);
      var a := AddTo(p, olds, OldItem(ds[k]), outline, Items(ds[..k], OldItem));
      if a.None? {
        UndrawableSpreads(p, ds, k + 1, OldItem, outline);
        return None;
      }
      var b := AddTo(p, news, NewItem(ds[k]), outline, Items(ds[..k], NewItem));
      if b.None? {
        UndrawableSpreads(p, ds, k + 1, NewItem, outline);
        return None;
      }
      var c := AddTo(p, changes, ChangeItem(ds[k]), outline, Items(ds[..k], ChangeItem));
      if c.None? {
        UndrawableSpreads(p, ds, k + 1, ChangeItem, outline);
        return None;
      }
      olds, news, changes := a.value, b.value, c.value;
    }
    assert ds[..|ds|] == ds;
    layers := Some(Layers(olds, news, changes));
  }

  // ------------------------------------------------------------- whole pages

  function Spots(items: seq<Item>): multiset<nat> {
    if items == [] then multiset{} else Spots(items[..|items| - 1]) + multiset{items[|items| - 1].at}
  }

  lemma {:induction false} SpotsConcat(a: seq<Item>, b: seq<Item>)
    ensures Spots(a + b) == Spots(a) + Spots(b)
  {
    if b == [] {
      assert a + b == a;
    } else {
      assert (a + b)[..|a + b| - 1] == a + b[..|b| - 1];
      SpotsConcat(a, b[..|b| - 1]);
    }
  }

  lemma {:induction false} OneSpot(i: Item)
    ensures Spots([i]) == multiset{i.at} && Spots([]) == multiset{}
  {
    assert [i][..0] == [];
  }

  lemma {:induction false} LayerRefs(ds: seq<ObjectDelta>)
    ensures Spots(Items(ds, OldItem)) == WasRefs(ds) && Spots(Items(ds, NewItem)) == NowRefs(ds)
  {
    if ds != [] {
      var init, d := ds[..|ds| - 1], ds[|ds| - 1];
      LayerRefs(init);
      SpotsConcat(Items(init, OldItem), OldItem(d));
      SpotsConcat(Items(init, NewItem), NewItem(d));
      if d.was.Some? { OneSpot(OldItem(d)[0]); }
      if d.now.Some? { OneSpot(NewItem(d)[0]); }
    }
  }

  // Compared pages are drawn whole: the old layer draws every object of the old page
  // once, the new layer every object of the new one.
  lemma {:induction false} LayersAreWhole(p: Pages, off: Point)
    ensures Spots(Items(PageDeltas(p.before, p.after, off), OldItem)) == multiset(Range(|p.before|))
    ensures Spots(Items(PageDeltas(p.before, p.after, off), NewItem)) == multiset(Range(|p.after|))
  {
    LayerRefs(PageDeltas(p.before, p.after, off));
    EveryObjectOnce(p.before, p.after, off);
  }

  predicate Drawable(o: PageObject, outline: Outliner) { RenderObject(o, Unchanged, outline).Some? }

  lemma {:induction false} StateDoesNotMatter(o: PageObject, state: DiffState, outline: Outliner)
    ensures RenderObject(o, state, outline).Some? <==> Drawable(o, outline)
  {
  }

  lemma {:induction false} BodyDrawable(p: Pages, items: seq<Item>, outline: Outliner)
    ensures Body(p, items, outline).Some? <==>
            forall k :: 0 <= k < |items| ==> Exists(p, items[k]) && Drawable(ObjectOf(p, items[k]), outline)
  {
    if items != [] {
      BodyDrawable(p, items[..|items| - 1], outline);
      var last := items[|items| - 1];
      if Exists(p, last) {
        StateDoesNotMatter(ObjectOf(p, last), last.state, outline);
      }
    }
  }

  lemma {:induction false} SpotIsItem(items: seq<Item>, at: nat)
    ensures at in Spots(items) <==> exists k :: 0 <= k < |items| && items[k].at == at
  {
    if items != [] {
      SpotIsItem(items[..|items| - 1], at);
      if at in Spots(items[..|items| - 1]) {
        var k :| 0 <= k < |items[..|items| - 1]| && items[..|items| - 1][k].at == at;
        assert items[k].at == at;
      }
      if k :| 0 <= k < |items| && items[k].at == at {
        if k < |items| - 1 { assert items[..|items| - 1][k].at == at; }
      }
    }
  }

  // An item drawn in the changes layer is drawn in one of the others too.
  ghost predicate Among(i: Item, items: seq<Item>) {
    exists k :: 0 <= k < |items| && items[k].onNew == i.onNew && items[k].at == i.at
  }

  lemma {:induction false} AmongMore(i: Item, a: seq<Item>, b: seq<Item>)
    requires Among(i, a) || Among(i, b)
    ensures Among(i, a + b)
  {
    if Among(i, a) {
      var k :| 0 <= k < |a| && a[k].onNew == i.onNew && a[k].at == i.at;
      assert (a + b)[k] == a[k];
    } else {
      var k :| 0 <= k < |b| && b[k].onNew == i.onNew && b[k].at == i.at;
      assert (a + b)[|a| + k] == b[k];
    }
  }

  lemma {:induction false} ChangesAreAmong(ds: seq<ObjectDelta>, k: nat)
    requires k < |Items(ds, ChangeItem)|
    ensures Among(Items(ds, ChangeItem)[k], Items(ds, OldItem)) || Among(Items(ds, ChangeItem)[k], Items(ds, NewItem))
  {
    var init, d := ds[..|ds| - 1], ds[|ds| - 1];
    var i := Items(ds, ChangeItem)[k];
    if k < |Items(init, ChangeItem)| {
      ChangesAreAmong(init, k);
    } else {
      assert i == ChangeItem(d)[0];
      if d.now.Some? { assert NewItem(d)[0].at == i.at; } else { assert OldItem(d)[0].at == i.at; }
    }
    if Among(i, Items(init, OldItem)) || Among(i, OldItem(d)) {
      AmongMore(i, Items(init, OldItem), OldItem(d));
    }
    if Among(i, Items(init, NewItem)) || Among(i, NewItem(d)) {
      AmongMore(i, Items(init, NewItem), NewItem(d));
    }
  }

  lemma {:induction false} SidesOf(ds: seq<ObjectDelta>, k: nat)
    ensures k < |Items(ds, OldItem)| ==> !Items(ds, OldItem)[k].onNew
    ensures k < |Items(ds, NewItem)| ==> Items(ds, NewItem)[k].onNew
  {
    if ds != [] {
      SidesOf(ds[..|ds| - 1], k);
    }
  }

  ghost predicate AllDrawable(objs: seq<PageObject>, outline: Outliner) {
    forall k :: 0 <= k < |objs| ==> Drawable(objs[k], outline)
  }

  // A side's layer can be drawn exactly when every object of that side can.
  lemma {:induction false} SideDrawable(p: Pages, items: seq<Item>, onNew: bool, outline: Outliner)
    requires forall k :: 0 <= k < |items| ==> items[k].onNew == onNew
    requires Spots(items) == multiset(Range(|if onNew then p.after else p.before|))
    ensures Body(p, items, outline).Some? <==> AllDrawable(if onNew then p.after else p.before, outline)
    ensures forall k :: 0 <= k < |items| ==> Exists(p, items[k])
  {
    var objs := if onNew then p.after else p.before;
    BodyDrawable(p, items, outline);
    forall k | 0 <= k < |items| ensures Exists(p, items[k]) {
      SpotIsItem(items, items[k].at);
      assert items[k].at in Range(|objs|);
    }
    if Body(p, items, outline).Some? {
      forall at | 0 <= at < |objs| ensures Drawable(objs[at], outline) {
        assert Range(|objs|)[at] == at;
        SpotIsItem(items, at);
      }
    }
  }

  // A compared page is rendered exactly when every object of both versions can be
  // drawn: the changes layer never fails on its own.
  lemma {:induction false} RenderedExactly(p: Pages, off: Point, outline: Outliner)
    ensures Rendered(p, PageDeltas(p.before, p.after, off), outline).Some?
            <==> AllDrawable(p.before, outline) && AllDrawable(p.after, outline)
  {
    var ds := PageDeltas(p.before, p.after, off);
    var olds, news, changes := Items(ds, OldItem), Items(ds, NewItem), Items(ds, ChangeItem);
    LayersAreWhole(p, off);
    forall k | 0 <= k < |olds| ensures !olds[k].onNew { SidesOf(ds, k); }
    forall k | 0 <= k < |news| ensures news[k].onNew { SidesOf(ds, k); }
    SideDrawable(p, olds, false, outline);
    SideDrawable(p, news, true, outline);
    if AllDrawable(p.before, outline) && AllDrawable(p.after, outline) {
      ChangesDrawable(p, ds, outline);
    }
  }

  lemma {:induction false} ChangesDrawable(p: Pages, ds: seq<ObjectDelta>, outline: Outliner)
    requires forall k :: 0 <= k < |Items(ds, OldItem)| ==> Exists(p, Items(ds, OldItem)[k])
    requires forall k :: 0 <= k < |Items(ds, NewItem)| ==> Exists(p, Items(ds, NewItem)[k])
    requires AllDrawable(p.before, outline) && AllDrawable(p.after, outline)
    ensures Body(p, Items(ds, ChangeItem), outline).Some?
  {
    var changes := Items(ds, ChangeItem);
    BodyDrawable(p, changes, outline);
    forall k | 0 <= k < |changes| ensures Exists(p, changes[k]) && Drawable(ObjectOf(p, changes[k]), outline) {
      ChangesAreAmong(ds, k);
    }
  }
}
