/** Parsing what the writer wrote gives back every element it placed: the old version,
    the new version and the visible changes, with their own vertices and faces. */
module GlbRoundTrip {
  import opened Wrappers
  import opened Bytes
  import opened Indexing
  import opened GlbContainer
  import opened JsonText
  import opened Transforms
  import opened Model3D
  import opened GeometryMatch
  import opened Gltf
  import opened MergedGlb
  import opened SceneStore
  import opened AccessorRead
  import opened MergedLayers
  import opened MergedWalk

  // An element regardless of its node's number.
  function Unnumbered(e: Element): Element { e.(localId := "") }

  function AllUnnumbered(es: seq<Element>): (r: seq<Element>)
    ensures |r| == |es| && forall k :: 0 <= k < |es| ==> r[k] == Unnumbered(es[k])
  {
    seq(|es|, k requires 0 <= k < |es| => Unnumbered(es[k]))
  }

  function AllSeen(stamps: seq<Stamp>, world: Matrix4): (r: seq<Element>)
    ensures |r| == |stamps| && forall k :: 0 <= k < |stamps| ==> r[k] == Seen(stamps[k], world)
  {
    seq(|stamps|, k requires 0 <= k < |stamps| => Seen(stamps[k], world))
  }

  // What a stretch of the walk yields.
  ghost predicate Yields(doc: Document, binary: seq<byte>, fs: seq<Frame>, es: seq<Element>, read: FloatReader) {
    FrameElements(doc, binary, fs, read).Some? && AllUnnumbered(FrameElements(doc, binary, fs, read).value) == es
  }

  lemma {:induction false} ElementsConcat(doc: Document, binary: seq<byte>, a: seq<Frame>, b: seq<Frame>, read: FloatReader)
    requires FrameElements(doc, binary, a, read).Some? && FrameElements(doc, binary, b, read).Some?
    ensures FrameElements(doc, binary, a + b, read)
            == Some(FrameElements(doc, binary, a, read).value + FrameElements(doc, binary, b, read).value)
  {
    if b == [] {
      var found := FrameElements(doc, binary, a, read).value;
      assert a + b == a && found + [] == found;
    } else {
      ElementsConcat(doc, binary, a, b[..|b| - 1], read);
      var last := b[|b| - 1];
      assert b == b[..|b| - 1] + [last] && a + b == a + b[..|b| - 1] + [last];
      ElementsOfOneMore(doc, binary, a + b[..|b| - 1], last, read);
      Associates(FrameElements(doc, binary, a, read).value, FrameElements(doc, binary, b[..|b| - 1], read).value, NodeElements(doc, binary, last, read).value);
    }
  }

  lemma {:induction false} YieldsConcat(doc: Document, binary: seq<byte>, a: seq<Frame>, b: seq<Frame>, x: seq<Element>, y: seq<Element>, read: FloatReader)
    requires Yields(doc, binary, a, x, read) && Yields(doc, binary, b, y, read)
    ensures Yields(doc, binary, a + b, x + y, read)
  {
    ElementsConcat(doc, binary, a, b, read);
  }

  // A document over this scene's parts, each stamp held under its own number.
  ghost predicate Carries(doc: Document, binary: seq<byte>, s: Scene, stamps: seq<Stamp>, write: FloatWriter)
    requires StampsWritable(stamps)
  {
    && Serves(doc, binary, s) && doc.meshes == s.meshes && s.nodes <= doc.nodes
    && forall k :: 0 <= k < |stamps| ==> Holds(s, k, stamps[k], write)
  }

  ghost predicate AllExact(stamps: seq<Stamp>, write: FloatWriter, read: FloatReader) {
    forall k :: 0 <= k < |stamps| ==> Exact(stamps[k].element.verts, write, read)
  }

  lemma {:induction false} StampRead(doc: Document, binary: seq<byte>, s: Scene, stamps: seq<Stamp>, k: nat, world: Matrix4, write: FloatWriter, read: FloatReader)
    requires StampsWritable(stamps) && Carries(doc, binary, s, stamps, write) && AllExact(stamps, write, read) && k < |stamps|
    ensures Yields(doc, binary, [(k, world)], [Seen(stamps[k], world)], read)
  {
    NodeRead(doc, binary, s, k, stamps[k], world, write, read);
    OneFrame(doc, binary, (k, world), read);
  }

  lemma {:induction false} OneFrame(doc: Document, binary: seq<byte>, f: Frame, read: FloatReader)
    ensures FrameElements(doc, binary, [f], read) == NodeElements(doc, binary, f, read)
  {
    assert [f][..0] == [];
    assert FrameElements(doc, binary, [], read) == Some([]);
    if NodeElements(doc, binary, f, read).Some? {
      var more := NodeElements(doc, binary, f, read).value;
      assert [] + more == more;
    }
  }

  lemma {:induction false} BareNodeRead(doc: Document, binary: seq<byte>, f: Frame, read: FloatReader)
    requires f.0 < |doc.nodes| && doc.nodes[f.0].mesh.None?
    ensures Yields(doc, binary, [f], [], read)
  {
    OneFrame(doc, binary, f, read);
  }

  lemma {:induction false} LeavesRead(doc: Document, binary: seq<byte>, s: Scene, stamps: seq<Stamp>, ids: seq<nat>, world: Matrix4, write: FloatWriter, read: FloatReader)
    requires StampsWritable(stamps) && Carries(doc, binary, s, stamps, write) && AllExact(stamps, write, read)
    requires MergedLayers.InRange(ids, |stamps|)
    ensures Yields(doc, binary, Frames(ids, world), AllSeen(Picked(stamps, ids), world), read)
  {
    if ids == [] {
      assert Frames(ids, world) == [];
    } else {
      var init, last := ids[..|ids| - 1], ids[|ids| - 1];
      LeavesRead(doc, binary, s, stamps, init, world, write, read);
      StampRead(doc, binary, s, stamps, last, world, write, read);
      YieldsConcat(doc, binary, Frames(init, world), [(last, world)], AllSeen(Picked(stamps, init), world), [Seen(stamps[last], world)], read);
      LastPicked(stamps, ids, world);
    }
  }

  lemma {:induction false} LastPicked(stamps: seq<Stamp>, ids: seq<nat>, world: Matrix4)
    requires ids != [] && MergedLayers.InRange(ids, |stamps|)
    ensures var init, last := ids[..|ids| - 1], ids[|ids| - 1];
            && Frames(ids, world) == Frames(init, world) + [(last, world)]
            && AllSeen(Picked(stamps, ids), world) == AllSeen(Picked(stamps, init), world) + [Seen(stamps[last], world)]
  {
  }

  lemma {:induction false} PickedReversed(stamps: seq<Stamp>, ids: seq<nat>, world: Matrix4)
    requires MergedLayers.InRange(ids, |stamps|)
    ensures MergedLayers.InRange(Reverse(ids), |stamps|)
    ensures AllSeen(Picked(stamps, Reverse(ids)), world) == Reverse(AllSeen(Picked(stamps, ids), world))
  {
  }

  lemma {:induction false} GroupRead(doc: Document, binary: seq<byte>, s: Scene, stamps: seq<Stamp>, g: nat, ids: seq<nat>, shown: seq<Stamp>, world: Matrix4, write: FloatWriter, read: FloatReader)
    requires StampsWritable(stamps) && Carries(doc, binary, s, stamps, write) && AllExact(stamps, write, read)
    requires MergedLayers.InRange(ids, |stamps|) && Picked(stamps, ids) == shown
    requires g < |doc.nodes| && doc.nodes[g].mesh.None?
    ensures Yields(doc, binary, GroupWalk(g, ids, world), Reverse(AllSeen(shown, world)), read)
  {
    BareNodeRead(doc, binary, (g, world), read);
    PickedReversed(stamps, ids, world);
    LeavesRead(doc, binary, s, stamps, Reverse(ids), world, write, read);
    YieldsConcat(doc, binary, [(g, world)], Frames(Reverse(ids), world), [], Reverse(AllSeen(shown, world)), read);
    assert [] + Reverse(AllSeen(shown, world)) == Reverse(AllSeen(shown, world));
  }

  ghost predicate BareGroups(doc: Document, n: nat) {
    n + 2 < |doc.nodes| && doc.nodes[n].mesh.None? && doc.nodes[n + 1].mesh.None? && doc.nodes[n + 2].mesh.None?
  }

  lemma {:induction false} TreeRead(doc: Document, binary: seq<byte>, s: Scene, l: Layers, n: nat, a: seq<Stamp>, b: seq<Stamp>, c: seq<Stamp>, world: Matrix4, write: FloatWriter, read: FloatReader)
    requires StampsWritable(l.stamps) && Carries(doc, binary, s, l.stamps, write) && AllExact(l.stamps, write, read)
    requires Separate(l) && Shows(l, a, b, c) && BareGroups(doc, n)
    ensures Yields(doc, binary, TreeWalk(l, n, world), Reverse(AllSeen(a + b + c, world)), read)
  {
    GroupsRead(doc, binary, s, l.stamps, n, l.older, l.newer, l.changed, world, write, read);
    Associates(a, b, c);
  }

  lemma {:induction false} GroupsRead(doc: Document, binary: seq<byte>, s: Scene, stamps: seq<Stamp>, n: nat, older: seq<nat>, newer: seq<nat>, changed: seq<nat>,
                                      world: Matrix4, write: FloatWriter, read: FloatReader)
    requires StampsWritable(stamps) && Carries(doc, binary, s, stamps, write) && AllExact(stamps, write, read) && BareGroups(doc, n)
    requires MergedLayers.InRange(older, |stamps|) && MergedLayers.InRange(newer, |stamps|) && MergedLayers.InRange(changed, |stamps|)
    ensures Yields(doc, binary, GroupWalk(n + 2, changed, world) + GroupWalk(n + 1, newer, world) + GroupWalk(n, older, world),
                   Reverse(AllSeen(Picked(stamps, older) + (Picked(stamps, newer) + Picked(stamps, changed)), world)), read)
  {
    var b, c := Picked(stamps, newer), Picked(stamps, changed);
    TwoGroupsRead(doc, binary, s, stamps, n, newer, changed, c, world, write, read);
    GroupAppended(doc, binary, s, stamps, GroupWalk(n + 2, changed, world) + GroupWalk(n + 1, newer, world), b + c, n, older, world, write, read);
  }

  lemma {:induction false} TwoGroupsRead(doc: Document, binary: seq<byte>, s: Scene, stamps: seq<Stamp>, n: nat, newer: seq<nat>, changed: seq<nat>,
                                         c: seq<Stamp>, world: Matrix4, write: FloatWriter, read: FloatReader)
    requires StampsWritable(stamps) && Carries(doc, binary, s, stamps, write) && AllExact(stamps, write, read) && BareGroups(doc, n)
    requires MergedLayers.InRange(newer, |stamps|) && MergedLayers.InRange(changed, |stamps|) && Picked(stamps, changed) == c
    ensures Yields(doc, binary, GroupWalk(n + 2, changed, world) + GroupWalk(n + 1, newer, world), Reverse(AllSeen(Picked(stamps, newer) + c, world)), read)
  {
    GroupRead(doc, binary, s, stamps, n + 2, changed, c, world, write, read);
    GroupAppended(doc, binary, s, stamps, GroupWalk(n + 2, changed, world), c, n + 1, newer, world, write, read);
  }

  // One more group, read behind what was read already.
  lemma {:induction false} GroupAppended(doc: Document, binary: seq<byte>, s: Scene, stamps: seq<Stamp>, f: seq<Frame>, shown: seq<Stamp>, g: nat, ids: seq<nat>,
                                         world: Matrix4, write: FloatWriter, read: FloatReader)
    requires StampsWritable(stamps) && Carries(doc, binary, s, stamps, write) && AllExact(stamps, write, read)
    requires MergedLayers.InRange(ids, |stamps|) && g < |doc.nodes| && doc.nodes[g].mesh.None?
    requires Yields(doc, binary, f, Reverse(AllSeen(shown, world)), read)
    ensures Yields(doc, binary, f + GroupWalk(g, ids, world), Reverse(AllSeen(Picked(stamps, ids) + shown, world)), read)
  {
    var more := Picked(stamps, ids);
    GroupRead(doc, binary, s, stamps, g, ids, more, world, write, read);
    YieldsConcat(doc, binary, f, GroupWalk(g, ids, world), Reverse(AllSeen(shown, world)), Reverse(AllSeen(more, world)), read);
    SeenReversed(more, shown, world);
  }

  lemma {:induction false} SeenReversed(a: seq<Stamp>, b: seq<Stamp>, world: Matrix4)
    ensures Reverse(AllSeen(b, world)) + Reverse(AllSeen(a, world)) == Reverse(AllSeen(a + b, world))
  {
    assert AllSeen(a + b, world) == AllSeen(a, world) + AllSeen(b, world);
    ReverseConcat(AllSeen(a, world), AllSeen(b, world));
  }

  // -------------------------------------------------------------- the document

  // Where everything is placed: nowhere else for a Y-up model, turned over for a Z-up one.
  function World(upAxis: string): Matrix4 {
    if ZUp(upAxis) then Local(Z_UP_TO_Y_UP) else IDENTITY4
  }

  lemma {:induction false} DocumentIsGrouped(l: Layers, upAxis: string, write: FloatWriter)
    requires StampsWritable(l.stamps)
    ensures var doc := MergedDocument(l, upAxis, write);
            && Carries(doc, SceneOf(l.stamps, write).buffer, SceneOf(l.stamps, write), l.stamps, write)
            && Grouped(doc, l, |l.stamps|) && BareGroups(doc, |l.stamps|)
  {
    var doc, n := MergedDocument(l, upAxis, write), |l.stamps|;
    NodeCount(l.stamps, write);
    forall i | 0 <= i < n ensures Resting(doc, i, []) && Holds(SceneOf(l.stamps, write), i, l.stamps[i], write) {
      SceneHolds(l.stamps, i, write);
    }
  }

  lemma {:induction false} VisitRoot(doc: Document, r: nat, kids: seq<nat>)
    requires r < |doc.nodes| && doc.nodes[r].children == kids
    ensures var world := Local(doc.nodes[r].transform);
            Visit(doc, [(r, IDENTITY4)], {}) == [(r, world)] + Visit(doc, Frames(kids, world), {r})
  {
    var world := Local(doc.nodes[r].transform);
    TimesIdentity(world);
    assert [(r, IDENTITY4)][..0] == [];
    assert [] + Children(doc.nodes[r], world) == Frames(kids, world);
    assert {} + {r} == {r};
  }

  lemma {:induction false} RootsOf(l: Layers, upAxis: string, write: FloatWriter)
    requires StampsWritable(l.stamps)
    ensures var n := |l.stamps|;
            RootFrames(MergedDocument(l, upAxis, write))
            == if ZUp(upAxis) then [(n + 3, IDENTITY4)] else Frames([n, n + 1, n + 2], IDENTITY4)
  {
    NodeCount(l.stamps, write);
  }

  // The nodes visited before the groups, if any: the root of a Z-up model.
  function RootWalk(l: Layers, upAxis: string): seq<Frame> {
    if ZUp(upAxis) then [(|l.stamps| + 3, World(upAxis))] else []
  }

  // The whole walk.
  function MergedWalkOf(l: Layers, upAxis: string): seq<Frame> {
    RootWalk(l, upAxis) + TreeWalk(l, |l.stamps|, World(upAxis))
  }

  // The node that turns a Z-up model over, above the three groups.
  ghost predicate Turning(doc: Document, n: nat) {
    n + 3 < |doc.nodes| && doc.nodes[n + 3].children == [n, n + 1, n + 2] && doc.nodes[n + 3].transform == Z_UP_TO_Y_UP
  }

  lemma {:induction false} TreeVisited(doc: Document, l: Layers, upAxis: string)
    requires Grouped(doc, l, |l.stamps|) && Separate(l) && (ZUp(upAxis) ==> Turning(doc, |l.stamps|))
    requires RootFrames(doc) == if ZUp(upAxis) then [(|l.stamps| + 3, IDENTITY4)]
                                else Frames([|l.stamps|, |l.stamps| + 1, |l.stamps| + 2], IDENTITY4)
    ensures Visited(doc) == MergedWalkOf(l, upAxis)
  {
    var n := |l.stamps|;
    if ZUp(upAxis) {
      VisitRoot(doc, n + 3, [n, n + 1, n + 2]);
      VisitTree(doc, l, n, World(upAxis), {n + 3});
    } else {
      VisitTree(doc, l, n, IDENTITY4, {});
    }
  }

  lemma {:induction false} MergedVisited(l: Layers, upAxis: string, write: FloatWriter)
    requires StampsWritable(l.stamps) && Separate(l)
    ensures Visited(MergedDocument(l, upAxis, write)) == MergedWalkOf(l, upAxis)
  {
    DocumentIsGrouped(l, upAxis, write);
    RootsOf(l, upAxis, write);
    NodeCount(l.stamps, write);
    TreeVisited(MergedDocument(l, upAxis, write), l, upAxis);
  }

  lemma {:induction false} WalkRead(doc: Document, binary: seq<byte>, s: Scene, l: Layers, upAxis: string, a: seq<Stamp>, b: seq<Stamp>, c: seq<Stamp>, write: FloatWriter, read: FloatReader)
    requires StampsWritable(l.stamps) && Carries(doc, binary, s, l.stamps, write) && AllExact(l.stamps, write, read)
    requires Separate(l) && Shows(l, a, b, c) && BareGroups(doc, |l.stamps|)
    requires Visited(doc) == MergedWalkOf(l, upAxis)
    requires Yields(doc, binary, RootWalk(l, upAxis), [], read)
    ensures Yields(doc, binary, Visited(doc), Reverse(AllSeen(a + b + c, World(upAxis))), read)
  {
    var world, es := World(upAxis), Reverse(AllSeen(a + b + c, World(upAxis)));
    TreeRead(doc, binary, s, l, |l.stamps|, a, b, c, world, write, read);
    YieldsConcat(doc, binary, RootWalk(l, upAxis), TreeWalk(l, |l.stamps|, world), [], es, read);
    assert [] + es == es;
  }

  lemma {:induction false} DocumentRead(l: Layers, upAxis: string, a: seq<Stamp>, b: seq<Stamp>, c: seq<Stamp>, write: FloatWriter, read: FloatReader)
    requires StampsWritable(l.stamps) && AllExact(l.stamps, write, read) && Separate(l) && Shows(l, a, b, c)
    ensures var doc := MergedDocument(l, upAxis, write);
            Yields(doc, SceneOf(l.stamps, write).buffer, Visited(doc), Reverse(AllSeen(a + b + c, World(upAxis))), read)
  {
    var s := SceneOf(l.stamps, write);
    DocumentIsGrouped(l, upAxis, write);
    MergedVisited(l, upAxis, write);
    RootRead(l, upAxis, write, read);
    WalkRead(MergedDocument(l, upAxis, write), s.buffer, s, l, upAxis, a, b, c, write, read);
  }

  lemma {:induction false} RootRead(l: Layers, upAxis: string, write: FloatWriter, read: FloatReader)
    requires StampsWritable(l.stamps)
    ensures Yields(MergedDocument(l, upAxis, write), SceneOf(l.stamps, write).buffer, RootWalk(l, upAxis), [], read)
  {
    if ZUp(upAxis) {
      NodeCount(l.stamps, write);
      BareNodeRead(MergedDocument(l, upAxis, write), SceneOf(l.stamps, write).buffer, (|l.stamps| + 3, World(upAxis)), read);
    }
  }

  // ------------------------------------------------------------- the round trip

  ghost predicate ExactDelta(d: ElementDelta, write: FloatWriter, read: FloatReader) {
    && (d.was.Some? ==> Exact(d.was.value.verts, write, read))
    && (d.now.Some? ==> Exact(d.now.value.verts, write, read))
  }

  ghost predicate ExactDeltas(ds: seq<ElementDelta>, write: FloatWriter, read: FloatReader) {
    forall k :: 0 <= k < |ds| ==> ExactDelta(ds[k], write, read)
  }

  lemma {:induction false} QueuedIsExact(stamps: seq<Stamp>, e: Option<Element>, name: string, write: FloatWriter, read: FloatReader)
    requires AllExact(stamps, write, read) && (e.Some? ==> Exact(e.value.verts, write, read))
    ensures AllExact(Queued(e, stamps, name), write, read)
  {
  }

  lemma {:induction false} PlannedIsExact(ds: seq<ElementDelta>, write: FloatWriter, read: FloatReader)
    requires ExactDeltas(ds, write, read)
    ensures AllExact(Planned(ds).stamps, write, read)
  {
    if ds != [] {
      var i := |ds| - 1;
      var d, l, eid := ds[i], Planned(ds[..i]), ElementId(ds[i], i);
      PlannedIsExact(ds[..i], write, read);
      assert ExactDelta(d, write, read);
      QueuedIsExact(l.stamps, d.was, eid + "|old", write, read);
      QueuedIsExact(WithOld(l, d, eid).stamps, d.now, eid + "|new", write, read);
      QueuedIsExact(WithNew(WithOld(l, d, eid), d, eid).stamps, VisibleChange(d), eid + "|diff", write, read);
    }
  }

  // Everything placed: the old version, the new one, the visible changes.
  function Everything(ds: seq<ElementDelta>): seq<Stamp> { OldLayer(ds) + NewLayer(ds) + ChangeLayer(ds) }

  lemma {:induction false} LoadedDocument(loader: Loader, doc: Document, bin: seq<byte>)
    requires ReadsBack(loader.codec, doc) && TotalSize(loader.codec.encode(doc), bin) < WORD && |bin| % 4 == 0
    ensures LoadDocument(loader, PackedGlb(loader.codec.encode(doc), bin)) == (Some(doc), bin)
  {
    SplitUndoesPack(loader.codec, doc, bin);
  }

  // Parsing the merged file yields, last first, exactly what was placed.
  lemma {:induction false} ParseUndoesBuild(ds: seq<ElementDelta>, upAxis: string, loader: Loader, write: FloatWriter)
    requires Writable(ds) && Fits(ds, upAxis, loader.codec, write) && ExactDeltas(ds, write, loader.float)
    requires StampsWritable(Planned(ds).stamps) && ReadsBack(loader.codec, MergedDocument(Planned(ds), upAxis, write))
    ensures Merged(ds, upAxis, loader.codec, write).None? <==> Everything(ds) == []
    ensures Merged(ds, upAxis, loader.codec, write).Some? ==>
              var parsed := Parsed(loader, Merged(ds, upAxis, loader.codec, write).value);
              && parsed.Some? && parsed.value.problems == []
              && AllUnnumbered(parsed.value.elements) == Reverse(AllSeen(Everything(ds), World(upAxis)))
  {
    var l := Planned(ds);
    PlannedShows(ds);
    PlannedIsExact(ds, write, loader.float);
    CountPlanned(ds);
    SceneIsEven(l.stamps, write);
    if l.stamps != [] {
      var doc, bin := MergedDocument(l, upAxis, write), SceneOf(l.stamps, write).buffer;
      LoadedDocument(loader, doc, bin);
      DocumentRead(l, upAxis, OldLayer(ds), NewLayer(ds), ChangeLayer(ds), write, loader.float);
    }
  }

  lemma {:induction false} CountPlanned(ds: seq<ElementDelta>)
    ensures |Planned(ds).stamps| == |Everything(ds)|
  {
    if ds != [] {
      CountPlanned(ds[..|ds| - 1]);
    }
  }

  // ----------------------------------------------------- where the vertices land

  function Vertex(v: seq<real>, k: nat): Vec3
    requires 3 * k + 3 <= |v|
  {
    (v[3 * k], v[3 * k + 1], v[3 * k + 2])
  }

  lemma {:induction false} PlacedVertex(world: Matrix4, v: seq<real>, k: nat)
    requires 3 * k + 3 <= |v|
    ensures 3 * k + 3 <= |Placed(world, v)| && Vertex(Placed(world, v), k) == Apply(world, Vertex(v, k))
  {
    var p := Apply(world, (v[0], v[1], v[2]));
    assert Placed(world, v) == [p.0, p.1, p.2] + Placed(world, v[3..]);
    if k > 0 {
      PlacedVertex(world, v[3..], k - 1);
    }
  }

  lemma {:induction false} PlacedSize(world: Matrix4, v: seq<real>)
    requires |v| % 3 == 0
    ensures |Placed(world, v)| == |v|
  {
    if |v| >= 3 {
      PlacedSize(world, v[3..]);
    }
  }

  lemma {:induction false} SameVertices(v: seq<real>, w: seq<real>)
    requires |v| % 3 == 0 && |w| == |v| && forall k: nat :: 3 * k + 3 <= |v| ==> Vertex(w, k) == Vertex(v, k)
    ensures w == v
  {
    forall i | 0 <= i < |v| ensures w[i] == v[i] {
      assert Vertex(w, i / 3) == Vertex(v, i / 3);
      assert i == 3 * (i / 3) + i % 3;
    }
  }

  // A Y-up model comes back as it was.
  lemma {:induction false} YUpKeepsVertices(v: seq<real>, upAxis: string)
    requires |v| % 3 == 0 && upAxis != "z" && upAxis != "Z"
    ensures Placed(World(upAxis), v) == v
  {
    var w := Placed(IDENTITY4, v);
    PlacedSize(IDENTITY4, v);
    forall k: nat | 3 * k + 3 <= |v| ensures Vertex(w, k) == Vertex(v, k) {
      PlacedVertex(IDENTITY4, v, k);
      IdentityKeeps(Vertex(v, k));
    }
    SameVertices(v, w);
  }

  // A mesh of whole triples with faces, as it was placed.
  function AsPlaced(st: Stamp): Element {
    Element("", "", st.name, "mesh", st.element.verts, st.element.faces)
  }

  lemma {:induction false} YUpSeenAsPlaced(st: Stamp, upAxis: string)
    requires Triples(st.element) && st.element.faces != [] && upAxis != "z" && upAxis != "Z"
    ensures Seen(st, World(upAxis)) == AsPlaced(st)
  {
    assert WholeTriples(st.element.verts) == st.element.verts;
    YUpKeepsVertices(st.element.verts, upAxis);
  }

  // How far the quaternion's decimal literal is from turning by a right angle.
  const TILT := 2.0 * HALF_TURN * HALF_TURN - 1.0

  lemma {:induction false} TiltIsTiny()
    ensures 0.0 < TILT < 0.0000000000000003
  {
  }

  lemma {:induction false} ZUpMatrix()
    ensures Local(Z_UP_TO_Y_UP)
            == [1.0, 0.0, 0.0, 0.0, 0.0, -TILT, -1.0 - TILT, 0.0, 0.0, 1.0 + TILT, -TILT, 0.0, 0.0, 0.0, 0.0, 1.0]
  {
    var r := Rotation((-HALF_TURN, 0.0, 0.0, HALF_TURN));
    assert Scaling((1.0, 1.0, 1.0)) == IDENTITY4 && Translation((0.0, 0.0, 0.0)) == IDENTITY4;
    TimesIdentity(r);
  }

  // A Z-up model comes back turned over: (x, y, z) lands on (x, z, -y) but for the tilt,
  // so exactly there only on the axis the model turns about.
  lemma {:induction false} ZUpTurnsVertices(v: seq<real>, upAxis: string, k: nat)
    requires |v| % 3 == 0 && (upAxis == "z" || upAxis == "Z") && 3 * k + 3 <= |v|
    ensures |Placed(World(upAxis), v)| == |v|
    ensures var (x, y, z) := Vertex(v, k);
            && Vertex(Placed(World(upAxis), v), k) == (x, z + TILT * (z - y), -y - TILT * (y + z))
            && (Vertex(Placed(World(upAxis), v), k) == (x, z, -y) <==> y == 0.0 && z == 0.0)
  {
    PlacedSize(World(upAxis), v);
    PlacedVertex(World(upAxis), v, k);
    TurnedVertex(Vertex(v, k));
    TiltedOnlyOffAxis(Vertex(v, k).1, Vertex(v, k).2);
  }

  lemma {:induction false} TurnedVertex(p: Vec3)
    ensures Apply(Local(Z_UP_TO_Y_UP), p) == (p.0, p.2 + TILT * (p.2 - p.1), -p.1 - TILT * (p.1 + p.2))
  {
    ZUpMatrix();
    TurnedBy(TILT, p);
  }

  lemma {:induction false} TurnedBy(t: real, p: Vec3)
    ensures Apply([1.0, 0.0, 0.0, 0.0, 0.0, -t, -1.0 - t, 0.0, 0.0, 1.0 + t, -t, 0.0, 0.0, 0.0, 0.0, 1.0], p)
            == (p.0, p.2 + t * (p.2 - p.1), -p.1 - t * (p.1 + p.2))
  {
    var m := [1.0, 0.0, 0.0, 0.0, 0.0, -t, -1.0 - t, 0.0, 0.0, 1.0 + t, -t, 0.0, 0.0, 0.0, 0.0, 1.0];
    assert Coordinate(m, 0, p) == p.0;
    assert Coordinate(m, 1, p) == -t * p.1 + (1.0 + t) * p.2;
    assert Coordinate(m, 2, p) == (-1.0 - t) * p.1 + -t * p.2;
    TiltExpands(t, p.1, p.2);
  }

  lemma {:induction false} TiltExpands(t: real, y: real, z: real)
    ensures -t * y + (1.0 + t) * z == z + t * (z - y)
    ensures (-1.0 - t) * y + -t * z == -y - t * (y + z)
  {
  }

  lemma {:induction false} TiltedOnlyOffAxis(y: real, z: real)
    ensures z + TILT * (z - y) == z && -y - TILT * (y + z) == -y <==> y == 0.0 && z == 0.0
  {
  }
}
