/** The written document is well formed: its views tile the buffer on word boundaries,
    its accessors fill their views, and everything it refers to is there. */
module GlbLayout {
  import opened Wrappers
  import opened Bytes
  import opened Model3D
  import opened GeometryMatch
  import opened Gltf
  import opened MergedGlb
  import opened SceneStore
  import opened MergedLayers
  import Transforms

  // Word-aligned, in bounds, in order and apart.
  ghost predicate Tiled(views: seq<View>, size: nat) {
    && (forall i :: 0 <= i < |views| ==> views[i].byteOffset % 4 == 0 && views[i].byteOffset + views[i].byteLength <= size)
    && (forall i, j :: 0 <= i < j < |views| ==> views[i].byteOffset + views[i].byteLength <= views[j].byteOffset)
  }

  function ElementSize(a: Accessor): nat { ComponentSize(a.component) * ComponentCount(a.kind) }

  // The elements of an accessor fill its view.
  ghost predicate Fills(a: Accessor, v: View) {
    a.byteOffset == 0 && v.byteStride == 0 && v.buffer == 0 && a.count * ElementSize(a) == v.byteLength
  }

  ghost predicate Filled(accessors: seq<Accessor>, views: seq<View>) {
    |accessors| == |views| && forall i :: 0 <= i < |views| ==> accessors[i].view == Some(i) && Fills(accessors[i], views[i])
  }

  ghost predicate Refers(r: Option<nat>, n: nat) { r.Some? ==> r.value < n }

  ghost predicate MeshInRange(m: Mesh, n: nat) {
    forall k :: 0 <= k < |m.primitives| ==> Refers(m.primitives[k].position, n) && Refers(m.primitives[k].indices, n)
  }

  ghost predicate MeshesInRange(ms: seq<Mesh>, n: nat) {
    forall k :: 0 <= k < |ms| ==> MeshInRange(ms[k], n)
  }

  lemma {:induction false} TiledMore(s: Scene, data: seq<byte>, component: nat, count: nat, kind: string, bounds: Option<Bounds>)
    requires Tiled(s.views, |s.buffer|) && |s.buffer| % 4 == 0
    ensures var t := WithData(s, data, component, count, kind, bounds); Tiled(t.views, |t.buffer|)
  {
  }

  lemma {:induction false} FilledMore(s: Scene, data: seq<byte>, component: nat, count: nat, kind: string, bounds: Option<Bounds>)
    requires Filled(s.accessors, s.views) && count * (ComponentSize(component) * ComponentCount(kind)) == |data|
    ensures var t := WithData(s, data, component, count, kind, bounds); Filled(t.accessors, t.views)
  {
    var t := WithData(s, data, component, count, kind, bounds);
    assert Fills(t.accessors[|s.views|], t.views[|s.views|]);
  }

  ghost predicate Sound(s: Scene) {
    Tiled(s.views, |s.buffer|) && Filled(s.accessors, s.views) && MeshesInRange(s.meshes, |s.accessors|)
  }

  lemma {:induction false} DataKeepsSound(s: Scene, data: seq<byte>, component: nat, count: nat, kind: string, bounds: Option<Bounds>)
    requires Sound(s) && Even(s) && count * (ComponentSize(component) * ComponentCount(kind)) == |data|
    ensures Sound(WithData(s, data, component, count, kind, bounds))
  {
    TiledMore(s, data, component, count, kind, bounds);
    FilledMore(s, data, component, count, kind, bounds);
    MeshesStayInRange(s.meshes, |s.accessors|, |s.accessors| + 1);
  }

  lemma {:induction false} MeshesStayInRange(ms: seq<Mesh>, n: nat, n': nat)
    requires MeshesInRange(ms, n) && n <= n'
    ensures MeshesInRange(ms, n')
  {
    forall k | 0 <= k < |ms| ensures MeshInRange(ms[k], n') {
      assert MeshInRange(ms[k], n);
    }
  }

  lemma {:induction false} GeometryKeepsSound(s: Scene, e: Element, write: FloatWriter)
    requires Sound(s) && Even(s) && Indexable(e.faces) && Triples(e)
    ensures Sound(WithGeometry(s, e, write))
    ensures MeshInRange(Mesh([NewPrimitive(s, e)]), |WithGeometry(s, e, write).accessors|)
  {
    var positions := Packed(Coordinates(e.verts, write));
    var s1 := WithData(s, positions, POSITION_TYPE, |e.verts| / 3, "VEC3", Box(e.verts));
    assert |e.verts| / 3 * (4 * 3) == 4 * |e.verts|;
    DataKeepsSound(s, positions, POSITION_TYPE, |e.verts| / 3, "VEC3", Box(e.verts));
    DataIsStored(s, positions, POSITION_TYPE, |e.verts| / 3, "VEC3", Box(e.verts));
    if e.faces != [] {
      DataKeepsSound(s1, Packed(FaceWords(e.faces)), INDEX_TYPE, |e.faces|, "SCALAR", None);
    }
  }

  lemma {:induction false} MeshKeepsSound(s: Scene, st: Stamp, write: FloatWriter)
    requires Sound(s) && Even(s) && Indexable(st.element.faces) && Triples(st.element)
    ensures Sound(WithMesh(s, st.element, st.name, write))
  {
    var t, g := WithMesh(s, st.element, st.name, write), WithGeometry(s, st.element, write);
    GeometryKeepsSound(s, st.element, write);
    assert g.meshes == s.meshes && g.nodes == s.nodes;
    assert t == g.(meshes := g.meshes + [Mesh([NewPrimitive(s, st.element)])],
                   nodes := g.nodes + [Node(st.name, Some(|g.meshes|), [], Transforms.AT_REST)]);
  }

  ghost predicate StampsTriple(stamps: seq<Stamp>) {
    forall k :: 0 <= k < |stamps| ==> Triples(stamps[k].element)
  }

  lemma {:induction false} SceneIsSound(stamps: seq<Stamp>, write: FloatWriter)
    requires StampsWritable(stamps) && StampsTriple(stamps)
    ensures Sound(SceneOf(stamps, write))
  {
    if stamps != [] {
      var init, last := stamps[..|stamps| - 1], stamps[|stamps| - 1];
      SceneIsSound(init, write);
      SceneIsEven(init, write);
      MeshKeepsSound(SceneOf(init, write), last, write);
    }
  }

  // A node's mesh is there, and its children come before it.
  ghost predicate NodeInOrder(doc: Document, i: nat)
    requires i < |doc.nodes|
  {
    Refers(doc.nodes[i].mesh, |doc.meshes|) && MergedLayers.InRange(doc.nodes[i].children, i)
  }

  ghost predicate RootsInRange(doc: Document) {
    doc.scene < |doc.scenes| && doc.scenes[doc.scene].Some? && MergedLayers.InRange(doc.scenes[doc.scene].value, |doc.nodes|)
  }

  ghost predicate WellFormed(doc: Document) {
    && |doc.buffers| == 1 && doc.buffers[0].Embedded? && Tiled(doc.views, doc.buffers[0].byteLength)
    && Filled(doc.accessors, doc.views) && MeshesInRange(doc.meshes, |doc.accessors|)
    && (forall i :: 0 <= i < |doc.nodes| ==> NodeInOrder(doc, i))
    && RootsInRange(doc)
  }

  lemma {:induction false} NodesInOrder(l: Layers, upAxis: string, write: FloatWriter)
    requires StampsWritable(l.stamps) && Separate(l)
    ensures var doc := MergedDocument(l, upAxis, write); forall i :: 0 <= i < |doc.nodes| ==> NodeInOrder(doc, i)
  {
    var doc, n := MergedDocument(l, upAxis, write), |l.stamps|;
    NodeCount(l.stamps, write);
    forall i | 0 <= i < |doc.nodes| ensures NodeInOrder(doc, i) {
      if i < n {
        SceneHolds(l.stamps, i, write);
      } else if i < n + 3 {
        assert doc.nodes[i] == GroupNodes(l)[i - n];
      } else {
        assert doc.nodes[i] == RootNode(n);
      }
    }
  }

  lemma {:induction false} PlannedTriples(ds: seq<ElementDelta>)
    requires forall k :: 0 <= k < |ds| ==> (ds[k].was.Some? ==> Triples(ds[k].was.value)) && (ds[k].now.Some? ==> Triples(ds[k].now.value))
    ensures StampsTriple(Planned(ds).stamps)
  {
    if ds != [] {
      PlannedTriples(ds[..|ds| - 1]);
    }
  }

  lemma {:induction false} SoundDocument(doc: Document, s: Scene)
    requires Sound(s) && doc.views == s.views && doc.accessors == s.accessors && doc.meshes == s.meshes
    requires doc.buffers == [Embedded(|s.buffer|)] && RootsInRange(doc)
    requires forall i :: 0 <= i < |doc.nodes| ==> NodeInOrder(doc, i)
    ensures WellFormed(doc)
  {
  }

  lemma {:induction false} RootsAreThere(l: Layers, upAxis: string, write: FloatWriter)
    requires StampsWritable(l.stamps)
    ensures RootsInRange(MergedDocument(l, upAxis, write))
  {
    NodeCount(l.stamps, write);
  }

  // Every document the writer produces from elements of whole triples is well formed.
  lemma {:induction false} MergedIsWellFormed(ds: seq<ElementDelta>, upAxis: string, write: FloatWriter)
    requires Writable(ds) && StampsWritable(Planned(ds).stamps)
    requires forall k :: 0 <= k < |ds| ==> (ds[k].was.Some? ==> Triples(ds[k].was.value)) && (ds[k].now.Some? ==> Triples(ds[k].now.value))
    ensures WellFormed(MergedDocument(Planned(ds), upAxis, write))
  {
    var l := Planned(ds);
    PlannedTriples(ds);
    PlannedShows(ds);
    SceneIsSound(l.stamps, write);
    NodesInOrder(l, upAxis, write);
    RootsAreThere(l, upAxis, write);
    SoundDocument(MergedDocument(l, upAxis, write), SceneOf(l.stamps, write));
  }
}
