/** What the writer has put into a scene stays readable while more is added. */
module SceneStore {
  import opened Wrappers
  import opened Bytes
  import opened GlbContainer
  import opened Transforms
  import opened Model3D
  import opened Gltf
  import opened MergedGlb

  // Everything in `s` is still where it was in `t`.
  ghost predicate Extends(s: Scene, t: Scene) {
    s.buffer <= t.buffer && s.views <= t.views && s.accessors <= t.accessors && s.meshes <= t.meshes && s.nodes <= t.nodes
  }

  // Views and accessors are numbered alike, meshes and nodes too, and the buffer ends
  // on a word boundary.
  ghost predicate Even(s: Scene) {
    |s.views| == |s.accessors| && |s.meshes| == |s.nodes| && |s.buffer| % 4 == 0
  }

  // Accessor `i` and its view describe these bytes.
  ghost predicate Stored(s: Scene, i: nat, data: seq<byte>, component: nat, count: nat, kind: string, bounds: Option<Bounds>) {
    && i < |s.accessors| && s.accessors[i] == Accessor(Some(i), 0, component, count, kind, bounds)
    && i < |s.views| && s.views[i] == View(0, s.views[i].byteOffset, |data|, 0)
    && At(s.buffer, s.views[i].byteOffset, data)
  }

  lemma {:induction false} StoredStays(s: Scene, t: Scene, i: nat, data: seq<byte>, component: nat, count: nat, kind: string, bounds: Option<Bounds>)
    requires Stored(s, i, data, component, count, kind, bounds) && Extends(s, t)
    ensures Stored(t, i, data, component, count, kind, bounds)
  {
    var o := s.views[i].byteOffset;
    assert t.views[i] == s.views[i] && t.accessors[i] == s.accessors[i];
    assert t.buffer[o..o + |data|] == s.buffer[o..o + |data|];
  }

  lemma {:induction false} DataIsStored(s: Scene, data: seq<byte>, component: nat, count: nat, kind: string, bounds: Option<Bounds>)
    requires Even(s)
    ensures var t := WithData(s, data, component, count, kind, bounds);
            Extends(s, t) && Even(t) && Stored(t, |s.accessors|, data, component, count, kind, bounds)
  {
    var t := WithData(s, data, component, count, kind, bounds);
    var o := |s.buffer|;
    assert s.buffer <= s.buffer + data;
    assert t.buffer[o..o + |data|] == (s.buffer + data)[o..o + |data|] == data;
  }

  // Node `k` carries the stamp's mesh.
  ghost predicate Holds(s: Scene, k: nat, st: Stamp, float: FloatWriter)
    requires Indexable(st.element.faces)
  {
    && k < |s.nodes| && s.nodes[k] == Node(st.name, Some(k), [], AT_REST)
    && k < |s.meshes| && |s.meshes[k].primitives| == 1
    && HoldsPrimitive(s, s.meshes[k].primitives[0], st.element, float)
  }

  ghost predicate HoldsPrimitive(s: Scene, p: Primitive, e: Element, float: FloatWriter)
    requires Indexable(e.faces)
  {
    && p.position.Some?
    && Stored(s, p.position.value, Packed(Coordinates(e.verts, float)), POSITION_TYPE, |e.verts| / 3, "VEC3", Box(e.verts))
    && (e.faces == [] ==> p.indices.None?)
    && (e.faces != [] ==> p.indices.Some? && Stored(s, p.indices.value, Packed(FaceWords(e.faces)), INDEX_TYPE, |e.faces|, "SCALAR", None))
  }

  lemma {:induction false} PrimitiveStays(s: Scene, t: Scene, p: Primitive, e: Element, float: FloatWriter)
    requires Indexable(e.faces) && HoldsPrimitive(s, p, e, float) && Extends(s, t)
    ensures HoldsPrimitive(t, p, e, float)
  {
    StoredStays(s, t, p.position.value, Packed(Coordinates(e.verts, float)), POSITION_TYPE, |e.verts| / 3, "VEC3", Box(e.verts));
    if e.faces != [] {
      StoredStays(s, t, p.indices.value, Packed(FaceWords(e.faces)), INDEX_TYPE, |e.faces|, "SCALAR", None);
    }
  }

  lemma {:induction false} HoldsStays(s: Scene, t: Scene, k: nat, st: Stamp, float: FloatWriter)
    requires Indexable(st.element.faces) && Holds(s, k, st, float) && Extends(s, t)
    ensures Holds(t, k, st, float)
  {
    PrimitiveStays(s, t, s.meshes[k].primitives[0], st.element, float);
    assert t.nodes[k] == s.nodes[k] && t.meshes[k] == s.meshes[k];
  }

  // The buffers of one mesh: positions, then indices if there are faces.
  function WithGeometry(s: Scene, e: Element, float: FloatWriter): Scene
    requires Indexable(e.faces)
  {
    var s1 := WithData(s, Packed(Coordinates(e.verts, float)), POSITION_TYPE, |e.verts| / 3, "VEC3", Box(e.verts));
    if e.faces == [] then s1 else WithData(s1, Packed(FaceWords(e.faces)), INDEX_TYPE, |e.faces|, "SCALAR", None)
  }

  function NewPrimitive(s: Scene, e: Element): Primitive {
    Primitive(Some(|s.accessors|), if e.faces == [] then None else Some(|s.accessors| + 1))
  }

  lemma {:induction false} GeometryIsStored(s: Scene, e: Element, float: FloatWriter)
    requires Even(s) && Indexable(e.faces)
    ensures var t := WithGeometry(s, e, float);
            Extends(s, t) && Even(t) && HoldsPrimitive(t, NewPrimitive(s, e), e, float)
  {
    var positions := Packed(Coordinates(e.verts, float));
    var s1 := WithData(s, positions, POSITION_TYPE, |e.verts| / 3, "VEC3", Box(e.verts));
    DataIsStored(s, positions, POSITION_TYPE, |e.verts| / 3, "VEC3", Box(e.verts));
    if e.faces != [] {
      var t := WithData(s1, Packed(FaceWords(e.faces)), INDEX_TYPE, |e.faces|, "SCALAR", None);
      DataIsStored(s1, Packed(FaceWords(e.faces)), INDEX_TYPE, |e.faces|, "SCALAR", None);
      StoredStays(s1, t, |s.accessors|, positions, POSITION_TYPE, |e.verts| / 3, "VEC3", Box(e.verts));
    }
  }

  lemma {:induction false} MeshIsHeld(s: Scene, st: Stamp, float: FloatWriter)
    requires Even(s) && Indexable(st.element.faces)
    ensures var t := WithMesh(s, st.element, st.name, float);
            Extends(s, t) && Even(t) && Holds(t, |s.nodes|, st, float)
  {
    var t := WithMesh(s, st.element, st.name, float);
    var g := WithGeometry(s, st.element, float);
    GeometryIsStored(s, st.element, float);
    assert t == g.(meshes := s.meshes + [Mesh([NewPrimitive(s, st.element)])],
                   nodes := s.nodes + [Node(st.name, Some(|s.meshes|), [], AT_REST)]);
    assert g.meshes == s.meshes && g.nodes == s.nodes;
    assert Extends(g, t);
    PrimitiveStays(g, t, NewPrimitive(s, st.element), st.element, float);
  }

  lemma {:induction false} SceneIsEven(stamps: seq<Stamp>, float: FloatWriter)
    requires StampsWritable(stamps)
    ensures Even(SceneOf(stamps, float))
  {
    if stamps != [] {
      var init, last := stamps[..|stamps| - 1], stamps[|stamps| - 1];
      SceneIsEven(init, float);
      MeshIsHeld(SceneOf(init, float), last, float);
    }
  }

  // The finished scene holds every stamp under its number.
  lemma {:induction false} SceneHolds(stamps: seq<Stamp>, k: nat, float: FloatWriter)
    requires StampsWritable(stamps) && k < |stamps|
    ensures Holds(SceneOf(stamps, float), k, stamps[k], float)
  {
    var init, last := stamps[..|stamps| - 1], stamps[|stamps| - 1];
    SceneIsEven(init, float);
    NodeCount(init, float);
    MeshIsHeld(SceneOf(init, float), last, float);
    if k < |init| {
      SceneHolds(init, k, float);
      HoldsStays(SceneOf(init, float), SceneOf(stamps, float), k, stamps[k], float);
    }
  }
}
