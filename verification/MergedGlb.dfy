/** The writer: one document holding both versions' geometry, every element placed
    under one of three groups. */
module MergedGlb {
  import opened Wrappers
  import opened Bytes
  import opened Decimal
  import opened GlbContainer
  import opened JsonText
  import opened Transforms
  import opened Model3D
  import opened GeometryMatch
  import opened Gltf

  // How a coordinate becomes a 32-bit word.
  type FloatWriter = real -> word

  const POSITION_TYPE := 5126
  const INDEX_TYPE := 5125

  const ASSET := Asset("2.0", "difference_service")

  // The parts of the document and the binary buffer while they are being built.
  datatype Scene = Scene(buffer: seq<byte>, views: seq<View>, accessors: seq<Accessor>, meshes: seq<Mesh>, nodes: seq<Node>)

  const EMPTY_SCENE := Scene([], [], [], [], [])

  function Coordinates(v: seq<real>, float: FloatWriter): (w: seq<word>)
    ensures |w| == |v|
  {
    seq(|v|, k requires 0 <= k < |v| => float(v[k]))
  }

  // Vertex indices are written as unsigned words.
  predicate Indexable(faces: seq<int>) {
    forall k :: 0 <= k < |faces| ==> 0 <= faces[k] < WORD
  }

  function FaceWords(faces: seq<int>): (w: seq<word>)
    requires Indexable(faces)
    ensures |w| == |faces|
  {
    seq(|faces|, k requires 0 <= k < |faces| => faces[k])
  }

  // Bounds made to take in one more coordinate.
  function Widened(b: Bounds, axis: nat, x: real): Bounds
    requires axis < 3
  {
    Bounds(if x < Along(b.low, axis) then With(b.low, axis, x) else b.low, if x > Along(b.high, axis) then With(b.high, axis, x) else b.high)
  }

  function With(v: Vec3, axis: nat, x: real): Vec3 {
    if axis == 0 then (x, v.1, v.2) else if axis == 1 then (v.0, x, v.2) else (v.0, v.1, x)
  }

  // The least and greatest of the first `n` coordinates on each axis.
  function BoxUpTo(v: seq<real>, n: nat): Bounds
    requires 3 <= n <= |v|
  {
    if n == 3 then Bounds((v[0], v[1], v[2]), (v[0], v[1], v[2])) else Widened(BoxUpTo(v, n - 1), (n - 1) % 3, v[n - 1])
  }

  function Box(v: seq<real>): Option<Bounds> { if |v| < 3 then None else Some(BoxUpTo(v, |v|)) }

  // One more view and accessor, at the end of the buffer.
  function WithData(s: Scene, data: seq<byte>, component: nat, count: nat, kind: string, bounds: Option<Bounds>): Scene {
    s.(buffer := Padded(s.buffer + data, 0),
       views := s.views + [View(0, |s.buffer|, |data|, 0)],
       accessors := s.accessors + [Accessor(Some(|s.views|), 0, component, count, kind, bounds)])
  }

  predicate HasMesh(e: Element) { |e.verts| >= 3 }

  function WithMesh(s: Scene, e: Element, name: string, float: FloatWriter): Scene
    requires Indexable(e.faces)
  {
    var s1 := WithData(s, Packed(Coordinates(e.verts, float)), POSITION_TYPE, |e.verts| / 3, "VEC3", Box(e.verts));
    var s2 := if e.faces == [] then s1 else WithData(s1, Packed(FaceWords(e.faces)), INDEX_TYPE, |e.faces|, "SCALAR", None);
    var p := Primitive(Some(|s.accessors|), if e.faces == [] then None else Some(|s.accessors| + 1));
    s2.(meshes := s.meshes + [Mesh([p])], nodes := s.nodes + [Node(name, Some(|s.meshes|), [], AT_REST)])
  }

  // What one call adds, and the number of its node; an element without a vertex adds
  // nothing.
  function AfterMesh(s: Scene, e: Element, name: string, float: FloatWriter): (r: (Scene, Option<nat>))
    requires Indexable(e.faces)
  {
    if HasMesh(e) then (WithMesh(s, e, name, float), Some(|s.nodes|)) else (s, None)
  }

  // The lists the writer appends to.
  class SceneBuilder {
    var buffer: seq<byte>
    var views: seq<View>
    var accessors: seq<Accessor>
    var meshes: seq<Mesh>
    var nodes: seq<Node>

    function State(): Scene
      reads this
    {
      Scene(buffer, views, accessors, meshes, nodes)
    }

    constructor ()
      ensures State() == EMPTY_SCENE
    {
      buffer, views, accessors, meshes, nodes := [], [], [], [], [];
    }

    method AddData(data: seq<byte>, component: nat, count: nat, kind: string, bounds: Option<Bounds>) returns (accessor: nat)
      modifies this
      ensures State() == WithData(old(State()), data, component, count, kind, bounds)
      ensures accessor == |old(accessors)|
    {
      var offset := |buffer|;
      buffer := buffer + data;
      buffer := Pad(buffer, 0);
      views := views + [View(0, offset, |data|, 0)];
      accessors := accessors + [Accessor(Some(|views| - 1), 0, component, count, kind, bounds)];
      accessor := |accessors| - 1;
    }

    method AddMesh(e: Element, name: string, float: FloatWriter) returns (node: Option<nat>)
      requires Indexable(e.faces)
      modifies this
      ensures (State(), node) == AfterMesh(old(State()), e, name, float)
    {
      if e.verts == [] {
        return None;
      }
      if |e.verts| / 3 == 0 {
        return None;
      }
      var position := AddData(Packed(Coordinates(e.verts, float)), POSITION_TYPE, |e.verts| / 3, "VEC3", Box(e.verts));
      var indices: Option<nat> := None;
      if e.faces != [] {
        var i := AddData(Packed(FaceWords(e.faces)), INDEX_TYPE, |e.faces|, "SCALAR", None);
        indices := Some(i);
      }
      meshes := meshes + [Mesh([Primitive(Some(position), indices)])];
      nodes := nodes + [Node(name, Some(|meshes| - 1), [], AT_REST)];
      node := Some(|nodes| - 1);
    }
  }

  // ------------------------------------------------------------- what goes where

  // A mesh to be written: an element under a node name.
  datatype Stamp = Stamp(element: Element, name: string)

  // The meshes in writing order, and the node numbers of each group.
  datatype Layers = Layers(stamps: seq<Stamp>, older: seq<nat>, newer: seq<nat>, changed: seq<nat>)

  const NO_LAYERS := Layers([], [], [], [])

  function Subject(d: ElementDelta): Option<Element> {
    if d.now.Some? then d.now else d.was
  }

  // The delta's identity in the output; its number stands in for a missing id.
  function ElementId(d: ElementDelta, index: nat): string {
    match Subject(d)
    case None => "e" + Dec(index)
    case Some(e) => if e.stableId != "" then e.stableId else if e.localId != "" then e.localId else "e" + Dec(index)
  }

  // A change that is visible: a property-only edit is not.
  predicate HasVisualDelta(d: ElementDelta) {
    match d.state
    case Unchanged => false
    case Modified => d.change == GeometryChange
    case _ => true
  }

  function Queued(e: Option<Element>, stamps: seq<Stamp>, name: string): seq<Stamp> {
    if e.Some? && HasMesh(e.value) then stamps + [Stamp(e.value, name)] else stamps
  }

  function Listed(e: Option<Element>, n: nat, group: seq<nat>): seq<nat> {
    if e.Some? && HasMesh(e.value) then group + [n] else group
  }

  // What the difference group shows of a delta.
  function VisibleChange(d: ElementDelta): Option<Element> {
    if HasVisualDelta(d) then Subject(d) else None
  }

  // A delta's old side, then its new side, then its visible change.
  function WithOld(l: Layers, d: ElementDelta, eid: string): Layers {
    l.(stamps := Queued(d.was, l.stamps, eid + "|old"), older := Listed(d.was, |l.stamps|, l.older))
  }

  function WithNew(l: Layers, d: ElementDelta, eid: string): Layers {
    l.(stamps := Queued(d.now, l.stamps, eid + "|new"), newer := Listed(d.now, |l.stamps|, l.newer))
  }

  function WithChange(l: Layers, d: ElementDelta, eid: string): Layers {
    l.(stamps := Queued(VisibleChange(d), l.stamps, eid + "|diff"), changed := Listed(VisibleChange(d), |l.stamps|, l.changed))
  }

  function WithDelta(l: Layers, d: ElementDelta, index: nat): Layers {
    var eid := ElementId(d, index);
    WithChange(WithNew(WithOld(l, d, eid), d, eid), d, eid)
  }

  function Planned(ds: seq<ElementDelta>): Layers {
    if ds == [] then NO_LAYERS else WithDelta(Planned(ds[..|ds| - 1]), ds[|ds| - 1], |ds| - 1)
  }

  predicate Writable(ds: seq<ElementDelta>) {
    forall k :: 0 <= k < |ds| ==>
      (ds[k].was.Some? ==> Indexable(ds[k].was.value.faces)) && (ds[k].now.Some? ==> Indexable(ds[k].now.value.faces))
  }

  predicate StampsWritable(stamps: seq<Stamp>) {
    forall k :: 0 <= k < |stamps| ==> HasMesh(stamps[k].element) && Indexable(stamps[k].element.faces)
  }

  // The scene after all the meshes are written.
  function SceneOf(stamps: seq<Stamp>, float: FloatWriter): Scene
    requires StampsWritable(stamps)
  {
    if stamps == [] then EMPTY_SCENE
    else
      var last := stamps[|stamps| - 1];
      WithMesh(SceneOf(stamps[..|stamps| - 1], float), last.element, last.name, float)
  }

  // -90 degrees about X, as a quaternion: the literal nearest to sqrt(1/2).
  const HALF_TURN := 0.7071067811865476

  const Z_UP_TO_Y_UP := Trs((0.0, 0.0, 0.0), (-HALF_TURN, 0.0, 0.0, HALF_TURN), (1.0, 1.0, 1.0))

  predicate ZUp(axis: string) { axis == "z" || axis == "Z" }

  function GroupNodes(l: Layers): seq<Node> {
    [Node("old", None, l.older, AT_REST), Node("new", None, l.newer, AT_REST), Node("difference", None, l.changed, AT_REST)]
  }

  function RootNode(n: nat): Node {
    Node("z-up-to-y-up", None, [n, n + 1, n + 2], Z_UP_TO_Y_UP)
  }

  // The document: the meshes' nodes, the three groups, and for a Z-up model the one
  // node above them that turns it over.
  function MergedDocument(l: Layers, upAxis: string, float: FloatWriter): Document
    requires StampsWritable(l.stamps)
  {
    var s := SceneOf(l.stamps, float);
    var n := |s.nodes|;
    var nodes := s.nodes + GroupNodes(l);
    Document(ASSET, 0, [Some(if ZUp(upAxis) then [n + 3] else [n, n + 1, n + 2])],
             if ZUp(upAxis) then nodes + [RootNode(n)] else nodes,
             s.meshes, s.accessors, s.views, [Embedded(|s.buffer|)])
  }

  lemma {:induction false} PlannedIsWritable(ds: seq<ElementDelta>)
    requires Writable(ds)
    ensures StampsWritable(Planned(ds).stamps)
  {
    if ds != [] {
      PlannedIsWritable(ds[..|ds| - 1]);
    }
  }

  // What is written, if it fits the container; nothing when no mesh was placed.
  function Merged(ds: seq<ElementDelta>, upAxis: string, codec: Codec<Document>, float: FloatWriter): Option<seq<byte>>
    requires Writable(ds) && Fits(ds, upAxis, codec, float)
  {
    PlannedIsWritable(ds);
    var l := Planned(ds);
    if l.stamps == [] then None
    else Some(PackedGlb(codec.encode(MergedDocument(l, upAxis, float)), SceneOf(l.stamps, float).buffer))
  }

  ghost predicate Fits(ds: seq<ElementDelta>, upAxis: string, codec: Codec<Document>, float: FloatWriter)
    requires Writable(ds)
  {
    PlannedIsWritable(ds);
    TotalSize(codec.encode(MergedDocument(Planned(ds), upAxis, float)), SceneOf(Planned(ds).stamps, float).buffer) < WORD
  }

  lemma {:induction false} NodeCount(stamps: seq<Stamp>, float: FloatWriter)
    requires StampsWritable(stamps)
    ensures |SceneOf(stamps, float).nodes| == |stamps| && |SceneOf(stamps, float).meshes| == |stamps|
  {
    if stamps != [] {
      NodeCount(stamps[..|stamps| - 1], float);
    }
  }

  lemma {:induction false} SceneOfOneMore(stamps: seq<Stamp>, st: Stamp, float: FloatWriter)
    requires StampsWritable(stamps + [st]) && StampsWritable(stamps)
    ensures SceneOf(stamps + [st], float) == WithMesh(SceneOf(stamps, float), st.element, st.name, float)
  {
    assert (stamps + [st])[..|stamps|] == stamps;
  }

  lemma {:induction false} AppendStamp(stamps: seq<Stamp>, e: Element, name: string, float: FloatWriter)
    requires StampsWritable(stamps) && Indexable(e.faces)
    ensures StampsWritable(Queued(Some(e), stamps, name))
    ensures AfterMesh(SceneOf(stamps, float), e, name, float)
            == (SceneOf(Queued(Some(e), stamps, name), float), if HasMesh(e) then Some(|stamps|) else None)
  {
    if HasMesh(e) {
      NodeCount(stamps, float);
      SceneOfOneMore(stamps, Stamp(e, name), float);
    }
  }

  // Adds an element's mesh, if there is one to add, and lists its node in a group.
  method PlaceIn(builder: SceneBuilder, e: Option<Element>, name: string, group: seq<nat>, float: FloatWriter, ghost stamps: seq<Stamp>)
    returns (group': seq<nat>)
    requires StampsWritable(stamps) && builder.State() == SceneOf(stamps, float)
    requires e.Some? ==> Indexable(e.value.faces)
    modifies builder
    ensures StampsWritable(Queued(e, stamps, name)) && builder.State() == SceneOf(Queued(e, stamps, name), float)
    ensures group' == Listed(e, |stamps|, group)
  {
    group' := group;
    if e.Some? {
      AppendStamp(stamps, e.value, name, float);
      var node := builder.AddMesh(e.value, name, float);
      if node.Some? {
        group' := group + [node.value];
      }
    }
  }

  // The groups and the scene around the meshes, packed.
  method Finish(builder: SceneBuilder, upAxis: string, codec: Codec<Document>, l: Layers, float: FloatWriter) returns (glb: seq<byte>)
    requires StampsWritable(l.stamps) && builder.State() == SceneOf(l.stamps, float)
    requires TotalSize(codec.encode(MergedDocument(l, upAxis, float)), SceneOf(l.stamps, float).buffer) < WORD
    ensures glb == PackedGlb(codec.encode(MergedDocument(l, upAxis, float)), SceneOf(l.stamps, float).buffer)
  {
    var n := |builder.nodes|;
    var nodes := builder.nodes;
    nodes := nodes + [Node("old", None, l.older, AT_REST), Node("new", None, l.newer, AT_REST), Node("difference", None, l.changed, AT_REST)];
    var roots := [n, n + 1, n + 2];
    if ZUp(upAxis) {
      nodes := nodes + [Node("z-up-to-y-up", None, roots, Z_UP_TO_Y_UP)];
      roots := [|nodes| - 1];
    }
    var doc := Document(ASSET, 0, [Some(roots)], nodes, builder.meshes, builder.accessors, builder.views, [Embedded(|builder.buffer|)]);
    assert doc == MergedDocument(l, upAxis, float);
    glb := PackGlb(codec.encode(doc), builder.buffer);
  }

  // The writer's loop over the deltas.
  method BuildMergedGltf(ds: seq<ElementDelta>, upAxis: string, codec: Codec<Document>, float: FloatWriter) returns (glb: Option<seq<byte>>)
    requires Writable(ds) && Fits(ds, upAxis, codec, float)
    ensures glb == Merged(ds, upAxis, codec, float)
  {
    PlannedIsWritable(ds);
    var builder := new SceneBuilder();
    var l := NO_LAYERS;
    for i := 0 to |ds|
      invariant l == Planned(ds[..i]) && StampsWritable(l.stamps)
      invariant builder.State() == SceneOf(l.stamps, float)
      invariant fresh(builder)
    {
      assert ds[..i + 1][..i] == ds[..i];
      l := PlaceDelta(builder, ds[i], i, l, float);
    }
    assert ds[..|ds|] == ds;
    NodeCount(l.stamps, float);
    if builder.nodes == [] {
      return None;
    }
    var bytes := Finish(builder, upAxis, codec, l, float);
    glb := Some(bytes);
  }

  // A delta's old side, its new side, and its visible change, each in its layer.
  method PlaceOld(builder: SceneBuilder, d: ElementDelta, eid: string, l: Layers, float: FloatWriter) returns (l': Layers)
    requires StampsWritable(l.stamps) && builder.State() == SceneOf(l.stamps, float)
    requires d.was.Some? ==> Indexable(d.was.value.faces)
    modifies builder
    ensures l' == WithOld(l, d, eid)
    ensures StampsWritable(l'.stamps) && builder.State() == SceneOf(l'.stamps, float)
  {
    var older := PlaceIn(builder, d.was, eid + "|old", l.older, float, l.stamps);
    l' := l.(stamps := Queued(d.was, l.stamps, eid + "|old"), older := older);
  }

  method PlaceNew(builder: SceneBuilder, d: ElementDelta, eid: string, l: Layers, float: FloatWriter) returns (l': Layers)
    requires StampsWritable(l.stamps) && builder.State() == SceneOf(l.stamps, float)
    requires d.now.Some? ==> Indexable(d.now.value.faces)
    modifies builder
    ensures l' == WithNew(l, d, eid)
    ensures StampsWritable(l'.stamps) && builder.State() == SceneOf(l'.stamps, float)
  {
    var newer := PlaceIn(builder, d.now, eid + "|new", l.newer, float, l.stamps);
    l' := l.(stamps := Queued(d.now, l.stamps, eid + "|new"), newer := newer);
  }

  method PlaceChange(builder: SceneBuilder, d: ElementDelta, eid: string, l: Layers, float: FloatWriter) returns (l': Layers)
    requires StampsWritable(l.stamps) && builder.State() == SceneOf(l.stamps, float)
    requires (d.was.Some? ==> Indexable(d.was.value.faces)) && (d.now.Some? ==> Indexable(d.now.value.faces))
    modifies builder
    ensures l' == WithChange(l, d, eid)
    ensures StampsWritable(l'.stamps) && builder.State() == SceneOf(l'.stamps, float)
  {
    var changed := PlaceIn(builder, VisibleChange(d), eid + "|diff", l.changed, float, l.stamps);
    l' := l.(stamps := Queued(VisibleChange(d), l.stamps, eid + "|diff"), changed := changed);
  }

  // Every element appears in the layers it belongs to.
  method PlaceDelta(builder: SceneBuilder, d: ElementDelta, i: nat, l: Layers, float: FloatWriter) returns (l': Layers)
    requires StampsWritable(l.stamps) && builder.State() == SceneOf(l.stamps, float)
    requires (d.was.Some? ==> Indexable(d.was.value.faces)) && (d.now.Some? ==> Indexable(d.now.value.faces))
    modifies builder
    ensures l' == WithDelta(l, d, i)
    ensures StampsWritable(l'.stamps) && builder.State() == SceneOf(l'.stamps, float)
  {
    var eid := ElementId(d, i);
    l' := PlaceOld(builder, d, eid, l, float);
    l' := PlaceNew(builder, d, eid, l', float);
    l' := PlaceChange(builder, d, eid, l', float);
  }
}
