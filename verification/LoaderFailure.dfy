/** When the loader stops: only an accessor in use that names a missing buffer view makes
    it, whatever else is wrong with the file. */
module LoaderFailure {
  import opened Wrappers
  import opened Bytes
  import opened Transforms
  import opened Gltf
  import opened SceneWalk

  // An accessor that holds something, of known types, and names a view that is not there.
  predicate Dangling(doc: Document, index: nat) {
    && index < |doc.accessors|
    && var a := doc.accessors[index];
       && ComponentSize(a.component) > 0 && ComponentCount(a.kind) > 0 && a.count > 0
       && a.view.Some? && a.view.value >= |doc.views|
  }

  // The indices of a primitive are looked at only beside a position.
  predicate Stops(doc: Document, p: Primitive) {
    p.position.Some? && (Dangling(doc, p.position.value) || (p.indices.Some? && Dangling(doc, p.indices.value)))
  }

  predicate NodeStops(doc: Document, i: nat) {
    && i < |doc.nodes| && doc.nodes[i].mesh.Some? && doc.nodes[i].mesh.value < |doc.meshes|
    && exists p :: p in doc.meshes[doc.nodes[i].mesh.value].primitives && Stops(doc, p)
  }

  lemma {:induction false} AccessorStops(doc: Document, binary: seq<byte>, index: nat, float: FloatReader)
    ensures ReadAccessor(doc, binary, index, float).None? <==> Dangling(doc, index)
  {
  }

  lemma {:induction false} PrimitiveStops(doc: Document, binary: seq<byte>, world: Matrix4, g: Geometry, p: Primitive, float: FloatReader)
    ensures WithPrimitive(doc, binary, world, g, p, float).None? <==> Stops(doc, p)
  {
    if p.position.Some? {
      AccessorStops(doc, binary, p.position.value, float);
    }
    if p.indices.Some? {
      AccessorStops(doc, binary, p.indices.value, float);
    }
  }

  lemma {:induction false} MeshStops(doc: Document, binary: seq<byte>, world: Matrix4, ps: seq<Primitive>, float: FloatReader)
    ensures MeshGeometry(doc, binary, world, ps, float).None? <==> exists p :: p in ps && Stops(doc, p)
  {
    if ps != [] {
      var init, last := ps[..|ps| - 1], ps[|ps| - 1];
      MeshStops(doc, binary, world, init, float);
      assert ps == init + [last];
      var g := MeshGeometry(doc, binary, world, init, float);
      if g.Some? {
        PrimitiveStops(doc, binary, world, g.value, last, float);
      }
    }
  }

  lemma {:induction false} ElementStops(doc: Document, binary: seq<byte>, f: Frame, float: FloatReader)
    ensures NodeElements(doc, binary, f, float).None? <==> NodeStops(doc, f.0)
  {
    if f.0 < |doc.nodes| && doc.nodes[f.0].mesh.Some? && doc.nodes[f.0].mesh.value < |doc.meshes| {
      MeshStops(doc, binary, f.1, doc.meshes[doc.nodes[f.0].mesh.value].primitives, float);
    }
  }

  lemma {:induction false} FramesStop(doc: Document, binary: seq<byte>, fs: seq<Frame>, float: FloatReader)
    ensures FrameElements(doc, binary, fs, float).None? <==> exists i :: i in Indices(fs) && NodeStops(doc, i)
  {
    if fs != [] {
      var init, last := fs[..|fs| - 1], fs[|fs| - 1];
      FramesStop(doc, binary, init, float);
      ElementStops(doc, binary, last, float);
      assert Indices(fs) == Indices(init) + [last.0];
    }
  }

  // Some node the scene reaches stops the loader.
  ghost predicate SceneStops(doc: Document) { exists i :: Reachable(doc, i) && NodeStops(doc, i) }

  lemma {:induction false} WalkStops(doc: Document, binary: seq<byte>, float: FloatReader)
    ensures FrameElements(doc, binary, Visited(doc), float).None? <==> SceneStops(doc)
  {
    WalkIsExact(doc);
    FramesStop(doc, binary, Visited(doc), float);
  }

  // The loader stops exactly when the document reads and a node the scene reaches carries
  // a mesh that stops it.
  lemma {:induction false} LoaderStopsExactly(l: Loader, data: seq<byte>)
    ensures Gltf.Parsed(l, data).None? <==>
            var doc := LoadDocument(l, data).0; doc.Some? && SceneStops(doc.value)
  {
    var (doc, binary) := LoadDocument(l, data);
    if doc.Some? {
      WalkStops(doc.value, binary, l.float);
    }
  }

  // One node, one triangle's positions, and no buffer view to find them in.
  const VIEWLESS := Document(Asset("2.0", ""), 0, [Some([0])], [Node("n", Some(0), [], AT_REST)], [Mesh([Primitive(Some(0), None)])],
                             [Accessor(Some(0), 0, 5126, 3, "VEC3", None)], [], [Embedded(0)])

  lemma {:induction false} ViewlessStops(l: Loader, data: seq<byte>)
    requires LoadDocument(l, data).0 == Some(VIEWLESS)
    ensures Gltf.Parsed(l, data).None?
  {
    assert Chain(VIEWLESS, [0]);
    assert Primitive(Some(0), None) in VIEWLESS.meshes[0].primitives;
    assert Reachable(VIEWLESS, 0) && NodeStops(VIEWLESS, 0);
    LoaderStopsExactly(l, data);
  }
}
