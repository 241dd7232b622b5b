/** What the walk makes of the meshes it meets: every element a scene yields, down to its
    vertices. */
module SceneElements {
  import opened Bytes
  import opened Indexing
  import opened Decimal
  import opened Transforms
  import opened Model3D
  import opened Gltf
  import opened SceneWalk

  // Flat coordinates three by three, a rest that is no whole vertex left out, and back.
  function VerticesOf(flat: seq<real>): seq<Vec3> {
    if |flat| < 3 then [] else [(flat[0], flat[1], flat[2])] + VerticesOf(flat[3..])
  }

  function Flat(vs: seq<Vec3>): seq<real> {
    if vs == [] then [] else [vs[0].0, vs[0].1, vs[0].2] + Flat(vs[1..])
  }

  lemma {:induction false} FlatConcat(a: seq<Vec3>, b: seq<Vec3>)
    ensures Flat(a + b) == Flat(a) + Flat(b)
  {
    if a == [] {
      assert a + b == b;
    } else {
      assert (a + b)[1..] == a[1..] + b;
      FlatConcat(a[1..], b);
    }
  }

  lemma {:induction false} FlatImageConcat(f: Vec3 -> Vec3, a: seq<Vec3>, b: seq<Vec3>)
    ensures Flat(MapSeq(f, a + b)) == Flat(MapSeq(f, a)) + Flat(MapSeq(f, b))
  {
    assert MapSeq(f, a + b) == MapSeq(f, a) + MapSeq(f, b);
    FlatConcat(MapSeq(f, a), MapSeq(f, b));
  }

  // The vertices of a mesh as its primitives' accessors give them.
  function PrimitiveVertices(doc: Document, binary: seq<byte>, p: Primitive, float: FloatReader): seq<Vec3> {
    if p.position.None? then []
    else
      match ReadAccessor(doc, binary, p.position.value, float)
      case None => []
      case Some(flat) => VerticesOf(flat)
  }

  function MeshVertices(doc: Document, binary: seq<byte>, ps: seq<Primitive>, float: FloatReader): seq<Vec3> {
    if ps == [] then []
    else MeshVertices(doc, binary, ps[..|ps| - 1], float) + PrimitiveVertices(doc, binary, ps[|ps| - 1], float)
  }

  function Under(world: Matrix4): Vec3 -> Vec3 { (v: Vec3) => Transforms.Apply(world, v) }

  lemma {:induction false} PlacedIsMapped(world: Matrix4, flat: seq<real>)
    ensures Placed(world, flat) == Flat(MapSeq(Under(world), VerticesOf(flat)))
    decreases |flat|
  {
    if |flat| >= 3 {
      PlacedIsMapped(world, flat[3..]);
      var vs := VerticesOf(flat);
      assert vs[1..] == VerticesOf(flat[3..]);
      assert MapSeq(Under(world), vs)[1..] == MapSeq(Under(world), vs[1..]);
    }
  }

  lemma {:induction false} PrimitiveIsPlaced(doc: Document, binary: seq<byte>, world: Matrix4, g: Geometry, p: Primitive, float: FloatReader)
    requires WithPrimitive(doc, binary, world, g, p, float).Some?
    ensures WithPrimitive(doc, binary, world, g, p, float).value.0
            == g.0 + Flat(MapSeq(Under(world), PrimitiveVertices(doc, binary, p, float)))
  {
    if p.position.Some? {
      PlacedIsMapped(world, ReadAccessor(doc, binary, p.position.value, float).value);
    }
  }

  lemma {:induction false} MeshIsPlaced(doc: Document, binary: seq<byte>, world: Matrix4, ps: seq<Primitive>, float: FloatReader)
    requires MeshGeometry(doc, binary, world, ps, float).Some?
    ensures MeshGeometry(doc, binary, world, ps, float).value.0 == Flat(MapSeq(Under(world), MeshVertices(doc, binary, ps, float)))
  {
    if ps != [] {
      var init, last := ps[..|ps| - 1], ps[|ps| - 1];
      MeshIsPlaced(doc, binary, world, init, float);
      PrimitiveIsPlaced(doc, binary, world, MeshGeometry(doc, binary, world, init, float).value, last, float);
      FlatImageConcat(Under(world), MeshVertices(doc, binary, init, float), PrimitiveVertices(doc, binary, last, float));
    }
  }

  lemma {:induction false} ElementHasFrame(doc: Document, binary: seq<byte>, fs: seq<Frame>, float: FloatReader, e: Element) returns (k: nat)
    requires FrameElements(doc, binary, fs, float).Some? && e in FrameElements(doc, binary, fs, float).value
    ensures k < |fs| && NodeElements(doc, binary, fs[k], float).Some? && e in NodeElements(doc, binary, fs[k], float).value
  {
    var init, last := fs[..|fs| - 1], fs[|fs| - 1];
    if e in NodeElements(doc, binary, last, float).value {
      k := |fs| - 1;
    } else {
      k := ElementHasFrame(doc, binary, init, float, e);
    }
  }

  // A node's mesh as the file has it, before any transform.
  function NodeVertices(doc: Document, binary: seq<byte>, i: nat, float: FloatReader): seq<Vec3> {
    if i >= |doc.nodes| || doc.nodes[i].mesh.None? || doc.nodes[i].mesh.value >= |doc.meshes| then []
    else MeshVertices(doc, binary, doc.meshes[doc.nodes[i].mesh.value].primitives, float)
  }

  lemma {:induction false} ElementOfNode(doc: Document, binary: seq<byte>, f: Frame, float: FloatReader, e: Element)
    requires NodeElements(doc, binary, f, float).Some? && e in NodeElements(doc, binary, f, float).value
    ensures f.0 < |doc.nodes| && e.localId == "node-" + Dec(f.0) && e.name == doc.nodes[f.0].name
    ensures e.verts == Flat(MapSeq(Under(f.1), NodeVertices(doc, binary, f.0, float)))
  {
    MeshIsPlaced(doc, binary, f.1, doc.meshes[doc.nodes[f.0].mesh.value].primitives, float);
  }

  function ThroughAncestors(doc: Document, p: seq<nat>): Vec3 -> Vec3 { (v: Vec3) => AncestorsApplied(doc, p, v) }

  // On a forest every element the loader yields is a node's mesh with the transforms of
  // that node and its ancestors, of which there is one chain, applied innermost first.
  lemma {:induction false} ForestElements(l: Loader, data: seq<byte>, e: Element) returns (p: seq<nat>)
    requires LoadDocument(l, data).0.Some? && Gltf.Parsed(l, data).Some? && e in Gltf.Parsed(l, data).value.elements
    requires Forest(LoadDocument(l, data).0.value) && AllAffine(LoadDocument(l, data).0.value)
    ensures var doc := LoadDocument(l, data).0.value;
            var binary := LoadDocument(l, data).1;
            && Chain(doc, p) && p != [] && e.localId == "node-" + Dec(p[|p| - 1])
            && e.verts == Flat(MapSeq(ThroughAncestors(doc, p), NodeVertices(doc, binary, p[|p| - 1], l.float)))
            && forall q :: Chain(doc, q) && q != [] && q[|q| - 1] == p[|p| - 1] ==> q == p
  {
    var doc, binary := LoadDocument(l, data).0.value, LoadDocument(l, data).1;
    var k := ElementHasFrame(doc, binary, Visited(doc), l.float, e);
    ElementOfNode(doc, binary, Visited(doc)[k], l.float, e);
    p := FrameIsChain(doc, k, NodeVertices(doc, binary, Visited(doc)[k].0, l.float));
    forall q | Chain(doc, q) && q != [] && q[|q| - 1] == p[|p| - 1] ensures q == p {
      OneChain(doc, p, q);
    }
  }

  lemma {:induction false} FrameIsChain(doc: Document, k: nat, vs: seq<Vec3>) returns (p: seq<nat>)
    requires AllAffine(doc) && k < |Visited(doc)|
    ensures Chain(doc, p) && p != [] && p[|p| - 1] == Visited(doc)[k].0
    ensures MapSeq(Under(Visited(doc)[k].1), vs) == MapSeq(ThroughAncestors(doc, p), vs)
  {
    WalkIsExact(doc);
    assert Sound(doc, Visited(doc)[k]);
    p :| Chain(doc, p) && p != [] && p[|p| - 1] == Visited(doc)[k].0 && Visited(doc)[k].1 == ChainWorld(doc, p);
    ImageThroughAncestors(doc, p, vs);
  }

  lemma {:induction false} ImageThroughAncestors(doc: Document, p: seq<nat>, vs: seq<Vec3>)
    requires Chain(doc, p) && AllAffine(doc)
    ensures MapSeq(Under(ChainWorld(doc, p)), vs) == MapSeq(ThroughAncestors(doc, p), vs)
  {
    forall v: Vec3 ensures Under(ChainWorld(doc, p))(v) == ThroughAncestors(doc, p)(v) {
      ChainWorldApplies(doc, p, v);
    }
    SameImage(Under(ChainWorld(doc, p)), ThroughAncestors(doc, p), vs);
  }

  lemma {:induction false} SameImage<T, U>(f: T -> U, g: T -> U, s: seq<T>)
    requires forall k :: 0 <= k < |s| ==> f(s[k]) == g(s[k])
    ensures MapSeq(f, s) == MapSeq(g, s)
  {
  }

  lemma {:induction false} ElementsOfFrame(doc: Document, binary: seq<byte>, fs: seq<Frame>, float: FloatReader, k: nat)
    requires FrameElements(doc, binary, fs, float).Some? && k < |fs|
    ensures NodeElements(doc, binary, fs[k], float).Some?
    ensures forall e :: e in NodeElements(doc, binary, fs[k], float).value ==> e in FrameElements(doc, binary, fs, float).value
  {
    if k < |fs| - 1 {
      ElementsOfFrame(doc, binary, fs[..|fs| - 1], float, k);
    }
  }

  lemma {:induction false} MeshYields(doc: Document, binary: seq<byte>, f: Frame, float: FloatReader)
    requires NodeElements(doc, binary, f, float).Some? && NodeVertices(doc, binary, f.0, float) != []
    ensures |NodeElements(doc, binary, f, float).value| == 1
    ensures NodeElements(doc, binary, f, float).value[0].localId == "node-" + Dec(f.0)
  {
    MeshIsPlaced(doc, binary, f.1, doc.meshes[doc.nodes[f.0].mesh.value].primitives, float);
  }

  // Conversely, on any graph, a node the scene reaches whose mesh has a vertex yields an
  // element.
  lemma {:induction false} ReachedMeshIsYielded(l: Loader, data: seq<byte>, i: nat) returns (e: Element)
    requires LoadDocument(l, data).0.Some? && Gltf.Parsed(l, data).Some?
    requires Reachable(LoadDocument(l, data).0.value, i)
    requires NodeVertices(LoadDocument(l, data).0.value, LoadDocument(l, data).1, i, l.float) != []
    ensures e in Gltf.Parsed(l, data).value.elements && e.localId == "node-" + Dec(i)
  {
    var doc, binary := LoadDocument(l, data).0.value, LoadDocument(l, data).1;
    WalkIsExact(doc);
    var k :| 0 <= k < |Visited(doc)| && Indices(Visited(doc))[k] == i;
    ElementsOfFrame(doc, binary, Visited(doc), l.float, k);
    MeshYields(doc, binary, Visited(doc)[k], l.float);
    e := NodeElements(doc, binary, Visited(doc)[k], l.float).value[0];
  }
}
