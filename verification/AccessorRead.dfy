/** An accessor over packed 32-bit words reads back the values of those words. */
module AccessorRead {
  import opened Wrappers
  import opened Bytes
  import opened GlbContainer
  import opened Transforms
  import opened Model3D
  import opened Gltf
  import opened MergedGlb
  import opened SceneStore
  import Decimal

  // The two component types the writer uses.
  predicate WordType(component: nat) { component == POSITION_TYPE || component == INDEX_TYPE }

  function WordValue(component: nat, w: word, float: FloatReader): real {
    if component == POSITION_TYPE then float(w) else w as int as real
  }

  function WordValues(component: nat, ws: seq<word>, float: FloatReader): (r: seq<real>)
    ensures |r| == |ws|
    ensures forall k :: 0 <= k < |r| ==> r[k] == WordValue(component, ws[k], float)
  {
    seq(|ws|, k requires 0 <= k < |ws| => WordValue(component, ws[k], float))
  }

  lemma {:induction false} LastWord(ws: seq<word>)
    requires ws != []
    ensures Packed(ws)[..4 * (|ws| - 1)] == Packed(ws[..|ws| - 1])
    ensures Packed(ws)[4 * (|ws| - 1)..] == ToLE(ws[|ws| - 1])
  {
    var n := |ws|;
    PackedSlice(ws, 0, n - 1);
    PackedSlice(ws, n - 1, n);
    PackedOne(ws[n - 1]);
    assert ws[0..n - 1] == ws[..n - 1] && ws[n - 1..n] == [ws[n - 1]];
  }

  lemma {:induction false} ComponentOfWord(component: nat, w: word, float: FloatReader)
    requires WordType(component)
    ensures Component(component, ToLE(w), float) == WordValue(component, w, float)
  {
    WordRoundTrip(w);
  }

  lemma {:induction false} LastComponent(component: nat, n: nat, b: seq<byte>, float: FloatReader)
    requires ComponentSize(component) == 4 && |b| == 4 * n && n > 0
    ensures Components(component, n, b, float)
            == Components(component, n - 1, b[..4 * (n - 1)], float) + [Component(component, b[4 * (n - 1)..], float)]
  {
  }

  lemma {:induction false} ComponentsOfPacked(component: nat, ws: seq<word>, float: FloatReader)
    requires WordType(component)
    ensures Components(component, |ws|, Packed(ws), float) == WordValues(component, ws, float)
  {
    if ws != [] {
      var n := |ws|;
      LastComponent(component, n, Packed(ws), float);
      LastWord(ws);
      ComponentsOfPacked(component, ws[..n - 1], float);
      ComponentOfWord(component, ws[n - 1], float);
      LastValue(component, ws, float);
    }
  }

  lemma {:induction false} LastValue(component: nat, ws: seq<word>, float: FloatReader)
    requires ws != []
    ensures WordValues(component, ws, float)
            == WordValues(component, ws[..|ws| - 1], float) + [WordValue(component, ws[|ws| - 1], float)]
  {
  }

  // The first `n` words of a packed run, and the run that follows them.
  lemma {:induction false} RunSplits(buf: seq<byte>, start: nat, ws: seq<word>, n: nat)
    requires At(buf, start, Packed(ws)) && n <= |ws|
    ensures Slice(buf, start, start + 4 * n) == Packed(ws[..n])
    ensures At(buf, start + 4 * n, Packed(ws[n..]))
  {
    PackedSlice(ws, 0, n);
    PackedSlice(ws, n, |ws|);
    assert ws[0..n] == ws[..n] && ws[n..|ws|] == ws[n..];
    SliceWithin(buf, start, Packed(ws), 4 * n);
  }

  lemma {:induction false} SliceWithin(buf: seq<byte>, start: nat, data: seq<byte>, mid: nat)
    requires At(buf, start, data) && mid <= |data|
    ensures Slice(buf, start, start + mid) == data[0..mid]
    ensures At(buf, start + mid, data[mid..|data|])
  {
    var whole := buf[start..start + |data|];
    assert buf[start..start + mid] == whole[0..mid];
    assert buf[start + mid..start + |data|] == whole[mid..|data|];
  }

  lemma {:induction false} WholeChunk(buf: seq<byte>, start: nat, component: nat, n: nat, data: seq<byte>, float: FloatReader)
    requires ComponentSize(component) == 4 && |data| == 4 * n
    requires Slice(buf, start, start + 4 * n) == data
    ensures ElementAt(buf, start, component, n, float) == Some(Components(component, n, data, float))
  {
    assert ComponentSize(component) * n == 4 * n;
  }

  lemma {:induction false} ChunkOfPacked(buf: seq<byte>, start: nat, component: nat, ws: seq<word>, float: FloatReader)
    requires WordType(component) && Slice(buf, start, start + 4 * |ws|) == Packed(ws)
    ensures ElementAt(buf, start, component, |ws|, float) == Some(WordValues(component, ws, float))
  {
    WholeChunk(buf, start, component, |ws|, Packed(ws), float);
    ComponentsOfPacked(component, ws, float);
  }

  function Total(n: nat, left: nat): nat { if left == 0 then 0 else n + Total(n, left - 1) }

  lemma {:induction false} TotalIsProduct(n: nat, left: nat)
    ensures Total(n, left) == n * left
  {
    if left > 0 {
      TotalIsProduct(n, left - 1);
      assert n * left == n + n * (left - 1);
    } else {
      assert n * left == 0;
    }
  }

  lemma {:induction false} ValuesSplit(component: nat, ws: seq<word>, n: nat, float: FloatReader)
    requires n <= |ws|
    ensures WordValues(component, ws, float) == WordValues(component, ws[..n], float) + WordValues(component, ws[n..], float)
  {
  }

  // The first element of a packed run, its values, and the run behind it.
  lemma {:induction false} OneElement(buf: seq<byte>, start: nat, component: nat, ws: seq<word>, n: nat, float: FloatReader)
    requires WordType(component) && At(buf, start, Packed(ws)) && n <= |ws|
    ensures Reader(buf, component, n, float)(start) == Some(WordValues(component, ws[..n], float))
    ensures At(buf, start + 4 * n, Packed(ws[n..]))
  {
    RunSplits(buf, start, ws, n);
    ChunkOfPacked(buf, start, component, ws[..n], float);
  }

  // The first element's values, then those of the rest.
  lemma {:induction false} ElementsStep(at: ElementReader, start: nat, component: nat, ws: seq<word>, n: nat, left: nat, float: FloatReader)
    requires left > 0 && n <= |ws| && at(start) == Some(WordValues(component, ws[..n], float))
    requires Elements(at, start + 4 * n, 4 * n, left - 1) == WordValues(component, ws[n..], float)
    ensures Elements(at, start, 4 * n, left) == WordValues(component, ws, float)
  {
    ValuesSplit(component, ws, n, float);
  }

  // Where a run of words lies, a reader finds its first `n`, and the rest lies behind.
  type Runs = (nat, seq<word>) -> bool

  ghost predicate ReadsRuns(at: ElementReader, lies: Runs, component: nat, n: nat, float: FloatReader) {
    forall start: nat, ws: seq<word> :: lies(start, ws) && n <= |ws| ==>
      at(start) == Some(WordValues(component, ws[..n], float)) && lies(start + 4 * n, ws[n..])
  }

  ghost function PackedRuns(buf: seq<byte>): Runs { (start: nat, ws: seq<word>) => At(buf, start, Packed(ws)) }

  lemma {:induction false} ReaderReadsRuns(buf: seq<byte>, component: nat, n: nat, float: FloatReader)
    requires WordType(component)
    ensures ReadsRuns(Reader(buf, component, n, float), PackedRuns(buf), component, n, float)
  {
    var at, lies := Reader(buf, component, n, float), PackedRuns(buf);
    forall start: nat, ws: seq<word> | lies(start, ws) && n <= |ws|
      ensures at(start) == Some(WordValues(component, ws[..n], float)) && lies(start + 4 * n, ws[n..])
    {
      OneElement(buf, start, component, ws, n, float);
    }
  }

  // Elements of `n` words each read as the values of the words.
  lemma {:induction false} ElementsRead(at: ElementReader, lies: Runs, start: nat, component: nat, ws: seq<word>, n: nat, left: nat, float: FloatReader)
    requires ReadsRuns(at, lies, component, n, float) && lies(start, ws) && |ws| == Total(n, left)
    ensures Elements(at, start, 4 * n, left) == WordValues(component, ws, float)
    decreases left
  {
    if left > 0 {
      ElementsRead(at, lies, start + 4 * n, component, ws[n..], n, left - 1, float);
      ElementsStep(at, start, component, ws, n, left, float);
    }
  }

  lemma {:induction false} FromTheStart(buf: seq<byte>, start: nat, component: nat, ws: seq<word>, n: nat, count: nat, float: FloatReader)
    requires WordType(component) && At(buf, start, Packed(ws)) && n * count <= |ws|
    ensures Elements(Reader(buf, component, n, float), start, 4 * n, count) == WordValues(component, ws[..n * count], float)
  {
    TotalIsProduct(n, count);
    RunStarts(buf, start, ws, n * count);
    ReaderReadsRuns(buf, component, n, float);
    ElementsRead(Reader(buf, component, n, float), PackedRuns(buf), start, component, ws[..n * count], n, count, float);
  }

  lemma {:induction false} RunStarts(buf: seq<byte>, start: nat, ws: seq<word>, n: nat)
    requires At(buf, start, Packed(ws)) && n <= |ws|
    ensures At(buf, start, Packed(ws[..n]))
  {
    RunSplits(buf, start, ws, n);
  }

  // A document over this scene's buffers.
  predicate Serves(doc: Document, binary: seq<byte>, s: Scene) {
    && doc.accessors == s.accessors && doc.views == s.views && binary == s.buffer
    && |doc.buffers| == 1 && doc.buffers[0].Embedded?
  }

  lemma {:induction false} AccessorRead(doc: Document, binary: seq<byte>, s: Scene, i: nat, component: nat, ws: seq<word>, count: nat, kind: string, bounds: Option<Bounds>, n: nat, float: FloatReader)
    requires Serves(doc, binary, s) && WordType(component) && n == ComponentCount(kind) > 0
    requires Stored(s, i, Packed(ws), component, count, kind, bounds) && n * count <= |ws|
    ensures ReadAccessor(doc, binary, i, float) == Some(WordValues(component, ws[..n * count], float))
  {
    ReadThrough(doc, binary, s, i, component, Packed(ws), count, kind, bounds, n, float);
    FromTheStart(binary, s.views[i].byteOffset, component, ws, n, count, float);
    assert count == 0 ==> ws[..n * count] == [];
  }

  lemma {:induction false} ReadThrough(doc: Document, binary: seq<byte>, s: Scene, i: nat, component: nat, data: seq<byte>, count: nat, kind: string, bounds: Option<Bounds>, n: nat, float: FloatReader)
    requires Serves(doc, binary, s) && WordType(component) && n == ComponentCount(kind) > 0
    requires Stored(s, i, data, component, count, kind, bounds)
    ensures ReadAccessor(doc, binary, i, float)
            == Some(Elements(Reader(binary, component, n, float), s.views[i].byteOffset, 4 * n, count))
  {
  }

  // ------------------------------------------------------------------- geometry

  // The whole vertices of a flat list.
  function WholeTriples(v: seq<real>): seq<real> { v[..3 * (|v| / 3)] }

  function Faces(e: Element): seq<int> {
    if e.faces == [] then Consecutive(0, |e.verts| / 3) else e.faces
  }

  // Coordinates a 32-bit word holds exactly.
  predicate Exact(v: seq<real>, write: FloatWriter, read: FloatReader) {
    forall k :: 0 <= k < |v| ==> read(write(v[k])) == v[k]
  }

  lemma {:induction false} PositionsRead(doc: Document, binary: seq<byte>, s: Scene, i: nat, v: seq<real>, write: FloatWriter, read: FloatReader)
    requires Serves(doc, binary, s) && Exact(v, write, read)
    requires Stored(s, i, Packed(Coordinates(v, write)), POSITION_TYPE, |v| / 3, "VEC3", Box(v))
    ensures ReadAccessor(doc, binary, i, read) == Some(WholeTriples(v))
  {
    AccessorRead(doc, binary, s, i, POSITION_TYPE, Coordinates(v, write), |v| / 3, "VEC3", Box(v), 3, read);
    assert WordValues(POSITION_TYPE, Coordinates(v, write)[..3 * (|v| / 3)], read) == WholeTriples(v);
  }

  // Bounds that every position keeps to and that some position reaches.
  ghost predicate Tight(b: Bounds, flat: seq<real>) {
    forall axis :: 0 <= axis < 3 ==> TightAlong(flat, axis, Along(b.low, axis), Along(b.high, axis))
  }

  ghost predicate TightAlong(flat: seq<real>, axis: nat, low: real, high: real) {
    && (forall k :: 0 <= k < |flat| && k % 3 == axis ==> low <= flat[k] <= high)
    && (exists k :: 0 <= k < |flat| && k % 3 == axis && flat[k] == low)
    && (exists k :: 0 <= k < |flat| && k % 3 == axis && flat[k] == high)
  }

  lemma {:induction false} TightMore(flat: seq<real>, axis: nat, low: real, high: real, x: real)
    requires TightAlong(flat, axis, low, high)
    ensures |flat| % 3 != axis ==> TightAlong(flat + [x], axis, low, high)
    ensures |flat| % 3 == axis ==> TightAlong(flat + [x], axis, if x < low then x else low, if x > high then x else high)
  {
    var more := flat + [x];
    var i :| 0 <= i < |flat| && i % 3 == axis && flat[i] == low;
    var j :| 0 <= j < |flat| && j % 3 == axis && flat[j] == high;
    assert more[i] == low && more[j] == high && more[|flat|] == x;
  }

  lemma {:induction false} WidenedAlong(b: Bounds, at: nat, x: real, axis: nat)
    requires at < 3 && axis < 3
    ensures at != axis ==> Along(Widened(b, at, x).low, axis) == Along(b.low, axis) && Along(Widened(b, at, x).high, axis) == Along(b.high, axis)
    ensures at == axis ==> Along(Widened(b, at, x).low, axis) == (if x < Along(b.low, axis) then x else Along(b.low, axis))
    ensures at == axis ==> Along(Widened(b, at, x).high, axis) == (if x > Along(b.high, axis) then x else Along(b.high, axis))
  {
  }

  lemma {:induction false} OneVertexIsTight(v: seq<real>)
    requires |v| == 3
    ensures Tight(Bounds((v[0], v[1], v[2]), (v[0], v[1], v[2])), v)
  {
    OneCoordinate(v, 0);
    OneCoordinate(v, 1);
    OneCoordinate(v, 2);
  }

  lemma {:induction false} OneCoordinate(v: seq<real>, axis: nat)
    requires |v| == 3 && axis < 3
    ensures TightAlong(v, axis, v[axis], v[axis])
  {
    forall k | 0 <= k < |v| && k % 3 == axis ensures k == axis {
    }
    assert axis % 3 == axis && v[axis] == v[axis];
  }

  lemma {:induction false} BoxIsTight(v: seq<real>, n: nat)
    requires 3 <= n <= |v|
    ensures Tight(BoxUpTo(v, n), v[..n])
  {
    if n == 3 {
      OneVertexIsTight(v[..3]);
    } else {
      BoxIsTight(v, n - 1);
      assert v[..n] == v[..n - 1] + [v[n - 1]];
      WidenedIsTight(BoxUpTo(v, n - 1), v[..n - 1], v[n - 1]);
    }
  }

  lemma {:induction false} WidenedIsTight(b: Bounds, flat: seq<real>, x: real)
    requires Tight(b, flat)
    ensures Tight(Widened(b, |flat| % 3, x), flat + [x])
  {
    var w := Widened(b, |flat| % 3, x);
    forall axis | 0 <= axis < 3 ensures TightAlong(flat + [x], axis, Along(w.low, axis), Along(w.high, axis)) {
      TightMore(flat, axis, Along(b.low, axis), Along(b.high, axis), x);
      WidenedAlong(b, |flat| % 3, x, axis);
    }
  }

  // The bounds a mesh's position accessor states are those of the positions read through
  // it, as glTF asks of such an accessor.
  lemma {:induction false} BoundsAreTight(doc: Document, binary: seq<byte>, s: Scene, k: nat, st: Stamp, write: FloatWriter, read: FloatReader)
    requires Serves(doc, binary, s) && doc.meshes == s.meshes
    requires Exact(st.element.verts, write, read) && Indexable(st.element.faces) && HasMesh(st.element) && Triples(st.element)
    requires Holds(s, k, st, write)
    ensures var p := doc.meshes[k].primitives[0].position;
            && p.Some? && p.value < |doc.accessors| && doc.accessors[p.value].bounds.Some?
            && ReadAccessor(doc, binary, p.value, read).Some?
            && Tight(doc.accessors[p.value].bounds.value, ReadAccessor(doc, binary, p.value, read).value)
  {
    PositionsRead(doc, binary, s, doc.meshes[k].primitives[0].position.value, st.element.verts, write, read);
    assert WholeTriples(st.element.verts) == st.element.verts;
    BoxIsTight(st.element.verts, |st.element.verts|);
    assert st.element.verts[..|st.element.verts|] == st.element.verts;
  }

  lemma {:induction false} IndicesRead(doc: Document, binary: seq<byte>, s: Scene, i: nat, faces: seq<int>, read: FloatReader)
    requires Serves(doc, binary, s) && Indexable(faces)
    requires Stored(s, i, Packed(FaceWords(faces)), INDEX_TYPE, |faces|, "SCALAR", None)
    ensures ReadAccessor(doc, binary, i, read).Some?
    ensures Shifted(ReadAccessor(doc, binary, i, read).value, 0) == faces
  {
    AccessorRead(doc, binary, s, i, INDEX_TYPE, FaceWords(faces), |faces|, "SCALAR", None, 1, read);
    assert FaceWords(faces)[..1 * |faces|] == FaceWords(faces);
    var read := WordValues(INDEX_TYPE, FaceWords(faces), read);
    forall k | 0 <= k < |faces| ensures Shifted(read, 0)[k] == faces[k] {
      assert Truncated(faces[k] as real) == faces[k];
    }
  }

  // A mesh of one primitive is that primitive, with nothing before it.
  lemma {:induction false} OnePrimitive(doc: Document, binary: seq<byte>, world: Matrix4, p: Primitive, read: FloatReader)
    ensures MeshGeometry(doc, binary, world, [p], read) == WithPrimitive(doc, binary, world, ([], []), p, read)
  {
    assert [p][..0] == [];
    assert MeshGeometry(doc, binary, world, [], read) == Some(([], []));
  }

  lemma {:induction false} NothingBefore(doc: Document, binary: seq<byte>, world: Matrix4, p: Primitive, flat: seq<real>, faces: seq<int>, read: FloatReader)
    requires p.position.Some? && ReadAccessor(doc, binary, p.position.value, read) == Some(flat)
    requires p.indices.None? ==> faces == Consecutive(0, |flat| / 3)
    requires p.indices.Some? ==> ReadAccessor(doc, binary, p.indices.value, read).Some?
                                 && faces == Shifted(ReadAccessor(doc, binary, p.indices.value, read).value, 0)
    ensures WithPrimitive(doc, binary, world, ([], []), p, read) == Some((Placed(world, flat), faces))
  {
    assert [] + Placed(world, flat) == Placed(world, flat) && [] + faces == faces;
  }

  // One held primitive, seen through a transform.
  lemma {:induction false} PrimitiveRead(doc: Document, binary: seq<byte>, s: Scene, p: Primitive, e: Element, world: Matrix4, write: FloatWriter, read: FloatReader)
    requires Serves(doc, binary, s) && Exact(e.verts, write, read) && Indexable(e.faces)
    requires HoldsPrimitive(s, p, e, write)
    ensures MeshGeometry(doc, binary, world, [p], read) == Some((Placed(world, WholeTriples(e.verts)), Faces(e)))
  {
    OnePrimitive(doc, binary, world, p, read);
    PositionsRead(doc, binary, s, p.position.value, e.verts, write, read);
    if e.faces != [] {
      IndicesRead(doc, binary, s, p.indices.value, e.faces, read);
    }
    assert |WholeTriples(e.verts)| / 3 == |e.verts| / 3;
    NothingBefore(doc, binary, world, p, WholeTriples(e.verts), Faces(e), read);
  }

  // What comes back of a stamp: its whole vertices where the transform puts them.
  function Seen(st: Stamp, world: Matrix4): Element {
    Element("", "", st.name, "mesh", Placed(world, WholeTriples(st.element.verts)), Faces(st.element))
  }

  function ReadBack(k: nat, st: Stamp, world: Matrix4): Element {
    Seen(st, world).(localId := "node-" + Decimal.Dec(k))
  }

  lemma {:induction false} NodeRead(doc: Document, binary: seq<byte>, s: Scene, k: nat, st: Stamp, world: Matrix4, write: FloatWriter, read: FloatReader)
    requires Serves(doc, binary, s) && doc.meshes == s.meshes && s.nodes <= doc.nodes
    requires Exact(st.element.verts, write, read) && Indexable(st.element.faces) && HasMesh(st.element)
    requires Holds(s, k, st, write)
    ensures NodeElements(doc, binary, (k, world), read) == Some([ReadBack(k, st, world)])
  {
    var p := s.meshes[k].primitives[0];
    PrimitiveRead(doc, binary, s, p, st.element, world, write, read);
    assert s.meshes[k].primitives == [p];
    assert doc.nodes[k] == s.nodes[k];
    assert |WholeTriples(st.element.verts)| >= 3;
    assert Placed(world, WholeTriples(st.element.verts)) != [];
  }
}
