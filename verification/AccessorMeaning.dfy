/** What an accessor's values are, byte by byte, for any layout a file may choose; and which
    vertices a mesh's faces name (section 3.6 of the glTF 2.0 specification). */
module AccessorMeaning {
  import opened Wrappers
  import opened Bytes
  import opened Indexing
  import opened Transforms
  import opened Gltf
  import opened SceneElements

  // ------------------------------------------------------------------ components

  // The unsigned number little-endian bytes stand for.
  function Unsigned(b: seq<byte>): nat { if b == [] then 0 else b[0] as int + 256 * Unsigned(b[1..]) }

  function Power256(n: nat): int { if n == 0 then 1 else 256 * Power256(n - 1) }

  // Two's complement: the number congruent to the unsigned one in the signed range.
  ghost predicate IsSigned(v: int, b: seq<byte>) {
    && (v == Unsigned(b) || v == Unsigned(b) - Power256(|b|))
    && -Power256(|b|) <= 2 * v < Power256(|b|)
  }

  lemma {:induction false} UnsignedOf(b: seq<byte>)
    ensures |b| == 1 ==> Unsigned(b) == b[0] as int && Power256(|b|) == 256
    ensures |b| == 2 ==> Unsigned(b) == b[0] as int + 256 * b[1] as int && Power256(|b|) == 65536
    ensures |b| == 4 ==> Unsigned(b) == FromLE(b)
  {
    assert Power256(0) == 1 && Power256(1) == 256 && Power256(2) == 65536;
    if |b| == 4 {
      UnsignedOf(b[2..]);
      assert b[1..][1..] == b[2..];
    } else if |b| == 2 {
      UnsignedOf(b[1..]);
    } else if |b| == 1 {
      assert b[1..] == [];
    }
  }

  // One component of each type.
  lemma {:induction false} ComponentMeans(component: nat, b: seq<byte>, float: FloatReader)
    requires ComponentSize(component) > 0 && |b| == ComponentSize(component)
    ensures component == 5120 || component == 5122 ==>
              |b| == (if component == 5120 then 1 else 2) && exists v: int :: IsSigned(v, b) && Component(component, b, float) == v as real
    ensures component == 5121 || component == 5123 || component == 5125 ==>
              |b| == (if component == 5121 then 1 else if component == 5123 then 2 else 4)
              && Component(component, b, float) == Unsigned(b) as real
    ensures component == 5126 ==> |b| == 4 && Component(component, b, float) == float(FromLE(b))
    ensures component in {5120, 5121, 5122, 5123, 5125, 5126}
  {
    UnsignedOf(b);
    if component == 5120 {
      assert IsSigned(Signed(b[0] as int, 128), b);
    } else if component == 5122 {
      assert IsSigned(Signed(b[0] as int + 256 * b[1] as int, 32768), b);
    }
  }

  lemma {:induction false} KindMeans()
    ensures ComponentCount("SCALAR") == 1 && ComponentCount("VEC2") == 2 && ComponentCount("VEC3") == 3 && ComponentCount("VEC4") == 4
    ensures ComponentCount("MAT2") == 2 * 2 && ComponentCount("MAT3") == 3 * 3 && ComponentCount("MAT4") == 4 * 4
    ensures forall kind: string :: kind !in {"SCALAR", "VEC2", "VEC3", "VEC4", "MAT2", "MAT3", "MAT4"} ==> ComponentCount(kind) == 0
  {
  }

  // The c-th component of an element lies c components in.
  lemma {:induction false} ComponentAt(component: nat, n: nat, b: seq<byte>, float: FloatReader, c: nat)
    requires ComponentSize(component) > 0 && |b| == ComponentSize(component) * n && c < n
    ensures ComponentSize(component) * c + ComponentSize(component) == ComponentSize(component) * (c + 1) <= |b|
    ensures Components(component, n, b, float)[c]
            == Component(component, b[ComponentSize(component) * c..ComponentSize(component) * (c + 1)], float)
  {
    var size := ComponentSize(component);
    MultiplesGrow(size, c + 1, n);
    assert size * (c + 1) == size * c + size;
    if c < n - 1 {
      var init := b[..size * (n - 1)];
      assert size * n == size * (n - 1) + size;
      MultiplesGrow(size, c + 1, n - 1);
      ComponentAt(component, n - 1, init, float, c);
      assert init[size * c..size * (c + 1)] == b[size * c..size * (c + 1)];
    } else {
      assert b[size * c..size * (c + 1)] == b[size * c..];
    }
  }

  lemma {:induction false} MultiplesGrow(size: nat, a: nat, b: nat)
    requires a <= b
    ensures size * a <= size * b
  {
  }

  // --------------------------------------------------------------------- elements

  // Whether the first k elements are all there.
  ghost predicate Present(at: ElementReader, start: nat, stride: nat, k: nat) {
    forall e: nat :: e < k ==> at(Place(start, stride, e)).Some?
  }

  // Where an element begins: so many strides from the first.
  function Place(start: nat, stride: nat, e: nat): nat
    decreases e
  {
    if e == 0 then start else Place(start + stride, stride, e - 1)
  }

  lemma {:induction false} PlaceIsProduct(start: nat, stride: nat, e: nat)
    ensures Place(start, stride, e) == start + stride * e
    decreases e
  {
    if e > 0 {
      PlaceIsProduct(start + stride, stride, e - 1);
      assert stride * e == stride + stride * (e - 1);
    } else {
      assert stride * e == 0;
    }
  }

  // Values of `n` components each, one element after the other.
  ghost predicate Reads(at: ElementReader, out: seq<real>, start: nat, stride: nat, k: nat, n: nat)
    decreases k
  {
    if k == 0 then out == []
    else
      && at(start).Some? && |at(start).value| == n && n <= |out| && out[..n] == at(start).value
      && Reads(at, out[n..], start + stride, stride, k - 1, n)
  }

  // The reading yields the elements in order, each a stride on from the last, up to the
  // first that is not all there.
  lemma {:induction false} ElementsMean(at: ElementReader, start: nat, stride: nat, left: nat, n: nat) returns (k: nat)
    requires forall p: nat :: at(p).Some? ==> |at(p).value| == n
    ensures k <= left && Present(at, start, stride, k) && (k < left ==> at(Place(start, stride, k)).None?)
    ensures Reads(at, Elements(at, start, stride, left), start, stride, k, n)
    decreases left
  {
    if left == 0 || at(start).None? {
      k := 0;
    } else {
      k := ElementsMean(at, start + stride, stride, left - 1, n);
      var rest := Elements(at, start + stride, stride, left - 1);
      assert Elements(at, start, stride, left)[n..] == rest;
      forall e: nat | e < k + 1 ensures at(Place(start, stride, e)).Some? {
        assert e > 0 ==> Place(start, stride, e) == Place(start + stride, stride, e - 1);
      }
      k := k + 1;
    }
  }

  // An element is there when the buffer holds all its bytes, and they are its components.
  lemma {:induction false} ElementMeans(buf: seq<byte>, start: nat, component: nat, n: nat, float: FloatReader)
    requires ComponentSize(component) > 0
    ensures var width := ComponentSize(component) * n; var got := Reader(buf, component, n, float)(start);
            && (got.Some? <==> start + width <= |buf| || width == 0)
            && (start + width <= |buf| ==> got == Some(Components(component, n, buf[start..start + width], float)))
            && (got.Some? ==> |got.value| == n)
  {
  }

  // What an accessor reads through its view: the view's buffer, from both offsets on, with
  // elements as far apart as the view says, or packed if it does not say.
  lemma {:induction false} ViewMeans(doc: Document, binary: seq<byte>, index: nat, float: FloatReader) returns (k: nat)
    requires index < |doc.accessors| && doc.accessors[index].view.Some? && doc.accessors[index].view.value < |doc.views|
    requires ComponentSize(doc.accessors[index].component) > 0 && ComponentCount(doc.accessors[index].kind) > 0 && doc.accessors[index].count > 0
    ensures var a := doc.accessors[index]; var v := doc.views[a.view.value]; var n := ComponentCount(a.kind);
            var stride := if v.byteStride > 0 then v.byteStride else ComponentSize(a.component) * n;
            var at := Reader(BufferBytes(doc, binary, v.buffer), a.component, n, float);
            && k <= a.count && Present(at, v.byteOffset + a.byteOffset, stride, k)
            && (k < a.count ==> at(Place(v.byteOffset + a.byteOffset, stride, k)).None?)
            && ReadAccessor(doc, binary, index, float).Some?
            && Reads(at, ReadAccessor(doc, binary, index, float).value, v.byteOffset + a.byteOffset, stride, k, n)
  {
    var a := doc.accessors[index];
    var v, n := doc.views[a.view.value], ComponentCount(a.kind);
    var at := Reader(BufferBytes(doc, binary, v.buffer), a.component, n, float);
    forall p: nat | at(p).Some? ensures |at(p).value| == n {
      ElementMeans(BufferBytes(doc, binary, v.buffer), p, a.component, n, float);
    }
    k := ElementsMean(at, v.byteOffset + a.byteOffset, Stride(v, a.component, n), a.count, n);
  }

  // Without a view the values are zeros; an accessor that is missing, empty or of an
  // unknown type has none.
  lemma {:induction false} ViewlessMeans(doc: Document, binary: seq<byte>, index: nat, float: FloatReader)
    ensures index >= |doc.accessors| ==> ReadAccessor(doc, binary, index, float) == Some([])
    ensures index < |doc.accessors| ==>
              var a := doc.accessors[index]; var n := ComponentCount(a.kind);
              && (ComponentSize(a.component) == 0 || n == 0 || a.count == 0 ==> ReadAccessor(doc, binary, index, float) == Some([]))
              && (ComponentSize(a.component) > 0 && n > 0 && a.count > 0 && a.view.None? ==>
                    var r := ReadAccessor(doc, binary, index, float);
                    r.Some? && |r.value| == a.count * n && forall i :: 0 <= i < |r.value| ==> r.value[i] == 0.0)
  {
  }

  // A buffer is the container's binary chunk, or what is given in line, or out of reach.
  lemma {:induction false} BufferMeans(doc: Document, binary: seq<byte>, index: nat)
    ensures index < |doc.buffers| && doc.buffers[index].Embedded? ==> BufferBytes(doc, binary, index) == binary
    ensures index < |doc.buffers| && doc.buffers[index].Inline? ==> BufferBytes(doc, binary, index) == doc.buffers[index].content
    ensures index >= |doc.buffers| || doc.buffers[index].External? ==> BufferBytes(doc, binary, index) == []
  {
  }

  // ------------------------------------------------------------------------ faces

  // What a primitive's faces are by its own numbers: those of its index accessor, or
  // without one its vertices in order.
  ghost function OwnFaces(doc: Document, binary: seq<byte>, p: Primitive, float: FloatReader): seq<int> {
    if p.position.None? then []
    else if p.indices.None? then Consecutive(0, |PrimitiveVertices(doc, binary, p, float)|)
    else
      match ReadAccessor(doc, binary, p.indices.value, float)
      case None => []
      case Some(indices) => Shifted(indices, 0)
  }

  // A number read as an index loses its fraction, towards zero.
  lemma {:induction false} IndicesAreWhole(read: seq<real>, k: nat)
    requires k < |read|
    ensures |Shifted(read, 0)| == |read|
    ensures read[k] >= 0.0 ==> Shifted(read, 0)[k] as real <= read[k] < (Shifted(read, 0)[k] + 1) as real
    ensures read[k] <= 0.0 ==> (Shifted(read, 0)[k] - 1) as real < read[k] <= Shifted(read, 0)[k] as real
  {
    assert Truncated(read[k]) == Shifted(read, 0)[k];
  }

  // Faces over vertices of their own, and several such put together: each part's numbers
  // raised by the vertices before it.
  type Part = (seq<int>, seq<Vec3>)

  function JoinedVertices(parts: seq<Part>): seq<Vec3> {
    if parts == [] then [] else JoinedVertices(parts[..|parts| - 1]) + parts[|parts| - 1].1
  }

  function JoinedFaces(parts: seq<Part>): seq<int> {
    if parts == [] then []
    else
      var init := parts[..|parts| - 1];
      JoinedFaces(init) + Raised(parts[|parts| - 1].0, |JoinedVertices(init)|)
  }

  // A mesh's primitives as such parts.
  ghost function Parts(doc: Document, binary: seq<byte>, ps: seq<Primitive>, float: FloatReader): (r: seq<Part>)
    ensures |r| == |ps|
    ensures forall k :: 0 <= k < |r| ==> r[k] == (OwnFaces(doc, binary, ps[k], float), PrimitiveVertices(doc, binary, ps[k], float))
  {
    seq(|ps|, k requires 0 <= k < |ps| => (OwnFaces(doc, binary, ps[k], float), PrimitiveVertices(doc, binary, ps[k], float)))
  }

  function Raised(faces: seq<int>, offset: nat): (r: seq<int>)
    ensures |r| == |faces| && forall k :: 0 <= k < |r| ==> r[k] == faces[k] + offset
  {
    seq(|faces|, k requires 0 <= k < |faces| => faces[k] + offset)
  }

  lemma {:induction false} FlatSize(vs: seq<Vec3>)
    ensures |Flat(vs)| == 3 * |vs|
  {
    if vs != [] {
      FlatSize(vs[1..]);
    }
  }

  lemma {:induction false} VertexCount(flat: seq<real>)
    ensures |VerticesOf(flat)| == |flat| / 3
  {
    if |flat| >= 3 {
      VertexCount(flat[3..]);
      assert |flat| / 3 == (|flat| - 3) / 3 + 1;
    }
  }

  lemma {:induction false} PrimitiveFaces(doc: Document, binary: seq<byte>, world: Matrix4, g: Geometry, p: Primitive, float: FloatReader)
    requires WithPrimitive(doc, binary, world, g, p, float).Some?
    ensures WithPrimitive(doc, binary, world, g, p, float).value.1 == g.1 + Raised(OwnFaces(doc, binary, p, float), |g.0| / 3)
  {
    if p.position.Some? {
      var flat := ReadAccessor(doc, binary, p.position.value, float).value;
      VertexCount(flat);
      ConsecutiveRaised(|flat| / 3, |g.0| / 3);
      if p.indices.Some? {
        ShiftedRaised(ReadAccessor(doc, binary, p.indices.value, float).value, |g.0| / 3);
      }
    }
  }

  lemma {:induction false} ConsecutiveRaised(n: nat, offset: nat)
    ensures Consecutive(offset, n) == Raised(Consecutive(0, n), offset)
  {
  }

  lemma {:induction false} ShiftedRaised(flat: seq<real>, offset: nat)
    ensures Shifted(flat, offset) == Raised(Shifted(flat, 0), offset)
  {
  }

  lemma {:induction false} VerticesAreJoined(doc: Document, binary: seq<byte>, ps: seq<Primitive>, float: FloatReader)
    ensures MeshVertices(doc, binary, ps, float) == JoinedVertices(Parts(doc, binary, ps, float))
  {
    if ps != [] {
      VerticesAreJoined(doc, binary, ps[..|ps| - 1], float);
      assert Parts(doc, binary, ps, float)[..|ps| - 1] == Parts(doc, binary, ps[..|ps| - 1], float);
    }
  }

  // The faces of a parsed mesh are its primitives' so put together.
  lemma {:induction false} FacesAreRaised(doc: Document, binary: seq<byte>, world: Matrix4, ps: seq<Primitive>, float: FloatReader)
    requires MeshGeometry(doc, binary, world, ps, float).Some?
    ensures MeshGeometry(doc, binary, world, ps, float).value.1 == JoinedFaces(Parts(doc, binary, ps, float))
  {
    if ps != [] {
      var init, last := ps[..|ps| - 1], ps[|ps| - 1];
      var g := MeshGeometry(doc, binary, world, init, float).value;
      FacesAreRaised(doc, binary, world, init, float);
      VerticesBefore(doc, binary, world, init, float);
      VerticesAreJoined(doc, binary, init, float);
      assert Parts(doc, binary, ps, float)[..|ps| - 1] == Parts(doc, binary, init, float);
      PrimitiveFaces(doc, binary, world, g, last, float);
    }
  }

  lemma {:induction false} VerticesBefore(doc: Document, binary: seq<byte>, world: Matrix4, ps: seq<Primitive>, float: FloatReader)
    requires MeshGeometry(doc, binary, world, ps, float).Some?
    ensures |MeshGeometry(doc, binary, world, ps, float).value.0| / 3 == |MeshVertices(doc, binary, ps, float)|
  {
    MeshIsPlaced(doc, binary, world, ps, float);
    FlatSize(MapSeq(Under(world), MeshVertices(doc, binary, ps, float)));
  }

  // The face at this place names this vertex.
  ghost predicate Names(faces: seq<int>, at: nat, vs: seq<Vec3>, v: Vec3) {
    at < |faces| && 0 <= faces[at] < |vs| && vs[faces[at]] == v
  }

  lemma {:induction false} StillNames(faces: seq<int>, more: seq<int>, at: nat, vs: seq<Vec3>, own: seq<Vec3>, v: Vec3)
    requires Names(faces, at, vs, v)
    ensures Names(faces + more, at, vs + own, v)
  {
  }

  lemma {:induction false} RaisedNames(faces: seq<int>, more: seq<int>, at: nat, vs: seq<Vec3>, own: seq<Vec3>, v: Vec3)
    requires Names(more, at, own, v)
    ensures Names(faces + Raised(more, |vs|), |faces| + at, vs + own, v)
  {
  }

  // So a face of any primitive names, in the mesh, the very vertex it named in its own.
  lemma {:induction false} FacesNameTheirVertices(parts: seq<Part>, k: nat, f: nat, v: Vec3)
    requires k < |parts| && Names(parts[k].0, f, parts[k].1, v)
    ensures Names(JoinedFaces(parts), |JoinedFaces(parts[..k])| + f, JoinedVertices(parts), v)
  {
    var init, last := parts[..|parts| - 1], parts[|parts| - 1];
    var faces, vs := JoinedFaces(init), JoinedVertices(init);
    if k == |parts| - 1 {
      RaisedNames(faces, last.0, f, vs, last.1, v);
    } else {
      assert init[..k] == parts[..k];
      FacesNameTheirVertices(init, k, f, v);
      StillNames(faces, Raised(last.0, |vs|), |JoinedFaces(parts[..k])| + f, vs, last.1, v);
    }
  }
}
