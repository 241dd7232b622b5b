/** The glTF document as parsed from its JSON, and the reader that turns one into
    elements: accessors, the scene walk, and the meshes met on the way. */
module Gltf {
  import opened Wrappers
  import opened Bytes
  import opened Decimal
  import opened Transforms
  import opened Model3D
  import opened GlbContainer
  import opened JsonText

  // The least and greatest coordinates of a list of positions.
  datatype Bounds = Bounds(low: Vec3, high: Vec3)

  datatype Accessor = Accessor(view: Option<nat>, byteOffset: nat, component: nat, count: nat, kind: string, bounds: Option<Bounds>)

  datatype View = View(buffer: nat, byteOffset: nat, byteLength: nat, byteStride: nat)

  // A buffer without a URI is the container's binary chunk; one outside the file
  // cannot be fetched and reads as empty.
  datatype Buffer = Embedded(byteLength: nat) | Inline(content: seq<byte>) | External

  datatype Primitive = Primitive(position: Option<nat>, indices: Option<nat>)

  datatype Mesh = Mesh(primitives: seq<Primitive>)

  datatype Node = Node(name: string, mesh: Option<nat>, children: seq<nat>, transform: Transform)

  datatype Asset = Asset(version: string, generator: string)

  datatype Document = Document(
    asset: Asset,
    scene: nat,
    scenes: seq<Option<seq<nat>>>,
    nodes: seq<Node>,
    meshes: seq<Mesh>,
    accessors: seq<Accessor>,
    views: seq<View>,
    buffers: seq<Buffer>)

  // How a component's bytes stand for a number; `float` reads a 32-bit word.
  type FloatReader = word -> real

  // ------------------------------------------------------------------ accessors

  function ComponentSize(component: nat): nat {
    match component
    case 5120 => 1
    case 5121 => 1
    case 5122 => 2
    case 5123 => 2
    case 5125 => 4
    case 5126 => 4
    case _ => 0
  }

  function ComponentCount(kind: string): nat {
    if kind == "SCALAR" then 1
    else if kind == "VEC2" then 2
    else if kind == "VEC3" then 3
    else if kind == "VEC4" then 4
    else if kind == "MAT2" then 4
    else if kind == "MAT3" then 9
    else if kind == "MAT4" then 16
    else 0
  }

  function Signed(v: nat, half: nat): int { if v < half then v else v - 2 * half }

  function Component(component: nat, b: seq<byte>, float: FloatReader): real
    requires ComponentSize(component) > 0 && |b| == ComponentSize(component)
  {
    match component
    case 5120 => Signed(b[0], 128) as real
    case 5121 => b[0] as int as real
    case 5122 => Signed(b[0] as int + 256 * b[1] as int, 32768) as real
    case 5123 => (b[0] as int + 256 * b[1] as int) as real
    case 5125 => FromLE(b) as int as real
    case 5126 => float(FromLE(b))
  }

  // The components of one element, unpacked from its bytes.
  function Components(component: nat, n: nat, b: seq<byte>, float: FloatReader): (r: seq<real>)
    requires ComponentSize(component) > 0 && |b| == ComponentSize(component) * n
    ensures |r| == n
  {
    if n == 0 then []
    else
      var size := ComponentSize(component);
      assert size * n == size * (n - 1) + size;
      Components(component, n - 1, b[..size * (n - 1)], float) + [Component(component, b[size * (n - 1)..], float)]
  }

  function BufferBytes(doc: Document, binary: seq<byte>, index: nat): seq<byte> {
    if index >= |doc.buffers| then []
    else
      match doc.buffers[index]
      case Embedded(_) => binary
      case Inline(content) => content
      case External => []
  }

  // The components of the element at `start`, if the buffer holds all of it.
  function ElementAt(buf: seq<byte>, start: nat, component: nat, n: nat, float: FloatReader): Option<seq<real>>
    requires ComponentSize(component) > 0
  {
    var width := ComponentSize(component) * n;
    var chunk := Slice(buf, start, start + width);
    if |chunk| < width then None else Some(Components(component, n, chunk, float))
  }

  // What stands at a place, if anything does.
  type ElementReader = nat -> Option<seq<real>>

  function Reader(buf: seq<byte>, component: nat, n: nat, float: FloatReader): ElementReader
    requires ComponentSize(component) > 0
  {
    (start: nat) => ElementAt(buf, start, component, n, float)
  }

  // The elements found `stride` apart from `start` on, up to the first that runs past
  // the buffer.
  function Elements(at: ElementReader, start: nat, stride: nat, left: nat): seq<real>
    decreases left
  {
    if left == 0 then []
    else
      match at(start)
      case None => []
      case Some(values) => values + Elements(at, start + stride, stride, left - 1)
  }

  // How far apart a view's elements are: tightly packed unless it says otherwise.
  function Stride(v: View, component: nat, n: nat): nat {
    if v.byteStride == 0 then ComponentSize(component) * n else v.byteStride
  }

  function Zeros(count: nat, n: nat): seq<real> { seq(count * n, _ => 0.0) }

  // The values an accessor finds through its view: zeros without one, and no answer at
  // all when the view it names is missing.
  function ReadView(doc: Document, binary: seq<byte>, a: Accessor, n: nat, float: FloatReader): Option<seq<real>>
    requires ComponentSize(a.component) > 0
  {
    if a.view.None? then Some(Zeros(a.count, n))
    else if a.view.value >= |doc.views| then None
    else
      var v := doc.views[a.view.value];
      var at := Reader(BufferBytes(doc, binary, v.buffer), a.component, n, float);
      Some(Elements(at, v.byteOffset + a.byteOffset, Stride(v, a.component, n), a.count))
  }

  // The flat values of an accessor. A missing accessor or an unknown type reads as
  // nothing; a missing buffer view stops the whole parse, which is `None`.
  function ReadAccessor(doc: Document, binary: seq<byte>, index: nat, float: FloatReader): Option<seq<real>> {
    if index >= |doc.accessors| then Some([])
    else
      var a := doc.accessors[index];
      var n := ComponentCount(a.kind);
      if ComponentSize(a.component) == 0 || n == 0 || a.count == 0 then Some([]) else ReadView(doc, binary, a, n, float)
  }

  method ReadValues(doc: Document, binary: seq<byte>, index: nat, float: FloatReader) returns (r: Option<seq<real>>)
    ensures r == ReadAccessor(doc, binary, index, float)
  {
    if index >= |doc.accessors| {
      return Some([]);
    }
    var a := doc.accessors[index];
    var n := ComponentCount(a.kind);
    if ComponentSize(a.component) == 0 || n == 0 || a.count == 0 {
      return Some([]);
    }
    r := ReadThroughView(doc, binary, a, n, float);
  }

  method ReadThroughView(doc: Document, binary: seq<byte>, a: Accessor, n: nat, float: FloatReader) returns (r: Option<seq<real>>)
    requires ComponentSize(a.component) > 0
    ensures r == ReadView(doc, binary, a, n, float)
  {
    if a.view.None? {
      return Some(Zeros(a.count, n));
    }
    if a.view.value >= |doc.views| {
      return None;
    }
    var v := doc.views[a.view.value];
    var out := ReadElements(Reader(BufferBytes(doc, binary, v.buffer), a.component, n, float), v.byteOffset + a.byteOffset, Stride(v, a.component, n), a.count);
    r := Some(out);
  }

  // The reading loop.
  method ReadElements(at: ElementReader, base: nat, stride: nat, count: nat) returns (out: seq<real>)
    ensures out == Elements(at, base, stride, count)
  {
    var start: nat, left: nat := base, count;
    out := [];
    while left > 0
      invariant out + Elements(at, start, stride, left) == Elements(at, base, stride, count)
    {
      var values := at(start);
      ElementsNext(at, out, start, stride, left);
      if values.None? {
        return;
      }
      out, start, left := out + values.value, start + stride, left - 1;
    }
  }

  lemma {:induction false} ElementsNext(at: ElementReader, out: seq<real>, start: nat, stride: nat, left: nat)
    requires left > 0
    ensures out + Elements(at, start, stride, left)
            == match at(start) case None => out case Some(values) => (out + values) + Elements(at, start + stride, stride, left - 1)
  {
    if at(start).Some? {
      assert out + (at(start).value + Elements(at, start + stride, stride, left - 1))
          == (out + at(start).value) + Elements(at, start + stride, stride, left - 1);
    }
  }

  // ------------------------------------------------------------------ the walk

  type Frame = (nat, Matrix4)

  function Children(n: Node, world: Matrix4): (r: seq<Frame>)
    ensures |r| == |n.children| && forall k :: 0 <= k < |r| ==> r[k] == (n.children[k], world)
  {
    seq(|n.children|, k requires 0 <= k < |n.children| => (n.children[k], world))
  }

  function Unseen(n: nat, seen: set<nat>): set<nat> {
    set i: nat | i < n && i !in seen
  }

  lemma {:induction false} SeeOne(n: nat, seen: set<nat>, i: nat)
    requires i < n && i !in seen
    ensures |Unseen(n, seen + {i})| < |Unseen(n, seen)|
  {
    assert Unseen(n, seen) == Unseen(n, seen + {i}) + {i};
  }

  // The nodes visited from a stack, each with its world transform, in order.
  function Visit(doc: Document, stack: seq<Frame>, seen: set<nat>): seq<Frame>
    decreases |Unseen(|doc.nodes|, seen)|, |stack|
  {
    if stack == [] then []
    else
      var (i, parent) := stack[|stack| - 1];
      var rest := stack[..|stack| - 1];
      if i in seen || i >= |doc.nodes| then Visit(doc, rest, seen)
      else
        var world := MatMul(parent, Local(doc.nodes[i].transform));
        SeeOne(|doc.nodes|, seen, i);
        [(i, world)] + Visit(doc, rest + Children(doc.nodes[i], world), seen + {i})
  }

  // The scene's roots; without a scene, or without a list, every node is one.
  function Roots(doc: Document): seq<nat> {
    var every := seq(|doc.nodes|, i => i);
    if |doc.scenes| == 0 then every
    else if doc.scene < |doc.scenes| then
      match doc.scenes[doc.scene]
      case Some(roots) => roots
      case None => every
    else every
  }

  function RootFrames(doc: Document): (r: seq<Frame>)
    ensures |r| == |Roots(doc)| && forall k :: 0 <= k < |r| ==> r[k] == (Roots(doc)[k], IDENTITY4)
  {
    seq(|Roots(doc)|, k requires 0 <= k < |Roots(doc)| => (Roots(doc)[k], IDENTITY4))
  }

  function Visited(doc: Document): seq<Frame> { Visit(doc, RootFrames(doc), {}) }

  // ------------------------------------------------------------------- meshes

  // Positions taken three by three through the world transform.
  function Placed(world: Matrix4, flat: seq<real>): seq<real>
    decreases |flat|
  {
    if |flat| < 3 then []
    else
      var p := Apply(world, (flat[0], flat[1], flat[2]));
      [p.0, p.1, p.2] + Placed(world, flat[3..])
  }

  function Truncated(v: real): int { if v >= 0.0 then v.Floor else -((-v).Floor) }

  function Shifted(flat: seq<real>, offset: nat): seq<int> {
    seq(|flat|, k requires 0 <= k < |flat| => Truncated(flat[k]) + offset)
  }

  function Consecutive(from: nat, n: nat): seq<int> {
    seq(n, k => from + k)
  }

  type Geometry = (seq<real>, seq<int>)

  // One primitive's vertices and faces after those already there.
  function WithPrimitive(doc: Document, binary: seq<byte>, world: Matrix4, g: Geometry, p: Primitive, float: FloatReader): Option<Geometry> {
    if p.position.None? then Some(g)
    else
      match ReadAccessor(doc, binary, p.position.value, float)
      case None => None
      case Some(flat) =>
        var offset := |g.0| / 3;
        var verts := g.0 + Placed(world, flat);
        if p.indices.None? then Some((verts, g.1 + Consecutive(offset, |flat| / 3)))
        else
          match ReadAccessor(doc, binary, p.indices.value, float)
          case None => None
          case Some(indices) => Some((verts, g.1 + Shifted(indices, offset)))
  }

  function MeshGeometry(doc: Document, binary: seq<byte>, world: Matrix4, ps: seq<Primitive>, float: FloatReader): Option<Geometry> {
    if ps == [] then Some(([], []))
    else
      match MeshGeometry(doc, binary, world, ps[..|ps| - 1], float)
      case None => None
      case Some(g) => WithPrimitive(doc, binary, world, g, ps[|ps| - 1], float)
  }

  // The element a visited node stands for, if it carries geometry.
  function NodeElements(doc: Document, binary: seq<byte>, f: Frame, float: FloatReader): Option<seq<Element>> {
    if f.0 >= |doc.nodes| then Some([])
    else
      var node := doc.nodes[f.0];
      if node.mesh.None? || node.mesh.value >= |doc.meshes| then Some([])
      else
        match MeshGeometry(doc, binary, f.1, doc.meshes[node.mesh.value].primitives, float)
        case None => None
        case Some((verts, faces)) =>
          Some(if verts == [] then [] else [Element("", "node-" + Dec(f.0), node.name, "mesh", verts, faces)])
  }

  function FrameElements(doc: Document, binary: seq<byte>, fs: seq<Frame>, float: FloatReader): Option<seq<Element>> {
    if fs == [] then Some([])
    else
      match FrameElements(doc, binary, fs[..|fs| - 1], float)
      case None => None
      case Some(es) =>
        match NodeElements(doc, binary, fs[|fs| - 1], float)
        case None => None
        case Some(more) => Some(es + more)
  }

  datatype Loaded = Loaded(elements: seq<Element>, problems: seq<string>)

  // What the loader needs from outside: the JSON codec and the reading of floats.
  datatype Loader = Loader(codec: Codec<Document>, float: FloatReader)

  // A file that is not a container is tried as plain JSON.
  function LoadDocument(l: Loader, data: seq<byte>): (Option<Document>, seq<byte>) {
    var (doc, binary) := Split(data, l.codec.decode);
    if doc.Some? then (doc, binary) else (l.codec.decode(data), [])
  }

  function Parsed(l: Loader, data: seq<byte>): Option<Loaded> {
    match LoadDocument(l, data)
    case (None, _) => Some(Loaded([], ["unreadable-gltf"]))
    case (Some(doc), binary) =>
      match FrameElements(doc, binary, Visited(doc), l.float)
      case None => None
      case Some(es) => Some(Loaded(es, if es == [] then ["no-geometry"] else []))
  }

  // The loader: one loop over the stack, composing transforms on the way down.
  method ParseGltf(l: Loader, data: seq<byte>) returns (r: Option<Loaded>)
    ensures r == Parsed(l, data)
  {
    var doc, binary := SplitGlb(data, l.codec.decode);
    if doc.None? {
      doc, binary := l.codec.decode(data), [];
    }
    if doc.None? {
      return Some(Loaded([], ["unreadable-gltf"]));
    }
    var elements := WalkScene(doc.value, binary, l);
    if elements.None? {
      return None;
    }
    r := Some(Loaded(elements.value, if elements.value == [] then ["no-geometry"] else []));
  }

  method WalkScene(doc: Document, binary: seq<byte>, l: Loader) returns (elements: Option<seq<Element>>)
    ensures elements == FrameElements(doc, binary, Visited(doc), l.float)
  {
    var stack := RootFrames(doc);
    var seen: set<nat> := {};
    var found: seq<Element> := [];
    ghost var done: seq<Frame> := [];
    while stack != []
      invariant Some(found) == FrameElements(doc, binary, done, l.float)
      invariant done + Visit(doc, stack, seen) == Visited(doc)
      decreases |Unseen(|doc.nodes|, seen)|, |stack|
    {
      var (i, parent) := stack[|stack| - 1];
      ghost var stack0, seen0 := stack, seen;
      stack := stack[..|stack| - 1];
      if i in seen || i >= |doc.nodes| {
        continue;
      }
      SeeOne(|doc.nodes|, seen, i);
      seen := seen + {i};
      var local := Local(doc.nodes[i].transform);
      var world := Multiply(parent, local);
      stack := stack + Children(doc.nodes[i], world);
      VisitOne(doc, stack0, seen0, done);
      var more := NodeElements(doc, binary, (i, world), l.float);
      ElementsOfOneMore(doc, binary, done, (i, world), l.float);
      if more.None? {
        FailureSpreads(doc, binary, done + [(i, world)], Visit(doc, stack, seen), l);
        return None;
      }
      found, done := found + more.value, done + [(i, world)];
    }
    assert done + Visit(doc, stack, seen) == done;
    elements := Some(found);
  }

  lemma {:induction false} ElementsOfOneMore(doc: Document, binary: seq<byte>, done: seq<Frame>, f: Frame, float: FloatReader)
    requires FrameElements(doc, binary, done, float).Some?
    ensures var more := NodeElements(doc, binary, f, float);
            FrameElements(doc, binary, done + [f], float)
            == if more.None? then None else Some(FrameElements(doc, binary, done, float).value + more.value)
  {
    assert (done + [f])[..|done|] == done;
  }

  lemma {:induction false} VisitOne(doc: Document, stack: seq<Frame>, seen: set<nat>, done: seq<Frame>)
    requires stack != [] && stack[|stack| - 1].0 !in seen && stack[|stack| - 1].0 < |doc.nodes|
    ensures var (i, parent) := stack[|stack| - 1];
            var world := MatMul(parent, Local(doc.nodes[i].transform));
            done + Visit(doc, stack, seen)
            == done + [(i, world)] + Visit(doc, stack[..|stack| - 1] + Children(doc.nodes[i], world), seen + {i})
  {
  }

  lemma {:induction false} FailureSpreads(doc: Document, binary: seq<byte>, a: seq<Frame>, b: seq<Frame>, l: Loader)
    requires FrameElements(doc, binary, a, l.float).None?
    ensures FrameElements(doc, binary, a + b, l.float).None?
  {
    if b == [] {
      assert a + b == a;
    } else {
      assert (a + b)[..|a + b| - 1] == a + b[..|b| - 1];
      FailureSpreads(doc, binary, a, b[..|b| - 1], l);
    }
  }
}
