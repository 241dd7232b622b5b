/** The scene walk on an arbitrary node graph, cycles and shared nodes included. */
module SceneWalk {
  import opened Indexing
  import opened Transforms
  import opened Gltf

  // A chain of nodes from a root down, each a child of the one before.
  ghost predicate Chain(doc: Document, p: seq<nat>) {
    if p == [] then true
    else
      var init, last := p[..|p| - 1], p[|p| - 1];
      Chain(doc, init) && last < |doc.nodes| && Follows(doc, init, last)
  }

  // `i` may come next after the chain `p`.
  ghost predicate Follows(doc: Document, p: seq<nat>, i: nat) {
    if p == [] then i in Roots(doc)
    else p[|p| - 1] < |doc.nodes| && i in doc.nodes[p[|p| - 1]].children
  }

  ghost predicate Reachable(doc: Document, i: nat) {
    exists p :: Chain(doc, p) && p != [] && p[|p| - 1] == i
  }

  // The transforms along a chain composed from the root down.
  function ChainWorld(doc: Document, p: seq<nat>): Matrix4 {
    if p == [] then IDENTITY4
    else if p[|p| - 1] >= |doc.nodes| then IDENTITY4
    else MatMul(ChainWorld(doc, p[..|p| - 1]), Local(doc.nodes[p[|p| - 1]].transform))
  }

  // A frame on the stack: its node may follow some chain whose world it carries.
  ghost predicate Justified(doc: Document, f: Frame) {
    exists p :: Chain(doc, p) && Follows(doc, p, f.0) && f.1 == ChainWorld(doc, p)
  }

  // A visited frame: its world is that of a chain ending in its node.
  ghost predicate Sound(doc: Document, f: Frame) {
    exists p :: Chain(doc, p) && p != [] && p[|p| - 1] == f.0 && f.1 == ChainWorld(doc, p)
  }

  function Indices(fs: seq<Frame>): (r: seq<nat>)
    ensures |r| == |fs| && forall k :: 0 <= k < |fs| ==> r[k] == fs[k].0
  {
    seq(|fs|, k requires 0 <= k < |fs| => fs[k].0)
  }

  lemma {:induction false} ExtendChain(doc: Document, p: seq<nat>, i: nat)
    requires Chain(doc, p) && Follows(doc, p, i) && i < |doc.nodes|
    ensures Chain(doc, p + [i])
    ensures ChainWorld(doc, p + [i]) == MatMul(ChainWorld(doc, p), Local(doc.nodes[i].transform))
    ensures forall c :: c in doc.nodes[i].children ==> Follows(doc, p + [i], c)
  {
    assert (p + [i])[..|p + [i]| - 1] == p;
  }

  lemma {:induction false} ChildrenFollow(doc: Document, q: seq<nat>, i: nat, world: Matrix4)
    requires Chain(doc, q) && i < |doc.nodes| && world == ChainWorld(doc, q)
    requires forall c :: c in doc.nodes[i].children ==> Follows(doc, q, c)
    ensures AllJustified(doc, Children(doc.nodes[i], world))
  {
    var kids := Children(doc.nodes[i], world);
    forall k | 0 <= k < |kids| ensures Justified(doc, kids[k]) {
      assert doc.nodes[i].children[k] in doc.nodes[i].children;
    }
  }

  lemma {:induction false} ChainIsSound(doc: Document, q: seq<nat>, f: Frame)
    requires Chain(doc, q) && q != [] && q[|q| - 1] == f.0 && f.1 == ChainWorld(doc, q)
    ensures Sound(doc, f)
  {
  }

  lemma {:induction false} Descend(doc: Document, f: Frame, world: Matrix4)
    requires Justified(doc, f) && f.0 < |doc.nodes| && world == MatMul(f.1, Local(doc.nodes[f.0].transform))
    ensures Sound(doc, (f.0, world)) && AllJustified(doc, Children(doc.nodes[f.0], world))
  {
    var p :| Chain(doc, p) && Follows(doc, p, f.0) && f.1 == ChainWorld(doc, p);
    ExtendChain(doc, p, f.0);
    ChainIsSound(doc, p + [f.0], (f.0, world));
    ChildrenFollow(doc, p + [f.0], f.0, world);
  }

  ghost predicate AllJustified(doc: Document, stack: seq<Frame>) {
    forall k :: 0 <= k < |stack| ==> Justified(doc, stack[k])
  }

  // A frame as it is visited, its own transform composed in.
  function Entered(doc: Document, f: Frame): Frame
    requires f.0 < |doc.nodes|
  {
    (f.0, MatMul(f.1, Local(doc.nodes[f.0].transform)))
  }

  // What holds of every stacked frame, and makes something hold of the frame visited
  // while holding again of its children, makes that hold of everything visited.
  ghost predicate Carried(doc: Document, stacked: Frame -> bool, visited: Frame -> bool) {
    forall f: Frame :: stacked(f) && f.0 < |doc.nodes| ==>
      visited(Entered(doc, f)) && AllStacked(stacked, Children(doc.nodes[f.0], Entered(doc, f).1))
  }

  ghost predicate AllStacked(stacked: Frame -> bool, stack: seq<Frame>) {
    forall k :: 0 <= k < |stack| ==> stacked(stack[k])
  }

  lemma {:induction false} StackedConcat(stacked: Frame -> bool, a: seq<Frame>, b: seq<Frame>)
    requires AllStacked(stacked, a) && AllStacked(stacked, b)
    ensures AllStacked(stacked, a + b)
  {
  }

  lemma {:induction false} VisitTop(doc: Document, stack: seq<Frame>, seen: set<nat>)
    requires stack != [] && stack[|stack| - 1].0 !in seen && stack[|stack| - 1].0 < |doc.nodes|
    ensures var top, rest := stack[|stack| - 1], stack[..|stack| - 1];
            Visit(doc, stack, seen)
            == [Entered(doc, top)] + Visit(doc, rest + Children(doc.nodes[top.0], Entered(doc, top).1), seen + {top.0})
  {
  }

  lemma {:induction false} VisitCarries(doc: Document, stacked: Frame -> bool, visited: Frame -> bool, stack: seq<Frame>, seen: set<nat>, k: nat)
    requires Carried(doc, stacked, visited) && AllStacked(stacked, stack) && k < |Visit(doc, stack, seen)|
    ensures visited(Visit(doc, stack, seen)[k])
    decreases |Unseen(|doc.nodes|, seen)|, |stack|
  {
    var top, rest := stack[|stack| - 1], stack[..|stack| - 1];
    if top.0 in seen || top.0 >= |doc.nodes| {
      VisitCarries(doc, stacked, visited, rest, seen, k);
    } else {
      assert stacked(top);
      var kids := Children(doc.nodes[top.0], Entered(doc, top).1);
      SeeOne(|doc.nodes|, seen, top.0);
      VisitTop(doc, stack, seen);
      if k > 0 {
        StackedConcat(stacked, rest, kids);
        VisitCarries(doc, stacked, visited, rest + kids, seen + {top.0}, k - 1);
      }
    }
  }

  // Every visited frame is sound.
  lemma {:induction false} VisitIsSound(doc: Document, k: nat)
    requires k < |Visited(doc)|
    ensures Sound(doc, Visited(doc)[k])
  {
    var justified, sound := (f: Frame) => Justified(doc, f), (f: Frame) => Sound(doc, f);
    forall f: Frame | justified(f) && f.0 < |doc.nodes|
      ensures sound(Entered(doc, f)) && AllStacked(justified, Children(doc.nodes[f.0], Entered(doc, f).1))
    {
      Descend(doc, f, Entered(doc, f).1);
    }
    forall k | 0 <= k < |RootFrames(doc)| ensures justified(RootFrames(doc)[k]) {
      assert Chain(doc, []) && Follows(doc, [], Roots(doc)[k]);
    }
    VisitCarries(doc, justified, sound, RootFrames(doc), {}, k);
  }

  // No node is visited twice, none that was seen before, none out of range.
  lemma {:induction false} VisitsOnce(doc: Document, stack: seq<Frame>, seen: set<nat>)
    ensures OnceBelow(Indices(Visit(doc, stack, seen)), seen, |doc.nodes|)
    decreases |Unseen(|doc.nodes|, seen)|, |stack|
  {
    if stack != [] {
      var (i, parent) := stack[|stack| - 1];
      var rest := stack[..|stack| - 1];
      if i in seen || i >= |doc.nodes| {
        VisitsOnce(doc, rest, seen);
      } else {
        var world := MatMul(parent, Local(doc.nodes[i].transform));
        SeeOne(|doc.nodes|, seen, i);
        var later := Visit(doc, rest + Children(doc.nodes[i], world), seen + {i});
        VisitsOnce(doc, rest + Children(doc.nodes[i], world), seen + {i});
        OnceMore(i, Indices(later), seen, |doc.nodes|);
        IndicesOfCons((i, world), later);
      }
    }
  }

  // Numbers below `n`, none twice and none of them seen.
  ghost predicate OnceBelow(ids: seq<nat>, seen: set<nat>, n: nat) {
    NoDuplicates(ids) && forall i :: i in ids ==> i !in seen && i < n
  }

  lemma {:induction false} OnceMore(i: nat, ids: seq<nat>, seen: set<nat>, n: nat)
    requires OnceBelow(ids, seen + {i}, n) && i !in seen && i < n
    ensures OnceBelow([i] + ids, seen, n)
  {
    assert i !in ids;
  }

  lemma {:induction false} IndicesOfCons(f: Frame, fs: seq<Frame>)
    ensures Indices([f] + fs) == [f.0] + Indices(fs)
  {
  }

  // What the walk leaves behind is closed: everything on the stack, and every child
  // of a visited node, has been visited or was seen before.
  ghost predicate Covers(doc: Document, all: set<nat>, i: nat) { i < |doc.nodes| ==> i in all }

  ghost predicate StackCovered(doc: Document, all: set<nat>, stack: seq<Frame>) {
    forall k :: 0 <= k < |stack| ==> Covers(doc, all, stack[k].0)
  }

  ghost predicate ChildrenCovered(doc: Document, all: set<nat>, visited: seq<nat>) {
    forall i, c :: i in visited && i < |doc.nodes| && c in doc.nodes[i].children ==> Covers(doc, all, c)
  }

  function Behind(doc: Document, stack: seq<Frame>, seen: set<nat>): set<nat> {
    seen + ToSet(Indices(Visit(doc, stack, seen)))
  }

  lemma {:induction false} VisitCovers(doc: Document, stack: seq<Frame>, seen: set<nat>)
    ensures StackCovered(doc, Behind(doc, stack, seen), stack)
    ensures ChildrenCovered(doc, Behind(doc, stack, seen), Indices(Visit(doc, stack, seen)))
    decreases |Unseen(|doc.nodes|, seen)|, |stack|
  {
    if stack != [] {
      var (i, parent) := stack[|stack| - 1];
      var rest := stack[..|stack| - 1];
      if i in seen || i >= |doc.nodes| {
        VisitCovers(doc, rest, seen);
      } else {
        var world := MatMul(parent, Local(doc.nodes[i].transform));
        SeeOne(|doc.nodes|, seen, i);
        var next := rest + Children(doc.nodes[i], world);
        var later := Visit(doc, next, seen + {i});
        VisitCovers(doc, next, seen + {i});
        IndicesOfCons((i, world), later);
        assert Behind(doc, stack, seen) == Behind(doc, next, seen + {i});
        StackOfNext(doc, Behind(doc, stack, seen), stack, world);
        ChildrenOfNext(doc, Behind(doc, stack, seen), rest, i, world, Indices(later));
      }
    }
  }

  lemma {:induction false} StackOfNext(doc: Document, all: set<nat>, stack: seq<Frame>, world: Matrix4)
    requires stack != [] && stack[|stack| - 1].0 < |doc.nodes| && stack[|stack| - 1].0 in all
    requires StackCovered(doc, all, stack[..|stack| - 1] + Children(doc.nodes[stack[|stack| - 1].0], world))
    ensures StackCovered(doc, all, stack)
  {
    var next := stack[..|stack| - 1] + Children(doc.nodes[stack[|stack| - 1].0], world);
    forall k | 0 <= k < |stack| - 1 ensures Covers(doc, all, stack[k].0) {
      assert next[k] == stack[k];
    }
  }

  lemma {:induction false} ChildrenOfNext(doc: Document, all: set<nat>, rest: seq<Frame>, i: nat, world: Matrix4, later: seq<nat>)
    requires i < |doc.nodes| && StackCovered(doc, all, rest + Children(doc.nodes[i], world))
    requires ChildrenCovered(doc, all, later)
    ensures ChildrenCovered(doc, all, [i] + later)
  {
    var kids := Children(doc.nodes[i], world);
    forall c | c in doc.nodes[i].children ensures Covers(doc, all, c) {
      var m :| 0 <= m < |doc.nodes[i].children| && doc.nodes[i].children[m] == c;
      assert (rest + kids)[|rest| + m] == kids[m];
    }
  }

  lemma {:induction false} ChainIsVisited(doc: Document, p: seq<nat>)
    requires Chain(doc, p) && p != []
    ensures p[|p| - 1] in Indices(Visited(doc))
  {
    var init, last := p[..|p| - 1], p[|p| - 1];
    var all := Behind(doc, RootFrames(doc), {});
    VisitCovers(doc, RootFrames(doc), {});
    if init == [] {
      var k :| 0 <= k < |Roots(doc)| && Roots(doc)[k] == last;
      assert RootFrames(doc)[k].0 == last;
    } else {
      ChainIsVisited(doc, init);
      assert init[|init| - 1] in Indices(Visited(doc));
    }
    assert Covers(doc, all, last);
  }

  // The walk visits every reachable node, no other, and each of them once; and the
  // world it gives a node is that of a chain of ancestors from a root.
  lemma {:induction false} WalkIsExact(doc: Document)
    ensures NoDuplicates(Indices(Visited(doc)))
    ensures forall i: nat :: i in Indices(Visited(doc)) <==> Reachable(doc, i)
    ensures forall k :: 0 <= k < |Visited(doc)| ==> Sound(doc, Visited(doc)[k])
  {
    VisitsOnce(doc, RootFrames(doc), {});
    forall k | 0 <= k < |Visited(doc)| ensures Sound(doc, Visited(doc)[k]) {
      VisitIsSound(doc, k);
    }
    forall i: nat ensures i in Indices(Visited(doc)) <==> Reachable(doc, i) {
      if i in Indices(Visited(doc)) {
        var k :| 0 <= k < |Visited(doc)| && Indices(Visited(doc))[k] == i;
        assert Sound(doc, Visited(doc)[k]);
      }
      if Reachable(doc, i) {
        var p :| Chain(doc, p) && p != [] && p[|p| - 1] == i;
        ChainIsVisited(doc, p);
      }
    }
  }

  // -------------------------------------------------------------------- forests

  // A node's own transform first, then its parent's, up to the root's.
  function AncestorsApplied(doc: Document, p: seq<nat>, v: Vec3): Vec3 {
    if p == [] || p[|p| - 1] >= |doc.nodes| then v
    else AncestorsApplied(doc, p[..|p| - 1], Apply(Local(doc.nodes[p[|p| - 1]].transform), v))
  }

  ghost predicate AllAffine(doc: Document) {
    forall i :: 0 <= i < |doc.nodes| ==> Affine(Local(doc.nodes[i].transform))
  }

  lemma {:induction false} ChainWorldApplies(doc: Document, p: seq<nat>, v: Vec3)
    requires Chain(doc, p) && AllAffine(doc)
    ensures Apply(ChainWorld(doc, p), v) == AncestorsApplied(doc, p, v)
  {
    if p == [] {
      IdentityKeeps(v);
    } else {
      var init, local := p[..|p| - 1], Local(doc.nodes[p[|p| - 1]].transform);
      ApplyComposes(ChainWorld(doc, init), local, v);
      ChainWorldApplies(doc, init, Apply(local, v));
    }
  }

  // A node is a child of at most one node, and a root of none.
  ghost predicate Forest(doc: Document) {
    && (forall a, b, c :: 0 <= a < |doc.nodes| && 0 <= b < |doc.nodes| && c in doc.nodes[a].children && c in doc.nodes[b].children ==> a == b)
    && (forall a, c :: 0 <= a < |doc.nodes| && c in doc.nodes[a].children ==> c !in Roots(doc))
  }

  // So each node has one chain of ancestors.
  lemma {:induction false} OneChain(doc: Document, p: seq<nat>, q: seq<nat>)
    requires Forest(doc) && Chain(doc, p) && Chain(doc, q) && p != [] && q != [] && p[|p| - 1] == q[|q| - 1]
    ensures p == q
  {
    var a, b := p[..|p| - 1], q[..|q| - 1];
    assert p == a + [p[|p| - 1]] && q == b + [q[|q| - 1]];
    if a != [] && b != [] {
      OneChain(doc, a, b);
    }
  }
}
