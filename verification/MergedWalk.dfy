/** The walk over the writer's tree: groups last to first, each group's meshes last to
    first, all under one transform. */
module MergedWalk {
  import opened Indexing
  import opened Transforms
  import opened Gltf
  import opened MergedGlb
  import opened MergedLayers

  function Reverse<T>(s: seq<T>): (r: seq<T>)
    ensures |r| == |s| && forall k :: 0 <= k < |s| ==> r[k] == s[|s| - 1 - k]
  {
    seq(|s|, k requires 0 <= k < |s| => s[|s| - 1 - k])
  }

  lemma {:induction false} ReverseConcat<T>(a: seq<T>, b: seq<T>)
    ensures Reverse(a + b) == Reverse(b) + Reverse(a)
  {
  }

  function Frames(ids: seq<nat>, world: Matrix4): (r: seq<Frame>)
    ensures |r| == |ids| && forall k :: 0 <= k < |ids| ==> r[k] == (ids[k], world)
  {
    seq(|ids|, k requires 0 <= k < |ids| => (ids[k], world))
  }

  // ---------------------------------------------------------------- transforms

  lemma {:induction false} TimesIdentity(m: Matrix4)
    ensures MatMul(m, IDENTITY4) == m && MatMul(IDENTITY4, m) == m
  {
    var right, left := MatMul(m, IDENTITY4), MatMul(IDENTITY4, m);
    forall i | 0 <= i < 16 ensures right[i] == m[i] && left[i] == m[i] {
      EntryOfIdentity(m, i / 4, i % 4);
      assert right[i / 4 * 4 + i % 4] == Entry(m, IDENTITY4, i / 4, i % 4);
      assert left[i / 4 * 4 + i % 4] == Entry(IDENTITY4, m, i / 4, i % 4);
    }
  }

  lemma {:induction false} EntryOfIdentity(m: Matrix4, col: nat, row: nat)
    requires col < 4 && row < 4
    ensures Entry(m, IDENTITY4, col, row) == m[col * 4 + row]
    ensures Entry(IDENTITY4, m, col, row) == m[col * 4 + row]
  {
  }

  lemma {:induction false} AtRestIsIdentity()
    ensures Local(AT_REST) == IDENTITY4
  {
    assert Rotation((0.0, 0.0, 0.0, 1.0)) == IDENTITY4;
    assert Scaling((1.0, 1.0, 1.0)) == IDENTITY4 && Translation((0.0, 0.0, 0.0)) == IDENTITY4;
    TimesIdentity(IDENTITY4);
  }

  lemma {:induction false} AtRestKeeps(m: Matrix4)
    ensures MatMul(m, Local(AT_REST)) == m
  {
    AtRestIsIdentity();
    TimesIdentity(m);
  }

  // ------------------------------------------------------------------- the walk

  ghost predicate Resting(doc: Document, i: nat, kids: seq<nat>) {
    i < |doc.nodes| && doc.nodes[i].children == kids && doc.nodes[i].transform == AT_REST
  }

  ghost predicate Leaves(doc: Document, ids: seq<nat>) {
    forall k :: 0 <= k < |ids| ==> Resting(doc, ids[k], [])
  }

  ghost predicate Fresh(ids: seq<nat>, seen: set<nat>) {
    forall k :: 0 <= k < |ids| ==> ids[k] !in seen
  }

  // A stage of the walk: what is still stacked, what was seen.
  datatype Stage = Stage(stack: seq<Frame>, seen: set<nat>)

  function Ahead(doc: Document, s: Stage): seq<Frame> { Visit(doc, s.stack, s.seen) }

  // From one stage the walk yields `out` and is at another.
  ghost predicate Leads(doc: Document, s: Stage, out: seq<Frame>, t: Stage) {
    Ahead(doc, s) == out + Ahead(doc, t)
  }

  lemma {:induction false} LeadsOn(doc: Document, s: Stage, a: seq<Frame>, t: Stage, b: seq<Frame>, u: Stage)
    requires Leads(doc, s, a, t) && Leads(doc, t, b, u)
    ensures Leads(doc, s, a + b, u)
  {
    assert a + b + Ahead(doc, u) == a + (b + Ahead(doc, u));
  }

  // A resting node on top of the stack passes its parent's transform on.
  lemma {:induction false} VisitResting(doc: Document, rest: seq<Frame>, i: nat, kids: seq<nat>, world: Matrix4, seen: set<nat>)
    requires Resting(doc, i, kids) && i !in seen
    ensures Leads(doc, Stage(rest + [(i, world)], seen), [(i, world)], Stage(rest + Frames(kids, world), seen + {i}))
  {
    AtRestKeeps(world);
    var stack := rest + [(i, world)];
    assert stack[..|stack| - 1] == rest && stack[|stack| - 1] == (i, world);
    assert Children(doc.nodes[i], world) == Frames(kids, world);
  }

  lemma {:induction false} LeafShape(rest: seq<Frame>, ids: seq<nat>, world: Matrix4, seen: set<nat>)
    requires ids != []
    ensures var init, last := ids[..|ids| - 1], ids[|ids| - 1];
            && rest + Frames(ids, world) == rest + Frames(init, world) + [(last, world)]
            && rest + Frames(init, world) + Frames([], world) == rest + Frames(init, world)
            && seen + {last} + ToSet(init) == seen + ToSet(ids)
            && Frames(Reverse(ids), world) == [(last, world)] + Frames(Reverse(init), world)
  {
    var init, last := ids[..|ids| - 1], ids[|ids| - 1];
    assert ids == init + [last];
  }

  lemma {:induction false} FewerLeaves(doc: Document, ids: seq<nat>, seen: set<nat>)
    requires ids != [] && Leaves(doc, ids) && NoDuplicates(ids) && Fresh(ids, seen)
    ensures var init, last := ids[..|ids| - 1], ids[|ids| - 1];
            Leaves(doc, init) && NoDuplicates(init) && Fresh(init, seen + {last}) && Resting(doc, last, []) && last !in seen
  {
  }

  lemma {:induction false} NoLeaves(doc: Document, rest: seq<Frame>, world: Matrix4, seen: set<nat>)
    ensures Leads(doc, Stage(rest + Frames([], world), seen), Frames(Reverse([]), world), Stage(rest, seen + ToSet([])))
  {
    assert rest + Frames([], world) == rest && seen + ToSet([]) == seen;
    assert Frames(Reverse([]), world) == [];
  }

  lemma {:induction false} VisitLeaves(doc: Document, rest: seq<Frame>, ids: seq<nat>, world: Matrix4, seen: set<nat>)
    requires Leaves(doc, ids) && NoDuplicates(ids) && Fresh(ids, seen)
    ensures Leads(doc, Stage(rest + Frames(ids, world), seen), Frames(Reverse(ids), world), Stage(rest, seen + ToSet(ids)))
  {
    if ids == [] {
      NoLeaves(doc, rest, world, seen);
    } else {
      var init, last := ids[..|ids| - 1], ids[|ids| - 1];
      FewerLeaves(doc, ids, seen);
      LeafShape(rest, ids, world, seen);
      VisitResting(doc, rest + Frames(init, world), last, [], world, seen);
      VisitLeaves(doc, rest, init, world, seen + {last});
      LeadsOn(doc, Stage(rest + Frames(ids, world), seen), [(last, world)], Stage(rest + Frames(init, world), seen + {last}),
              Frames(Reverse(init), world), Stage(rest, seen + ToSet(ids)));
    }
  }

  // A group and its meshes.
  function GroupWalk(g: nat, ids: seq<nat>, world: Matrix4): seq<Frame> {
    [(g, world)] + Frames(Reverse(ids), world)
  }

  lemma {:induction false} VisitGroup(doc: Document, rest: seq<Frame>, g: nat, ids: seq<nat>, world: Matrix4, seen: set<nat>)
    requires Resting(doc, g, ids) && g !in seen && Leaves(doc, ids) && NoDuplicates(ids) && Fresh(ids, seen + {g})
    ensures Leads(doc, Stage(rest + [(g, world)], seen), GroupWalk(g, ids, world), Stage(rest, seen + {g} + ToSet(ids)))
  {
    VisitResting(doc, rest, g, ids, world, seen);
    VisitLeaves(doc, rest, ids, world, seen + {g});
    LeadsOn(doc, Stage(rest + [(g, world)], seen), [(g, world)], Stage(rest + Frames(ids, world), seen + {g}),
            Frames(Reverse(ids), world), Stage(rest, seen + {g} + ToSet(ids)));
  }

  // The three groups, under one transform.
  function TreeWalk(l: Layers, n: nat, world: Matrix4): seq<Frame> {
    GroupWalk(n + 2, l.changed, world) + GroupWalk(n + 1, l.newer, world) + GroupWalk(n, l.older, world)
  }

  ghost predicate Grouped(doc: Document, l: Layers, n: nat) {
    && n == |l.stamps| && Resting(doc, n, l.older) && Resting(doc, n + 1, l.newer) && Resting(doc, n + 2, l.changed)
    && forall i :: 0 <= i < n ==> Resting(doc, i, [])
  }

  lemma {:induction false} GroupLeaves(doc: Document, l: Layers, n: nat, ids: seq<nat>)
    requires Grouped(doc, l, n) && MergedLayers.InRange(ids, n)
    ensures Leaves(doc, ids)
  {
  }

  lemma {:induction false} FreshAfter(ids: seq<nat>, n: nat, g: nat, others: seq<nat>, seen: set<nat>)
    requires MergedLayers.InRange(ids, n) && n <= g && Apart(ids, others) && Fresh(ids, seen)
    ensures Fresh(ids, seen + {g}) && Fresh(ids, seen + {g} + ToSet(others))
  {
  }

  lemma {:induction false} GroupIsFresh(doc: Document, l: Layers, n: nat, seen: set<nat>)
    requires Grouped(doc, l, n) && Separate(l) && forall i :: 0 <= i < n + 3 ==> i !in seen
    ensures var s1 := seen + {n + 2} + ToSet(l.changed); var s2 := s1 + {n + 1} + ToSet(l.newer);
            Fresh(l.changed, seen + {n + 2}) && Fresh(l.newer, s1 + {n + 1}) && Fresh(l.older, s2 + {n}) && n + 1 !in s1 && n !in s2
  {
    var s1 := seen + {n + 2} + ToSet(l.changed);
    var s2 := s1 + {n + 1} + ToSet(l.newer);
    FreshAfter(l.changed, n, n + 2, [], seen);
    FreshAfter(l.newer, n, n + 2, l.changed, seen);
    FreshAfter(l.older, n, n + 2, l.changed, seen);
    FreshAfter(l.newer, n, n + 1, [], s1);
    FreshAfter(l.older, n, n + 1, l.newer, s1);
    FreshAfter(l.older, n, n, [], s2);
  }

  lemma {:induction false} ThreeFrames(n: nat, world: Matrix4)
    ensures Frames([n, n + 1, n + 2], world) == [(n, world), (n + 1, world)] + [(n + 2, world)]
    ensures [(n, world), (n + 1, world)] == [(n, world)] + [(n + 1, world)]
    ensures [(n, world)] == [] + [(n, world)]
  {
  }

  lemma {:induction false} VisitTree(doc: Document, l: Layers, n: nat, world: Matrix4, seen: set<nat>)
    requires Grouped(doc, l, n) && Separate(l) && forall i :: 0 <= i < n + 3 ==> i !in seen
    ensures Visit(doc, Frames([n, n + 1, n + 2], world), seen) == TreeWalk(l, n, world)
  {
    var s0 := Stage(Frames([n, n + 1, n + 2], world), seen);
    var s1 := Stage([(n, world), (n + 1, world)], seen + {n + 2} + ToSet(l.changed));
    var s2 := Stage([(n, world)], s1.seen + {n + 1} + ToSet(l.newer));
    var s3 := Stage([], s2.seen + {n} + ToSet(l.older));
    GroupLeaves(doc, l, n, l.older);
    GroupLeaves(doc, l, n, l.newer);
    GroupLeaves(doc, l, n, l.changed);
    GroupIsFresh(doc, l, n, seen);
    ThreeFrames(n, world);
    VisitGroup(doc, s1.stack, n + 2, l.changed, world, seen);
    VisitGroup(doc, s2.stack, n + 1, l.newer, world, s1.seen);
    VisitGroup(doc, [], n, l.older, world, s2.seen);
    var a, b, c := GroupWalk(n + 2, l.changed, world), GroupWalk(n + 1, l.newer, world), GroupWalk(n, l.older, world);
    LeadsOn(doc, s0, a, s1, b, s2);
    LeadsOn(doc, s0, a + b, s2, c, s3);
    assert Ahead(doc, s3) == [];
  }
}
