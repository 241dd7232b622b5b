/** What each group of the merged document shows. */
module MergedLayers {
  import opened Wrappers
  import opened Indexing
  import opened Model3D
  import opened GeometryMatch
  import opened MergedGlb

  // A delta's contribution to a group: its mesh, if there is one to show.
  function Shown(e: Option<Element>, name: string): seq<Stamp> {
    if e.Some? && HasMesh(e.value) then [Stamp(e.value, name)] else []
  }

  // The old version, the new version, and the visible changes, straight from the
  // deltas.
  function OldLayer(ds: seq<ElementDelta>): seq<Stamp> {
    if ds == [] then []
    else
      var i := |ds| - 1;
      OldLayer(ds[..i]) + Shown(ds[i].was, ElementId(ds[i], i) + "|old")
  }

  function NewLayer(ds: seq<ElementDelta>): seq<Stamp> {
    if ds == [] then []
    else
      var i := |ds| - 1;
      NewLayer(ds[..i]) + Shown(ds[i].now, ElementId(ds[i], i) + "|new")
  }

  function ChangeLayer(ds: seq<ElementDelta>): seq<Stamp> {
    if ds == [] then []
    else
      var i := |ds| - 1;
      ChangeLayer(ds[..i]) + Shown(VisibleChange(ds[i]), ElementId(ds[i], i) + "|diff")
  }

  ghost predicate InRange(ids: seq<nat>, n: nat) {
    forall k :: 0 <= k < |ids| ==> ids[k] < n
  }

  function Picked(stamps: seq<Stamp>, ids: seq<nat>): (r: seq<Stamp>)
    requires InRange(ids, |stamps|)
    ensures |r| == |ids| && forall k :: 0 <= k < |ids| ==> r[k] == stamps[ids[k]]
  {
    seq(|ids|, k requires 0 <= k < |ids| => stamps[ids[k]])
  }

  ghost predicate Apart(a: seq<nat>, b: seq<nat>) {
    forall x :: x in a ==> x !in b
  }

  // The groups share no node, list none twice, and list only nodes there are.
  ghost predicate Separate(l: Layers) {
    && InRange(l.older, |l.stamps|) && InRange(l.newer, |l.stamps|) && InRange(l.changed, |l.stamps|)
    && NoDuplicates(l.older) && NoDuplicates(l.newer) && NoDuplicates(l.changed)
    && Apart(l.older, l.newer) && Apart(l.older, l.changed) && Apart(l.newer, l.changed)
  }

  ghost predicate Shows(l: Layers, a: seq<Stamp>, b: seq<Stamp>, c: seq<Stamp>)
    requires Separate(l)
  {
    Picked(l.stamps, l.older) == a && Picked(l.stamps, l.newer) == b && Picked(l.stamps, l.changed) == c
  }

  lemma {:induction false} OneMore(stamps: seq<Stamp>, ids: seq<nat>, e: Option<Element>, name: string)
    requires InRange(ids, |stamps|) && NoDuplicates(ids)
    ensures var stamps' := Queued(e, stamps, name); var ids' := Listed(e, |stamps|, ids);
            && InRange(ids', |stamps'|) && InRange(ids, |stamps'|) && NoDuplicates(ids')
            && Picked(stamps', ids') == Picked(stamps, ids) + Shown(e, name)
  {
    assert |stamps| !in ids;
  }

  lemma {:induction false} Untouched(stamps: seq<Stamp>, ids: seq<nat>, e: Option<Element>, name: string)
    requires InRange(ids, |stamps|)
    ensures InRange(ids, |Queued(e, stamps, name)|) && Picked(Queued(e, stamps, name), ids) == Picked(stamps, ids)
  {
  }

  lemma {:induction false} StillApart(a: seq<nat>, b: seq<nat>, e: Option<Element>, n: nat)
    requires Apart(a, b) && InRange(a, n) && InRange(b, n)
    ensures Apart(Listed(e, n, a), b) && Apart(a, Listed(e, n, b))
  {
    assert n !in a && n !in b;
  }

  lemma {:induction false} OldAdded(l: Layers, d: ElementDelta, eid: string, a: seq<Stamp>, b: seq<Stamp>, c: seq<Stamp>)
    requires Separate(l) && Shows(l, a, b, c)
    ensures Separate(WithOld(l, d, eid)) && Shows(WithOld(l, d, eid), a + Shown(d.was, eid + "|old"), b, c)
  {
    OneMore(l.stamps, l.older, d.was, eid + "|old");
    Untouched(l.stamps, l.newer, d.was, eid + "|old");
    Untouched(l.stamps, l.changed, d.was, eid + "|old");
    StillApart(l.older, l.newer, d.was, |l.stamps|);
    StillApart(l.older, l.changed, d.was, |l.stamps|);
  }

  lemma {:induction false} NewAdded(l: Layers, d: ElementDelta, eid: string, a: seq<Stamp>, b: seq<Stamp>, c: seq<Stamp>)
    requires Separate(l) && Shows(l, a, b, c)
    ensures Separate(WithNew(l, d, eid)) && Shows(WithNew(l, d, eid), a, b + Shown(d.now, eid + "|new"), c)
  {
    OneMore(l.stamps, l.newer, d.now, eid + "|new");
    Untouched(l.stamps, l.older, d.now, eid + "|new");
    Untouched(l.stamps, l.changed, d.now, eid + "|new");
    StillApart(l.older, l.newer, d.now, |l.stamps|);
    StillApart(l.newer, l.changed, d.now, |l.stamps|);
  }

  lemma {:induction false} ChangeAdded(l: Layers, d: ElementDelta, eid: string, a: seq<Stamp>, b: seq<Stamp>, c: seq<Stamp>)
    requires Separate(l) && Shows(l, a, b, c)
    ensures Separate(WithChange(l, d, eid)) && Shows(WithChange(l, d, eid), a, b, c + Shown(VisibleChange(d), eid + "|diff"))
  {
    OneMore(l.stamps, l.changed, VisibleChange(d), eid + "|diff");
    Untouched(l.stamps, l.older, VisibleChange(d), eid + "|diff");
    Untouched(l.stamps, l.newer, VisibleChange(d), eid + "|diff");
    StillApart(l.older, l.changed, VisibleChange(d), |l.stamps|);
    StillApart(l.newer, l.changed, VisibleChange(d), |l.stamps|);
  }

  // The old group shows every old element that has a mesh, the new group every new
  // one, the difference group every visible change; and no mesh is in two groups.
  lemma {:induction false} PlannedShows(ds: seq<ElementDelta>)
    ensures Separate(Planned(ds))
    ensures Shows(Planned(ds), OldLayer(ds), NewLayer(ds), ChangeLayer(ds))
  {
    if ds != [] {
      var i := |ds| - 1;
      var l, d, eid := Planned(ds[..i]), ds[i], ElementId(ds[i], i);
      var a, b, c := OldLayer(ds[..i]), NewLayer(ds[..i]), ChangeLayer(ds[..i]);
      PlannedShows(ds[..i]);
      OldAdded(l, d, eid, a, b, c);
      var l1, a1 := WithOld(l, d, eid), a + Shown(d.was, eid + "|old");
      NewAdded(l1, d, eid, a1, b, c);
      ChangeAdded(WithNew(l1, d, eid), d, eid, a1, b + Shown(d.now, eid + "|new"), c);
    }
  }
}
