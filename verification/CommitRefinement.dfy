/** The write routine is one of the protocol's histories: left alone, a runner's steps do
    to the store exactly what the routine does. */
module CommitRefinement {
  import opened Naming
  import opened Renditions
  import opened Pipeline
  import opened CommitProtocol

  lemma {:induction false} Twice(stages: seq<Stage>, r: nat, a: Stage, b: Stage)
    requires r < |stages|
    ensures stages[r := a][r := b] == stages[r := b]
  {
  }

  lemma {:induction false} PassChild(c: Setting, t: Store, stages: seq<Stage>, r: nat, existing: set<string>, k: nat)
    requires Reached(c, World(t, stages)) && |stages| == |c.jobs| && r < |c.jobs|
    requires k < |Kids(c, r)| && stages[r] == Writing(existing, k) && NameAt(c, r, k) in existing
    ensures Reached(c, World(t, stages[r := Writing(existing, k + 1)]))
  {
    assert Enabled(c, stages[r], r, Pass);
    assert StageAfter(c, t, stages[r], r, Pass) == Writing(existing, k + 1) && StoreAfter(c, t, stages[r], r, Pass) == t;
    ReachNext(c, World(t, stages), r, Pass, World(t, stages[r := Writing(existing, k + 1)]));
  }

  lemma {:induction false} MakeFullChild(c: Setting, t: Store, stages: seq<Stage>, r: nat, existing: set<string>, k: nat)
    requires Reached(c, World(t, stages)) && |stages| == |c.jobs| && r < |c.jobs| && c.atomic
    requires k < |Kids(c, r)| && stages[r] == Writing(existing, k) && NameAt(c, r, k) !in existing
    ensures Reached(c, World(Put(Touched(t, NameAt(c, r, k)), t.nextUid, Kids(c, r)[k].content), stages[r := Writing(existing, k + 1)]))
  {
    var u := Put(Touched(t, NameAt(c, r, k)), t.nextUid, Kids(c, r)[k].content);
    assert Enabled(c, stages[r], r, MakeFull);
    assert StageAfter(c, t, stages[r], r, MakeFull) == Writing(existing, k + 1) && StoreAfter(c, t, stages[r], r, MakeFull) == u;
    ReachNext(c, World(t, stages), r, MakeFull, World(u, stages[r := Writing(existing, k + 1)]));
  }

  lemma {:induction false} MakeChild(c: Setting, t: Store, stages: seq<Stage>, r: nat, existing: set<string>, k: nat)
    requires Reached(c, World(t, stages)) && |stages| == |c.jobs| && r < |c.jobs| && !c.atomic
    requires k < |Kids(c, r)| && stages[r] == Writing(existing, k) && NameAt(c, r, k) !in existing
    ensures Reached(c, World(Touched(t, NameAt(c, r, k)), stages[r := Filling(existing, k, t.nextUid)]))
  {
    ReachNext(c, World(t, stages), r, Make, World(Touched(t, NameAt(c, r, k)), stages[r := Filling(existing, k, t.nextUid)]));
  }

  lemma {:induction false} FillChild(c: Setting, t: Store, stages: seq<Stage>, r: nat, existing: set<string>, k: nat, uid: nat)
    requires Reached(c, World(t, stages)) && |stages| == |c.jobs| && r < |c.jobs|
    requires k < |Kids(c, r)| && stages[r] == Filling(existing, k, uid)
    ensures Reached(c, World(Put(t, uid, Kids(c, r)[k].content), stages[r := Writing(existing, k + 1)]))
  {
    var u := Put(t, uid, Kids(c, r)[k].content);
    assert Enabled(c, stages[r], r, Fill);
    assert StageAfter(c, t, stages[r], r, Fill) == Writing(existing, k + 1) && StoreAfter(c, t, stages[r], r, Fill) == u;
    ReachNext(c, World(t, stages), r, Fill, World(u, stages[r := Writing(existing, k + 1)]));
  }

  lemma {:induction false} OneChild(c: Setting, t: Store, stages: seq<Stage>, r: nat, existing: set<string>, k: nat)
    requires Reached(c, World(t, stages)) && |stages| == |c.jobs| && r < |c.jobs|
    requires k < |Kids(c, r)| && stages[r] == Writing(existing, k)
    ensures Reached(c, World(WithKid(t, existing, NameAt(c, r, k), Kids(c, r)[k].content), stages[r := Writing(existing, k + 1)]))
  {
    var name := NameAt(c, r, k);
    if name in existing {
      PassChild(c, t, stages, r, existing, k);
    } else if c.atomic {
      MakeFullChild(c, t, stages, r, existing, k);
    } else {
      MakeChild(c, t, stages, r, existing, k);
      FillChild(c, Touched(t, name), stages[r := Filling(existing, k, t.nextUid)], r, existing, k, t.nextUid);
      Twice(stages, r, Filling(existing, k, t.nextUid), Writing(existing, k + 1));
    }
  }

  lemma {:induction false} LastKid(c: Setting, s: Store, r: nat, existing: set<string>, k: nat)
    requires r < |c.jobs| && k < |Kids(c, r)|
    ensures WithKids(s, existing, KeyFor(c, r), Kids(c, r)[..k + 1])
            == WithKid(WithKids(s, existing, KeyFor(c, r), Kids(c, r)[..k]), existing, NameAt(c, r, k), Kids(c, r)[k].content)
  {
    assert Kids(c, r)[..k + 1][..k] == Kids(c, r)[..k];
  }

  lemma {:induction false} ChildrenWritten(c: Setting, s: Store, stages: seq<Stage>, r: nat, k: nat)
    requires Reached(c, World(s, stages)) && |stages| == |c.jobs| && r < |c.jobs|
    requires stages[r].Ready? && k <= |Kids(c, r)|
    ensures var existing := Names(s.children);
            Reached(c, World(WithKids(s, existing, KeyFor(c, r), Kids(c, r)[..k]), stages[r := Writing(existing, k)]))
  {
    var existing := Names(s.children);
    if k == 0 {
      ReachNext(c, World(s, stages), r, Begin, World(s, stages[r := Writing(existing, 0)]));
    } else {
      ChildrenWritten(c, s, stages, r, k - 1);
      var t, at := WithKids(s, existing, KeyFor(c, r), Kids(c, r)[..k - 1]), stages[r := Writing(existing, k - 1)];
      OneChild(c, t, at, r, existing, k - 1);
      LastKid(c, s, r, existing, k - 1);
      assert at[r := Writing(existing, k)] == stages[r := Writing(existing, k)];
    }
  }

  lemma {:induction false} LookForMarker(c: Setting, t: Store, stages: seq<Stage>, r: nat, existing: set<string>)
    requires Reached(c, World(t, stages)) && |stages| == |c.jobs| && r < |c.jobs|
    requires stages[r] == Writing(existing, |Kids(c, r)|)
    ensures var e := First(t.children, ManifestName(KeyFor(c, r)));
            Reached(c, World(t, stages[r := if e.Some? then Committing(e.value.uid) else Marking]))
  {
    var e := First(t.children, ManifestName(KeyFor(c, r)));
    ReachNext(c, World(t, stages), r, Look, World(t, stages[r := if e.Some? then Committing(e.value.uid) else Marking]));
  }

  lemma {:induction false} MakeMarker(c: Setting, t: Store, stages: seq<Stage>, r: nat)
    requires Reached(c, World(t, stages)) && |stages| == |c.jobs| && r < |c.jobs| && stages[r] == Marking
    ensures Reached(c, World(Touched(t, ManifestName(KeyFor(c, r))), stages[r := Committing(t.nextUid)]))
  {
    ReachNext(c, World(t, stages), r, Mark, World(Touched(t, ManifestName(KeyFor(c, r))), stages[r := Committing(t.nextUid)]));
  }

  lemma {:induction false} FillMarker(c: Setting, t: Store, stages: seq<Stage>, r: nat, uid: nat)
    requires Reached(c, World(t, stages)) && |stages| == |c.jobs| && r < |c.jobs| && stages[r] == Committing(uid)
    ensures Reached(c, World(Put(t, uid, c.format.codec.encode(ManifestFor(c, r))), stages[r := Listing]))
  {
    ReachNext(c, World(t, stages), r, Step.Commit, World(Put(t, uid, c.format.codec.encode(ManifestFor(c, r))), stages[r := Listing]));
  }

  lemma {:induction false} MarkerWritten(c: Setting, t: Store, stages: seq<Stage>, r: nat, existing: set<string>)
    requires Reached(c, World(t, stages)) && |stages| == |c.jobs| && r < |c.jobs|
    requires stages[r] == Writing(existing, |Kids(c, r)|)
    ensures Reached(c, World(WithMarker(t, ManifestName(KeyFor(c, r)), c.format.codec.encode(ManifestFor(c, r))), stages[r := Listing]))
  {
    LookForMarker(c, t, stages, r, existing);
    match First(t.children, ManifestName(KeyFor(c, r)))
    case Some(e) =>
      FillMarker(c, t, stages[r := Committing(e.uid)], r, e.uid);
      Twice(stages, r, Committing(e.uid), Listing);
    case None =>
      MakeMarker(c, t, stages[r := Marking], r);
      Twice(stages, r, Marking, Committing(t.nextUid));
      FillMarker(c, Touched(t, ManifestName(KeyFor(c, r))), stages[r := Committing(t.nextUid)], r, t.nextUid);
      Twice(stages, r, Committing(t.nextUid), Listing);
  }

  // From wherever the others have got to, a runner that is not interrupted takes the
  // store to what the write routine makes of it.
  lemma {:induction false} UninterruptedWrite(c: Setting, s: Store, stages: seq<Stage>, r: nat)
    requires Reached(c, World(s, stages)) && |stages| == |c.jobs| && r < |c.jobs| && stages[r].Ready?
    ensures Reached(c, World(Written(c.format, s, c.jobs[r].pair, c.jobs[r].result), stages[r := Listing]))
  {
    AllChildrenWritten(c, s, stages, r);
    var existing := Names(s.children);
    MarkerWritten(c, WithKids(s, existing, KeyFor(c, r), Kids(c, r)), stages[r := Writing(existing, |Kids(c, r)|)], r, existing);
    Twice(stages, r, Writing(existing, |Kids(c, r)|), Listing);
  }

  lemma {:induction false} AllChildrenWritten(c: Setting, s: Store, stages: seq<Stage>, r: nat)
    requires Reached(c, World(s, stages)) && |stages| == |c.jobs| && r < |c.jobs| && stages[r].Ready?
    ensures var existing := Names(s.children);
            Reached(c, World(WithKids(s, existing, KeyFor(c, r), Kids(c, r)), stages[r := Writing(existing, |Kids(c, r)|)]))
  {
    ChildrenWritten(c, s, stages, r, |Kids(c, r)|);
    assert Kids(c, r)[..|Kids(c, r)|] == Kids(c, r);
  }

  // So does the prune that follows: past the listed children one by one, the store is
  // what the prune routine leaves.
  lemma {:induction false} PrunedUpTo(c: Setting, s: Store, stages: seq<Stage>, r: nat, i: nat)
    requires Reached(c, World(s, stages)) && |stages| == |c.jobs| && r < |c.jobs| && Wellkept(s)
    requires stages[r] == Listing && i <= |s.children|
    ensures var drop := Superseded(c.format, c.jobs[r].pair);
            Reached(c, World(s.(children := Midway(s.children, i, drop, {})), stages[r := Pruning(s.children, i)]))
  {
    var drop := Superseded(c.format, c.jobs[r].pair);
    if i == 0 {
      assert s.children[..0] == [] && Midway(s.children, 0, drop, {}) == s.children;
      ReachNext(c, World(s, stages), r, List, World(s, stages[r := Pruning(s.children, 0)]));
    } else {
      PrunedUpTo(c, s, stages, r, i - 1);
      PruneNext(c, s, s.(children := Midway(s.children, i - 1, drop, {})), stages[r := Pruning(s.children, i - 1)], r, i - 1);
      Twice(stages, r, Pruning(s.children, i - 1), Pruning(s.children, i));
    }
  }

  lemma {:induction false} PruneNext(c: Setting, s: Store, t: Store, stages: seq<Stage>, r: nat, i: nat)
    requires Reached(c, World(t, stages)) && |stages| == |c.jobs| && r < |c.jobs| && Wellkept(s) && i < |s.children|
    requires stages[r] == Pruning(s.children, i) && t == s.(children := Midway(s.children, i, Superseded(c.format, c.jobs[r].pair), {}))
    ensures Reached(c, World(s.(children := Midway(s.children, i + 1, Superseded(c.format, c.jobs[r].pair), {})),
                             stages[r := Pruning(s.children, i + 1)]))
  {
    var drop := Superseded(c.format, c.jobs[r].pair);
    if Dropped(s.children[i], drop, {}) {
      RemoveNext(s, i, drop, {});
    } else {
      KeepNext(s.children, i, drop, {});
    }
    ReachNext(c, World(t, stages), r, Prune,
              World(s.(children := Midway(s.children, i + 1, drop, {})), stages[r := Pruning(s.children, i + 1)]));
  }

  lemma {:induction false} UninterruptedPrune(c: Setting, s: Store, stages: seq<Stage>, r: nat)
    requires Reached(c, World(s, stages)) && |stages| == |c.jobs| && r < |c.jobs| && Wellkept(s) && stages[r] == Listing
    ensures Reached(c, World(Pruned(s, Superseded(c.format, c.jobs[r].pair), {}), stages[r := Pruning(s.children, |s.children|)]))
  {
    PrunedUpTo(c, s, stages, r, |s.children|);
    assert s.children[..|s.children|] == s.children && s.children[|s.children|..] == [];
  }
}
