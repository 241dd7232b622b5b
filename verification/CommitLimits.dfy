/** Where the commit protocol's promise ends: a generation overtaken while it writes, and
    children made but never filled. */
module CommitLimits {
  import opened Wrappers
  import opened Bytes
  import opened JsonText
  import opened Naming
  import opened Renditions
  import opened Pipeline
  import opened PipelineTheorems
  import opened CommitProtocol
  import opened CommitRefinement

  // ---------------------------------------------------------- overtaken runners

  function AllReady(c: Setting): seq<Stage> { seq(|c.jobs|, _ => Ready) }

  // The store when runner q has written its children and stands before its marker.
  function WithKidsOf(c: Setting, q: nat): Store
    requires q < |c.jobs|
  {
    WithKids(c.start, Names(c.start.children), KeyFor(c, q), Kids(c, q))
  }

  function BeforeMarker(c: Setting, q: nat): seq<Stage>
    requires q < |c.jobs|
  {
    AllReady(c)[q := Writing(Names(c.start.children), |Kids(c, q)|)]
  }

  lemma {:induction false} HasWritten(c: Setting, q: nat)
    requires q < |c.jobs|
    ensures Reached(c, World(WithKidsOf(c, q), BeforeMarker(c, q)))
  {
    ReachStart(c, World(c.start, AllReady(c)));
    AllChildrenWritten(c, c.start, AllReady(c), q);
  }

  // Meanwhile runner r commits and prunes, from first to last.
  lemma {:induction false} RunsThrough(c: Setting, s: Store, stages: seq<Stage>, r: nat) returns (stage: Stage)
    requires Reached(c, World(s, stages)) && |stages| == |c.jobs| && r < |c.jobs| && stages[r].Ready? && Wellkept(s)
    ensures Reached(c, World(Committed(c.format, s, c.jobs[r].pair, c.jobs[r].result, {}), stages[r := stage]))
  {
    var t := Written(c.format, s, c.jobs[r].pair, c.jobs[r].result);
    UninterruptedWrite(c, s, stages, r);
    WrittenIsWellkept(c.format, s, c.jobs[r].pair, c.jobs[r].result);
    UninterruptedPrune(c, t, stages[r := Listing], r);
    stage := Pruning(t.children, |t.children|);
    Twice(stages, r, Listing, stage);
  }

  // That leaves nothing under an overtaken key.
  lemma {:induction false} NothingIsLeft(c: Setting, s: Store, r: nat, key: string)
    requires r < |c.jobs| && key in Superseded(c.format, c.jobs[r].pair)
    ensures forall name :: name in Names(Committed(c.format, s, c.jobs[r].pair, c.jobs[r].result, {}).children) && IsDiffChild(name) ==>
              KeyOf(name) != key
  {
    var t, drop := Written(c.format, s, c.jobs[r].pair, c.jobs[r].result), Superseded(c.format, c.jobs[r].pair);
    KeptMembers(t.children, drop, {});
    var left := Kept(t.children, drop, {});
    forall k | 0 <= k < |left| && IsDiffChild(left[k].name) ensures KeyOf(left[k].name) != key {
      assert left[k] in left;
    }
  }

  // A runner that then fills its marker promises what is gone.
  lemma {:induction false} MarkerIsBroken(c: Setting, s: Store, q: nat)
    requires q < |c.jobs| && Legible(c, KeyFor(c, q)) && Kids(c, q) != [] && NameAt(c, q, 0) !in Names(s.children)
    ensures !Safe(c, WithMarker(s, ManifestName(KeyFor(c, q)), c.format.codec.encode(ManifestFor(c, q))), KeyFor(c, q))
  {
    var mname, content := ManifestName(KeyFor(c, q)), c.format.codec.encode(ManifestFor(c, q));
    MarkerIsFirst(s, mname, content);
    ReadsBackPlain(c.format.codec, ManifestFor(c, q));
    MarkerNames(s, mname, content);
    KidIsNoMarker(c, q, 0, KeyFor(c, q));
    assert ManifestFor(c, q).expected[0] == NameAt(c, q, 0);
  }

  lemma {:induction false} FirstKidIsGone(c: Setting, s: Store, q: nat, r: nat)
    requires q < |c.jobs| && r < |c.jobs| && Faithful(c.format.digest) && Kids(c, q) != []
    requires KeyFor(c, q) in Superseded(c.format, c.jobs[r].pair)
    ensures NameAt(c, q, 0) !in Names(Committed(c.format, s, c.jobs[r].pair, c.jobs[r].result, {}).children)
  {
    var k := Kids(c, q)[0];
    NothingIsLeft(c, s, r, KeyFor(c, q));
    KeyOfOurNames(KeyFor(c, q), k.kind, k.index, k.ext);
  }

  // A runner with something to promise can be overtaken between its last child and its
  // marker: the other prunes those children, and then the manifest reads and is not
  // complete. What the store held at the start makes no difference.
  lemma {:induction false} OvertakenIsBroken(c: Setting, q: nat) returns (w: World)
    requires Wellkept(c.start) && q < |c.jobs| && Legible(c, KeyFor(c, q)) && Overtaken(c, KeyFor(c, q)) && Kids(c, q) != []
    ensures Reached(c, w) && !Safe(c, w.store, KeyFor(c, q))
  {
    var r: nat :| r < |c.jobs| && KeyFor(c, q) in Superseded(c.format, c.jobs[r].pair);
    OwnKeyIsKept(c.format, c.jobs[r].pair);
    var s, stages, existing := WithKidsOf(c, q), BeforeMarker(c, q), Names(c.start.children);
    HasWritten(c, q);
    KidsAreWellkept(c.start, existing, KeyFor(c, q), Kids(c, q));
    var stage := RunsThrough(c, s, stages, r);
    var t := Committed(c.format, s, c.jobs[r].pair, c.jobs[r].result, {});
    MarkerWritten(c, t, stages[r := stage], q, existing);
    FirstKidIsGone(c, s, q, r);
    MarkerIsBroken(c, t, q);
    w := World(WithMarker(t, ManifestName(KeyFor(c, q)), c.format.codec.encode(ManifestFor(c, q))), stages[r := stage][q := Listing]);
  }

  // A manifest of this key that reads is complete, at every moment of every history.
  ghost predicate AlwaysSafe(c: Setting, key: string) {
    forall ws: seq<World>, k :: History(c, ws) && 0 <= k < |ws| ==> Safe(c, ws[k].store, key)
  }

  // Key by key, and whatever else goes on: the promise is kept in every history exactly
  // when the key is not overtaken, or no runner writes a child under it.
  lemma {:induction false} SafeExactly(c: Setting, key: string)
    requires Legible(c, key) && StoreOk(c, c.start, key)
    ensures AlwaysSafe(c, key) <==> !Overtaken(c, key) || Childless(c, key)
  {
    if Secure(c, key) {
      forall ws: seq<World>, k | History(c, ws) && 0 <= k < |ws| ensures Safe(c, ws[k].store, key) {
        CommitSafety(c, key, ws, k);
      }
    } else {
      var q: nat :| q < |c.jobs| && KeyFor(c, q) == key && c.jobs[q].result.kids != [];
      NoKidsInOrder(c, q);
      var w := OvertakenIsBroken(c, q);
      var ws: seq<World> :| History(c, ws) && ws[|ws| - 1] == w;
      assert !Safe(c, ws[|ws| - 1].store, key);
    }
  }

  // ------------------------------------------------------- a child left unfilled

  function FullMarker(c: Setting, s: Store, r: nat): Child
    requires r < |c.jobs|
  {
    Child(s.nextUid, ManifestName(KeyFor(c, r)), Some(c.format.codec.encode(ManifestFor(c, r))))
  }

  lemma {:induction false} FillLast(s: Store, e: Child, content: seq<byte>)
    requires forall i :: 0 <= i < |s.children| ==> s.children[i].uid != s.nextUid
    requires e == Child(s.nextUid, e.name, Some(content))
    ensures Put(Touched(s, e.name), s.nextUid, content) == Store(s.children + [e], s.nextUid + 1)
  {
  }

  // A runner past its children, finding no marker, makes one and fills it.
  lemma {:induction false} ReachCommit(c: Setting, s: Store, stages: seq<Stage>, r: nat, existing: set<string>)
    requires Reached(c, World(s, stages)) && |stages| == |c.jobs| && r < |c.jobs|
    requires stages[r] == Writing(existing, |Kids(c, r)|) && First(s.children, ManifestName(KeyFor(c, r))).None?
    requires forall i :: 0 <= i < |s.children| ==> s.children[i].uid != s.nextUid
    ensures Reached(c, World(Store(s.children + [FullMarker(c, s, r)], s.nextUid + 1), stages[r := Listing]))
  {
    MarkerWritten(c, s, stages, r, existing);
    FillLast(s, FullMarker(c, s, r), FullMarker(c, s, r).content.value);
  }

  lemma {:induction false} OneKidInOrder(k: Kid)
    ensures InOrder([k]) == [k] && InOrder([]) == []
  {
    assert [k][1..] == [];
  }

  // Two runners of one job with one child to write.
  function Duo(f: Format, p: Pair, k: Kid): Setting {
    var job := Job(p, Result([k], false, k.mode, None));
    Setting(f, [job, job], false, EMPTY)
  }

  const EMPTY: Store := Store([], 0)

  lemma {:induction false} StartsEmpty(c: Setting)
    requires |c.jobs| == 2 && c.start == EMPTY
    ensures Start(c, World(EMPTY, [Ready, Ready]))
  {
  }

  lemma {:induction false} TwoNames(name: string, other: string, e: Child)
    requires e.name == other && name != other
    ensures First([e], name) == None && First([], name) == None
  {
    assert [e][1..] == [];
  }

  // A runner that stops between making a child and filling it leaves an empty child,
  // which the next runner of the same job takes as written: the manifest reads and
  // counts as complete over a child without content.
  lemma {:induction false} UnfilledChildIsCommitted(f: Format, p: Pair, k: Kid)
    requires Faithful(f.digest)
    requires ReadsBack(f.codec, ManifestFor(Duo(f, p, k), 0))
    ensures var c := Duo(f, p, k);
            exists w :: Reached(c, w) && ReadManifest(f, w.store, KeyFor(c, 0)) == Some(ManifestFor(c, 0))
                        && IsComplete(w.store, ManifestFor(c, 0)) && !Full(w.store, NameAt(c, 0, 0))
  {
    var c := Duo(f, p, k);
    OneKidInOrder(k);
    var e := Child(0, NameAt(c, 0, 0), None);
    var s := Store([e], 1);
    HalfMade(c);
    SecondHasPassed(c, e);
    KidIsNoMarker(c, 0, 0, KeyFor(c, 0));
    TwoNames(ManifestName(KeyFor(c, 0)), e.name, e);
    ReachCommit(c, s, [Stopped, Writing(Names([e]), 1)], 1, Names([e]));
    EmptyButCounted(c, e, FullMarker(c, s, 1), Store([e] + [FullMarker(c, s, 1)], 2));
  }

  lemma {:induction false} SecondHasPassed(c: Setting, e: Child)
    requires |c.jobs| == 2 && |Kids(c, 1)| == 1 && NameAt(c, 1, 0) == e.name
    requires Reached(c, World(Store([e], 1), [Stopped, Ready]))
    ensures Reached(c, World(Store([e], 1), [Stopped, Writing(Names([e]), 1)]))
  {
    var s, ex := Store([e], 1), Names([e]);
    assert s.children[0].name in ex;
    ReachNext(c, World(s, [Stopped, Ready]), 1, Begin, World(s, [Stopped, Writing(ex, 0)]));
    ReachNext(c, World(s, [Stopped, Writing(ex, 0)]), 1, Pass, World(s, [Stopped, Writing(ex, 1)]));
  }

  lemma {:induction false} HalfMade(c: Setting)
    requires |c.jobs| == 2 && |Kids(c, 0)| == 1 && !c.atomic && c.start == EMPTY
    ensures Reached(c, World(Store([Child(0, NameAt(c, 0, 0), None)], 1), [Stopped, Ready]))
  {
    StartsEmpty(c);
    var s := Store([Child(0, NameAt(c, 0, 0), None)], 1);
    var w0, w1 := World(EMPTY, [Ready, Ready]), World(EMPTY, [Writing({}, 0), Ready]);
    var w2 := World(s, [Filling({}, 0, 0), Ready]);
    ReachStart(c, w0);
    assert Names([]) == {};
    ReachNext(c, w0, 0, Begin, w1);
    ReachNext(c, w1, 0, Make, w2);
    ReachNext(c, w2, 0, Stop, World(s, [Stopped, Ready]));
  }

  lemma {:induction false} FirstOfTwo(e: Child, d: Child)
    requires e.name != d.name
    ensures First([e, d], e.name) == Some(e) && First([e, d], d.name) == Some(d)
  {
    assert [e, d][1..] == [d];
  }

  lemma {:induction false} EmptyButCounted(c: Setting, e: Child, d: Child, s: Store)
    requires Faithful(c.format.digest) && |c.jobs| == 2 && |Kids(c, 0)| == 1 && ReadsBack(c.format.codec, ManifestFor(c, 0))
    requires s.children == [e, d] && e.name == NameAt(c, 0, 0) && e.content == None && e.name != d.name
    requires d.name == ManifestName(KeyFor(c, 0)) && d.content == Some(c.format.codec.encode(ManifestFor(c, 0)))
    ensures ReadManifest(c.format, s, KeyFor(c, 0)) == Some(ManifestFor(c, 0))
    ensures IsComplete(s, ManifestFor(c, 0)) && !Full(s, NameAt(c, 0, 0))
  {
    ReadsBackPlain(c.format.codec, ManifestFor(c, 0));
    FirstOfTwo(e, d);
    assert s.children[0].name in Names(s.children);
    assert ManifestFor(c, 0).expected == [NameAt(c, 0, 0)];
  }
}
