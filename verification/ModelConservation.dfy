/** Nothing is lost between a comparison of models and the file that shows it: the old
    layer is the whole old model, the new layer the whole new one. */
module ModelConservation {
  import opened Wrappers
  import opened Vocabulary
  import opened Indexing
  import opened Model3D
  import opened GreedyMatching
  import opened GeometryMatch
  import opened GeometryTheorems
  import opened MergedGlb
  import opened MergedLayers
  import opened MetaModel

  function Maybe(e: Option<Element>): seq<Element> { if e.Some? then [e.value] else [] }

  // One side of a list of deltas, in order.
  function WasSide(ds: seq<ElementDelta>): seq<Element> {
    if ds == [] then [] else WasSide(ds[..|ds| - 1]) + Maybe(ds[|ds| - 1].was)
  }

  function NowSide(ds: seq<ElementDelta>): seq<Element> {
    if ds == [] then [] else NowSide(ds[..|ds| - 1]) + Maybe(ds[|ds| - 1].now)
  }

  lemma {:induction false} LastSide(ds: seq<ElementDelta>, d: ElementDelta)
    ensures WasSide(ds + [d]) == WasSide(ds) + Maybe(d.was) && NowSide(ds + [d]) == NowSide(ds) + Maybe(d.now)
  {
    assert (ds + [d])[..|ds|] == ds;
  }

  lemma {:induction false} SidesConcat(a: seq<ElementDelta>, b: seq<ElementDelta>)
    ensures WasSide(a + b) == WasSide(a) + WasSide(b) && NowSide(a + b) == NowSide(a) + NowSide(b)
  {
    if b == [] {
      assert a + b == a;
    } else {
      var init, last := b[..|b| - 1], b[|b| - 1];
      assert b == init + [last] && a + b == (a + init) + [last];
      SidesConcat(a, init);
      LastSide(init, last);
      LastSide(a + init, last);
      Associates(WasSide(a), WasSide(init), Maybe(last.was));
      Associates(NowSide(a), NowSide(init), Maybe(last.now));
    }
  }

  lemma {:induction false} SidesOfGathered(f: nat -> seq<ElementDelta>, was: nat -> seq<Element>, now: nat -> seq<Element>, k: nat)
    requires forall i: nat :: i < k ==> WasSide(f(i)) == was(i) && NowSide(f(i)) == now(i)
    ensures WasSide(Gathered(f, k)) == Gathered(was, k) && NowSide(Gathered(f, k)) == Gathered(now, k)
  {
    if k > 0 {
      SidesOfGathered(f, was, now, k - 1);
      SidesNext(Gathered(f, k - 1), f(k - 1), Gathered(was, k - 1), was(k - 1), Gathered(now, k - 1), now(k - 1));
    }
  }

  lemma {:induction false} SidesNext(a: seq<ElementDelta>, row: seq<ElementDelta>, was: seq<Element>, wasMore: seq<Element>,
                                     now: seq<Element>, nowMore: seq<Element>)
    requires WasSide(a) == was && WasSide(row) == wasMore && NowSide(a) == now && NowSide(row) == nowMore
    ensures WasSide(a + row) == was + wasMore && NowSide(a + row) == now + nowMore
  {
    SidesConcat(a, row);
  }

  lemma {:induction false} GatheredNone(f: nat -> seq<Element>, k: nat)
    requires forall i: nat :: i < k ==> f(i) == []
    ensures Gathered(f, k) == []
  {
    if k > 0 {
      GatheredNone(f, k - 1);
    }
  }

  lemma {:induction false} SidesOfOne(d: ElementDelta)
    ensures WasSide([d]) == Maybe(d.was) && NowSide([d]) == Maybe(d.now) && WasSide([]) == [] && NowSide([]) == []
  {
    assert [d][..0] == [];
    assert [] + Maybe(d.was) == Maybe(d.was) && [] + Maybe(d.now) == Maybe(d.now);
  }

  lemma {:induction false} SidesOfTwo(d: ElementDelta, e: ElementDelta)
    ensures WasSide([d, e]) == Maybe(d.was) + Maybe(e.was) && NowSide([d, e]) == Maybe(d.now) + Maybe(e.now)
  {
    SidesOfOne(d);
    SidesOfOne(e);
    SidesConcat([d], [e]);
    assert [d] + [e] == [d, e];
  }

  lemma {:induction false} SidesOfRow(before: seq<Element>, after: seq<Element>, m: map<nat, nat>, tol2: real, i: nat)
    requires AllTriples(before) && AllTriples(after) && JoinsClasses(Shapes(before), Shapes(after), m) && i < |before|
    ensures WasSide(Row(before, after, m, tol2, i)) == [before[i]]
    ensures NowSide(Row(before, after, m, tol2, i)) == if i in m then [after[m[i]]] else []
  {
    var was := Some(before[i]);
    if i !in m {
      SidesOfOne(ElementDelta(Deleted, was, None, NoChange, []));
    } else {
      var now := Some(after[m[i]]);
      SidesOfOne(ElementDelta(Unchanged, was, now, NoChange, []));
      SidesOfTwo(ElementDelta(Deleted, was, None, NoChange, []), ElementDelta(Added, None, now, NoChange, []));
      assert Maybe(was) + Maybe(None) == Maybe(was) && Maybe(None) + Maybe(now) == Maybe(now);
    }
  }

  // The new positions paired with the first `k` old ones.
  function Partners(m: map<nat, nat>, k: nat): seq<nat> {
    if k == 0 then [] else Partners(m, k - 1) + if k - 1 in m then [m[k - 1]] else []
  }

  function At(es: seq<Element>, ids: seq<nat>): (r: seq<Element>)
    requires forall k :: 0 <= k < |ids| ==> ids[k] < |es|
    ensures |r| == |ids| && forall k :: 0 <= k < |ids| ==> r[k] == es[ids[k]]
  {
    seq(|ids|, k requires 0 <= k < |ids| => es[ids[k]])
  }

  ghost predicate Below(ids: seq<nat>, n: nat) { forall k :: 0 <= k < |ids| ==> ids[k] < n }

  // Old positions below `k` are paired with new positions below `n`.
  ghost predicate Lands(m: map<nat, nat>, k: nat, n: nat) {
    forall i: nat :: i < k && i in m ==> m[i] < n
  }

  lemma {:induction false} PartnersBelow(m: map<nat, nat>, k: nat, n: nat)
    requires Lands(m, k, n)
    ensures Below(Partners(m, k), n)
  {
    if k > 0 {
      PartnersBelow(m, k - 1, n);
    }
  }

  lemma {:induction false} PartnersAreGathered(after: seq<Element>, m: map<nat, nat>, f: nat -> seq<Element>, k: nat)
    requires Lands(m, k, |after|)
    requires forall i: nat :: i < k ==> f(i) == if i in m then [after[m[i]]] else []
    ensures Below(Partners(m, k), |after|) && Gathered(f, k) == At(after, Partners(m, k))
  {
    PartnersBelow(m, k, |after|);
    if k > 0 {
      PartnersBelow(m, k - 1, |after|);
      PartnersAreGathered(after, m, f, k - 1);
      LastPartner(after, m, k);
    }
  }

  lemma {:induction false} RowSides(before: seq<Element>, after: seq<Element>, m: map<nat, nat>, tol2: real,
                                    f: nat -> seq<ElementDelta>, was: nat -> seq<Element>, now: nat -> seq<Element>)
    requires AllTriples(before) && AllTriples(after) && JoinsClasses(Shapes(before), Shapes(after), m)
    requires forall i: nat :: f(i) == Row(before, after, m, tol2, i)
    requires forall i: nat :: i < |before| ==> was(i) == [before[i]]
    requires forall i: nat :: i < |before| ==> now(i) == if i in m then [after[m[i]]] else []
    ensures forall i: nat :: i < |before| ==> WasSide(f(i)) == was(i) && NowSide(f(i)) == now(i)
  {
    forall i: nat | i < |before| ensures WasSide(f(i)) == was(i) && NowSide(f(i)) == now(i) {
      SidesOfRow(before, after, m, tol2, i);
    }
  }

  lemma {:induction false} SidesOfRows(before: seq<Element>, after: seq<Element>, m: map<nat, nat>, tol2: real)
    requires AllTriples(before) && AllTriples(after) && JoinsClasses(Shapes(before), Shapes(after), m)
    ensures Below(Partners(m, |before|), |after|)
    ensures WasSide(Rows(before, after, m, tol2, |before|)) == before
    ensures NowSide(Rows(before, after, m, tol2, |before|)) == At(after, Partners(m, |before|))
  {
    var n := |before|;
    var f := (i: nat) => Row(before, after, m, tol2, i);
    var was := (i: nat) => if i < n then [before[i]] else [];
    var now := (i: nat) => if i in m && m[i] < |after| then [after[m[i]]] else [];
    assert Lands(m, n, |after|);
    RowSides(before, after, m, tol2, f, was, now);
    RowsAreGathered(before, after, m, tol2, f, n);
    JoinSides(before, after, m, f, was, now, Rows(before, after, m, tol2, n));
  }

  lemma {:induction false} JoinSides(before: seq<Element>, after: seq<Element>, m: map<nat, nat>, f: nat -> seq<ElementDelta>,
                                     was: nat -> seq<Element>, now: nat -> seq<Element>, rows: seq<ElementDelta>)
    requires rows == Gathered(f, |before|) && Lands(m, |before|, |after|)
    requires forall i: nat :: i < |before| ==> WasSide(f(i)) == was(i) && NowSide(f(i)) == now(i)
    requires forall i: nat :: i < |before| ==> was(i) == [before[i]]
    requires forall i: nat :: i < |before| ==> now(i) == if i in m then [after[m[i]]] else []
    ensures Below(Partners(m, |before|), |after|)
    ensures WasSide(rows) == before && NowSide(rows) == At(after, Partners(m, |before|))
  {
    SidesOfGathered(f, was, now, |before|);
    GatheredOnes(before, was, |before|);
    PartnersAreGathered(after, m, now, |before|);
    assert before[..|before|] == before;
  }

  lemma {:induction false} LastPartner(after: seq<Element>, m: map<nat, nat>, k: nat)
    requires k > 0 && Below(Partners(m, k), |after|) && Below(Partners(m, k - 1), |after|) && (k - 1 in m ==> m[k - 1] < |after|)
    ensures At(after, Partners(m, k)) == At(after, Partners(m, k - 1)) + if k - 1 in m then [after[m[k - 1]]] else []
  {
  }

  lemma {:induction false} SidesOfExtra(after: seq<Element>, used: set<nat>, j: nat)
    requires j < |after|
    ensures WasSide(Extra(after, used, j)) == [] && NowSide(Extra(after, used, j)) == if j in used then [] else [after[j]]
  {
    SidesOfOne(ElementDelta(Added, None, Some(after[j]), NoChange, []));
  }

  lemma {:induction false} ExtrasAreGathered(after: seq<Element>, used: set<nat>, f: nat -> seq<ElementDelta>, k: nat)
    requires forall i: nat :: f(i) == Extra(after, used, i)
    ensures Extras(after, used, k) == Gathered(f, k)
  {
    if k > 0 {
      ExtrasAreGathered(after, used, f, k - 1);
    }
  }

  lemma {:induction false} AtOneMore(es: seq<Element>, ids: seq<nat>, x: nat)
    requires Below(ids, |es|) && x < |es|
    ensures Below(ids + [x], |es|) && At(es, ids + [x]) == At(es, ids) + [es[x]]
  {
  }

  lemma {:induction false} LastOther(after: seq<Element>, used: set<nat>, k: nat)
    requires 0 < k <= |after|
    ensures At(after, Others(k, used)) == At(after, Others(k - 1, used)) + if k - 1 in used then [] else [after[k - 1]]
  {
    if k - 1 !in used {
      AtOneMore(after, Others(k - 1, used), k - 1);
    }
  }

  lemma {:induction false} OthersAreGathered(after: seq<Element>, used: set<nat>, f: nat -> seq<Element>, k: nat)
    requires k <= |after| && forall i: nat :: i < k ==> f(i) == if i in used then [] else [after[i]]
    ensures Gathered(f, k) == At(after, Others(k, used))
  {
    if k > 0 {
      OthersAreGathered(after, used, f, k - 1);
      LastOther(after, used, k);
    }
  }

  lemma {:induction false} ExtraSides(after: seq<Element>, used: set<nat>, f: nat -> seq<ElementDelta>, was: nat -> seq<Element>, now: nat -> seq<Element>)
    requires forall i: nat :: f(i) == Extra(after, used, i)
    requires forall i: nat :: was(i) == []
    requires forall i: nat :: i < |after| ==> now(i) == if i in used then [] else [after[i]]
    ensures forall i: nat :: i < |after| ==> WasSide(f(i)) == was(i) && NowSide(f(i)) == now(i)
  {
    forall i: nat | i < |after| ensures WasSide(f(i)) == was(i) && NowSide(f(i)) == now(i) {
      SidesOfExtra(after, used, i);
    }
  }

  lemma {:induction false} SidesOfExtras(after: seq<Element>, used: set<nat>)
    ensures WasSide(Extras(after, used, |after|)) == []
    ensures NowSide(Extras(after, used, |after|)) == At(after, Others(|after|, used))
  {
    var n := |after|;
    var f := (i: nat) => Extra(after, used, i);
    var was: nat -> seq<Element> := (i: nat) => [];
    var now := (i: nat) => if i < n && i !in used then [after[i]] else [];
    ExtraSides(after, used, f, was, now);
    ExtrasAreGathered(after, used, f, n);
    SidesOfGathered(f, was, now, n);
    GatheredNone(was, n);
    OthersAreGathered(after, used, now, n);
  }

  lemma {:induction false} PartnersAreUsed(m: map<nat, nat>, k: nat)
    requires Injective(m)
    ensures NoDuplicates(Partners(m, k))
    ensures forall x :: x in Partners(m, k) <==> exists i :: i in m && i < k && m[i] == x
  {
    if k > 0 {
      PartnersAreUsed(m, k - 1);
      assert k - 1 in m ==> m[k - 1] !in Partners(m, k - 1);
    }
  }

  lemma {:induction false} PartnersAreValues(before: seq<Element>, after: seq<Element>, m: map<nat, nat>)
    requires AllTriples(before) && AllTriples(after) && JoinsClasses(Shapes(before), Shapes(after), m) && Injective(m)
    ensures NoDuplicates(Partners(m, |before|)) && ToSet(Partners(m, |before|)) == m.Values
  {
    PartnersAreUsed(m, |before|);
    forall x | x in m.Values ensures x in Partners(m, |before|) {
      var i :| i in m && m[i] == x;
      assert i < |before|;
    }
  }

  lemma {:induction false} AtConcat(es: seq<Element>, a: seq<nat>, b: seq<nat>)
    requires Below(a, |es|) && Below(b, |es|)
    ensures Below(a + b, |es|) && At(es, a + b) == At(es, a) + At(es, b)
  {
  }

  // Picking every position once picks every element once.
  lemma {:induction false} AtPermuted(es: seq<Element>, ids: seq<nat>)
    requires Below(ids, |es|) && multiset(ids) == multiset(Range(|es|))
    ensures multiset(At(es, ids)) == multiset(es)
  {
    if es == [] {
      assert |multiset(ids)| == 0;
      assert ids == [];
    } else {
      var pick := (i: nat) => if i < |es| then es[i] else es[0];
      PermutedMap(pick, ids, Range(|es|));
      assert MapSeq(pick, ids) == At(es, ids) && MapSeq(pick, Range(|es|)) == es;
    }
  }

  // Every old element is the old side of exactly one delta, in the old model's order;
  // every new element the new side of exactly one.
  lemma {:induction false} EveryElementOnce(before: seq<Element>, after: seq<Element>, m: map<nat, nat>)
    requires AllTriples(before) && AllTriples(after) && Pairing(before, after, m)
    ensures WasSide(Deltas(before, after, m)) == before
    ensures multiset(NowSide(Deltas(before, after, m))) == multiset(after)
  {
    var tol2, n := Tolerance2(before, after), |before|;
    PairingJoins(before, after, m);
    PairingIsInjective(before, after, m);
    SidesOfRows(before, after, m, tol2);
    SidesOfExtras(after, m.Values);
    SidesConcat(Rows(before, after, m, tol2, n), Extras(after, m.Values, |after|));
    var taken, rest := Partners(m, n), Others(|after|, m.Values);
    PartnersAreValues(before, after, m);
    Partition(|after|, taken);
    AtConcat(after, taken, rest);
    AtPermuted(after, taken + rest);
  }

  lemma {:induction false} PairingIsInjective(before: seq<Element>, after: seq<Element>, m: map<nat, nat>)
    requires AllTriples(before) && AllTriples(after) && Pairing(before, after, m)
    ensures Injective(m)
  {
  }

  // -------------------------------------------------------- the summary adds up

  // The deltas matching by shape yields: what stayed has both sides, what went only the
  // old, what came only the new.
  ghost predicate Sided(d: ElementDelta) {
    d.change == NoChange && d.changed == [] &&
    match d.state
    case Unchanged => d.was.Some? && d.now.Some?
    case Deleted => d.was.Some? && d.now.None?
    case Added => d.was.None? && d.now.Some?
    case Modified => false
  }

  ghost predicate AllSided(ds: seq<ElementDelta>) { forall k :: 0 <= k < |ds| ==> Sided(ds[k]) }

  lemma {:induction false} SidedCounts(ds: seq<ElementDelta>)
    requires AllSided(ds)
    ensures |WasSide(ds)| == Count(ds, InState(Unchanged)) + Count(ds, InState(Deleted))
    ensures |NowSide(ds)| == Count(ds, InState(Unchanged)) + Count(ds, InState(Added))
  {
    if ds != [] {
      SidedCounts(ds[..|ds| - 1]);
    }
  }

  lemma {:induction false} RowsAreSided(before: seq<Element>, after: seq<Element>, m: map<nat, nat>, tol2: real, k: nat)
    requires AllTriples(before) && AllTriples(after)
    ensures AllSided(Rows(before, after, m, tol2, k))
  {
    if k > 0 {
      RowsAreSided(before, after, m, tol2, k - 1);
    }
  }

  lemma {:induction false} ExtrasAreSided(after: seq<Element>, used: set<nat>, k: nat)
    ensures AllSided(Extras(after, used, k))
  {
    if k > 0 {
      ExtrasAreSided(after, used, k - 1);
    }
  }

  // Unchanged and deleted together make up the old model, unchanged and added the new.
  lemma {:induction false} SummaryAddsUp(before: seq<Element>, after: seq<Element>, m: map<nat, nat>, tier: string, confidence: real)
    requires AllTriples(before) && AllTriples(after) && Pairing(before, after, m)
    ensures var s := SummaryOf(Deltas(before, after, m), tier, confidence);
            s.still + s.deleted == |before| && s.still + s.added == |after|
  {
    RowsAreSided(before, after, m, Tolerance2(before, after), |before|);
    ExtrasAreSided(after, m.Values, |after|);
    SidedCounts(Deltas(before, after, m));
    EveryElementOnce(before, after, m);
    assert |multiset(NowSide(Deltas(before, after, m)))| == |multiset(after)|;
  }

  // --------------------------------------------------------- the layers are whole

  function Meshes(es: seq<Element>): seq<Element> {
    if es == [] then [] else Meshes(es[..|es| - 1]) + if HasMesh(es[|es| - 1]) then [es[|es| - 1]] else []
  }

  function Elements(stamps: seq<Stamp>): (r: seq<Element>)
    ensures |r| == |stamps| && forall k :: 0 <= k < |stamps| ==> r[k] == stamps[k].element
  {
    seq(|stamps|, k requires 0 <= k < |stamps| => stamps[k].element)
  }

  lemma {:induction false} MeshesOfOneMore(es: seq<Element>, e: Option<Element>)
    ensures Meshes(es + Maybe(e)) == Meshes(es) + if e.Some? && HasMesh(e.value) then [e.value] else []
  {
    if e.Some? {
      assert (es + [e.value])[..|es|] == es;
    } else {
      assert es + [] == es;
    }
  }

  lemma {:induction false} ElementsOfOneMore(stamps: seq<Stamp>, e: Option<Element>, name: string)
    ensures Elements(stamps + Shown(e, name)) == Elements(stamps) + if e.Some? && HasMesh(e.value) then [e.value] else []
  {
  }

  lemma {:induction false} LayersAreSides(ds: seq<ElementDelta>)
    ensures Elements(OldLayer(ds)) == Meshes(WasSide(ds)) && Elements(NewLayer(ds)) == Meshes(NowSide(ds))
  {
    if ds != [] {
      var i := |ds| - 1;
      var d, eid := ds[i], ElementId(ds[i], i);
      LayersAreSides(ds[..i]);
      ElementsOfOneMore(OldLayer(ds[..i]), d.was, eid + "|old");
      ElementsOfOneMore(NewLayer(ds[..i]), d.now, eid + "|new");
      MeshesOfOneMore(WasSide(ds[..i]), d.was);
      MeshesOfOneMore(NowSide(ds[..i]), d.now);
    }
  }

  lemma {:induction false} MeshCount(es: seq<Element>, e: Element)
    ensures multiset(Meshes(es))[e] == if HasMesh(e) then multiset(es)[e] else 0
  {
    if es != [] {
      var init, last := es[..|es| - 1], es[|es| - 1];
      assert es == init + [last];
      MeshCount(init, e);
    }
  }

  lemma {:induction false} MeshesOfPermuted(a: seq<Element>, b: seq<Element>)
    requires multiset(a) == multiset(b)
    ensures multiset(Meshes(a)) == multiset(Meshes(b))
  {
    var p, q: multiset<Element> := multiset(Meshes(a)), multiset(Meshes(b));
    forall e: Element ensures p[e] == q[e] {
      MeshCount(a, e);
      MeshCount(b, e);
    }
    SameCounts(p, q);
  }

  // So whichever elements were paired, the old layer of the merged file is every mesh
  // of the old model and the new layer every mesh of the new one.
  lemma {:induction false} LayersAreWholeModels(before: seq<Element>, after: seq<Element>, m: map<nat, nat>)
    requires AllTriples(before) && AllTriples(after) && Pairing(before, after, m)
    ensures Elements(OldLayer(Deltas(before, after, m))) == Meshes(before)
    ensures multiset(Elements(NewLayer(Deltas(before, after, m)))) == multiset(Meshes(after))
  {
    EveryElementOnce(before, after, m);
    LayersAreSides(Deltas(before, after, m));
    MeshesOfPermuted(NowSide(Deltas(before, after, m)), after);
  }
}
