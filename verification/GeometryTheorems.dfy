/** What matching by shape promises, over every pair of models. */
module GeometryTheorems {
  import opened Wrappers
  import opened Vocabulary
  import opened Indexing
  import opened Reals
  import opened Model3D
  import opened GreedyMatching
  import opened GeometryMatch
  import opened Scoring

  lemma {:induction false} CandidatesAreFunctional(before: seq<Element>, after: seq<Element>, cands: seq<Candidate>)
    requires AllTriples(before) && AllTriples(after) && AllCandidates(before, after, cands)
    ensures Functional(cands)
  {
    forall c, e | c in cands && e in cands && c.i == e.i && c.j == e.j ensures c == e {
      assert IsCandidate(before, after, c) && IsCandidate(before, after, e);
    }
  }

  // The models alone determine the pairing.
  lemma {:induction false} PairingIsUnique(before: seq<Element>, after: seq<Element>, m: map<nat, nat>, m': map<nat, nat>)
    requires AllTriples(before) && AllTriples(after)
    requires Pairing(before, after, m) && Pairing(before, after, m')
    ensures m == m'
  {
    var a :| AllCandidates(before, after, a) && Greedy(a, m);
    var b :| AllCandidates(before, after, b) && Greedy(b, m');
    SameCandidates(b, a, m');
    CandidatesAreFunctional(before, after, a);
    GreedyIsUnique(a, m, m');
  }

  function Gap(before: seq<Element>, after: seq<Element>, i: nat, j: nat): real
    requires AllTriples(before) && AllTriples(after) && i < |before| && j < |after|
  {
    Dist2(Centroid(before[i]), Centroid(after[j]))
  }

  // A pair of one shape that was not made lost to one tried before it.
  lemma {:induction false} Loser(before: seq<Element>, after: seq<Element>, m: map<nat, nat>, i: nat, j: nat) returns (e: Candidate)
    requires AllTriples(before) && AllTriples(after) && Pairing(before, after, m)
    requires i < |before| && j < |after| && ShapeSignature(before[i]) == ShapeSignature(after[j])
    requires !(i in m && m[i] == j)
    ensures IsCandidate(before, after, e) && Holds(m, e) && e.gap <= Gap(before, after, i, j) && (e.i == i || e.j == j)
    ensures Before(e, Candidate(Gap(before, after, i, j), i, j))
  {
    var cands :| AllCandidates(before, after, cands) && Greedy(cands, m);
    var c := Candidate(Gap(before, after, i, j), i, j);
    assert IsCandidate(before, after, c);
    e := Winner(cands, m, c);
  }

  // Stability, ties allowed: of two same-shape elements that were not paired with each
  // other, one is paired with something nearer, or as near and earlier in its file.
  lemma {:induction false} PairingIsStable(before: seq<Element>, after: seq<Element>, m: map<nat, nat>, i: nat, j: nat)
    requires AllTriples(before) && AllTriples(after) && Pairing(before, after, m)
    requires i < |before| && j < |after| && ShapeSignature(before[i]) == ShapeSignature(after[j])
    requires !(i in m && m[i] == j)
    ensures || (i in m && m[i] < |after| && Ahead(Gap(before, after, i, m[i]), m[i], Gap(before, after, i, j), j))
            || (exists k :: k in m && m[k] == j && k < |before| && Ahead(Gap(before, after, k, j), k, Gap(before, after, i, j), i))
  {
    var e := Loser(before, after, m, i, j);
    if e.i != i {
      assert e.i in m && m[e.i] == j;
    }
  }

  // Nearer, or as near and earlier.
  predicate Ahead(gap: real, at: nat, gap': real, at': nat) { gap < gap' || (gap == gap' && at < at') }

  lemma {:induction false} PairingJoins(before: seq<Element>, after: seq<Element>, m: map<nat, nat>)
    requires AllTriples(before) && AllTriples(after) && Pairing(before, after, m)
    ensures JoinsClasses(Shapes(before), Shapes(after), m)
  {
    var cands :| AllCandidates(before, after, cands) && Greedy(cands, m);
    PairedInRange(before, after, cands, m);
  }

  // Maximum cardinality: `matched` is the sum over shapes of the lesser count.
  lemma {:induction false} MatchedIsMaximum(before: seq<Element>, after: seq<Element>, m: map<nat, nat>)
    requires AllTriples(before) && AllTriples(after) && Pairing(before, after, m)
    ensures |PairedClasses(Shapes(before), m, |before|)| == |multiset(Shapes(before)) * multiset(Shapes(after))|
    ensures |m| == |multiset(Shapes(before)) * multiset(Shapes(after))|
  {
    PairingJoins(before, after, m);
    forall i, j | 0 <= i < |before| && 0 <= j < |after| && Shapes(before)[i] == Shapes(after)[j]
      ensures i in m || j in m.Values
    {
      if !(i in m && m[i] == j) {
        var e := Loser(before, after, m, i, j);
      }
    }
    MaximalIsMaximum(Shapes(before), Shapes(after), m);
    assert |multiset(PairedClasses(Shapes(before), m, |before|))| == |PairedClasses(Shapes(before), m, |before|)|;
  }

  // ------------------------------------------------------ what stayed in place

  type Place = (Shape, Vec)

  function PlaceOf(e: Element): Place {
    if Triples(e) then (ShapeSignature(e), Centroid(e)) else (NoShape, (0.0, 0.0, 0.0))
  }

  function Places(es: seq<Element>): (s: seq<Place>)
    ensures |s| == |es|
  {
    MapSeq(PlaceOf, es)
  }

  // The pairs that join equal shapes in equal places.
  function Stayed(before: seq<Element>, after: seq<Element>, m: map<nat, nat>): map<nat, nat> {
    map i | i in m && i < |before| && m[i] < |after| && PlaceOf(before[i]) == PlaceOf(after[m[i]]) :: m[i]
  }

  lemma {:induction false} StayedIsMaximal(before: seq<Element>, after: seq<Element>, m: map<nat, nat>)
    requires AllTriples(before) && AllTriples(after) && Pairing(before, after, m)
    ensures JoinsClasses(Places(before), Places(after), Stayed(before, after, m))
    ensures Maximal(Places(before), Places(after), Stayed(before, after, m))
  {
    PairingJoins(before, after, m);
    forall i, j | 0 <= i < |before| && 0 <= j < |after| && Places(before)[i] == Places(after)[j]
      ensures i in Stayed(before, after, m) || j in Stayed(before, after, m).Values
    {
      PlaceIsKept(before, after, m, i, j);
    }
  }

  // In every class of equal shape and place, as many stay as both sides have.
  lemma {:induction false} StayedPut(before: seq<Element>, after: seq<Element>, m: map<nat, nat>)
    requires AllTriples(before) && AllTriples(after) && Pairing(before, after, m)
    ensures multiset(PairedClasses(Places(before), Stayed(before, after, m), |before|))
            == multiset(Places(before)) * multiset(Places(after))
  {
    StayedIsMaximal(before, after, m);
    MaximalIsMaximum(Places(before), Places(after), Stayed(before, after, m));
  }

  lemma {:induction false} PlaceIsKept(before: seq<Element>, after: seq<Element>, m: map<nat, nat>, i: nat, j: nat)
    requires AllTriples(before) && AllTriples(after) && Pairing(before, after, m)
    requires i < |before| && j < |after| && PlaceOf(before[i]) == PlaceOf(after[j])
    ensures i in Stayed(before, after, m) || j in Stayed(before, after, m).Values
  {
    var s := Stayed(before, after, m);
    if i in m && m[i] == j {
      assert i in s;
    } else {
      var e := Loser(before, after, m, i, j);
      DistanceZero(Centroid(before[i]), Centroid(after[j]));
      DistanceZero(Centroid(before[e.i]), Centroid(after[e.j]));
      assert e.i in s && s[e.i] == e.j;
    }
  }

  lemma {:induction false} ToleranceIsNotNegative(before: seq<Element>, after: seq<Element>)
    requires AllTriples(before) && AllTriples(after)
    ensures Tolerance2(before, after) >= 0.0
  {
    DiagonalIsNotNegative(before);
    DiagonalIsNotNegative(after);
    SquareIsNonNegative(GEOMETRY_PROXIMITY);
    var a, b := Diagonal2(before), Diagonal2(after);
    var scale2 := if b > a then b else a;
    ProductIsNonNegative(if scale2 == 0.0 then 1.0 else scale2, Square(GEOMETRY_PROXIMITY));
  }

  lemma {:induction false} DiagonalIsNotNegative(es: seq<Element>)
    requires AllTriples(es)
    ensures Diagonal2(es) >= 0.0
  {
    SquareIsNonNegative(Extent(ModelValues(es, 0)));
    SquareIsNonNegative(Extent(ModelValues(es, 1)));
    SquareIsNonNegative(Extent(ModelValues(es, 2)));
  }

  // An element that stayed is reported unchanged, against its counterpart.
  lemma {:induction false} StayedIsUnchanged(before: seq<Element>, after: seq<Element>, m: map<nat, nat>, tol2: real, i: nat)
    requires AllTriples(before) && AllTriples(after) && tol2 >= 0.0 && i in Stayed(before, after, m)
    ensures Row(before, after, m, tol2, i) == [ElementDelta(Unchanged, Some(before[i]), Some(after[m[i]]), NoChange, [])]
  {
    DistanceZero(Centroid(before[i]), Centroid(after[m[i]]));
  }

  // ------------------------------------------- reordered and extended models

  // The first k deltas report the first k old elements unchanged.
  ghost predicate UnchangedRows(before: seq<Element>, after: seq<Element>, m: map<nat, nat>, d: seq<ElementDelta>, k: nat) {
    && k <= |d| && k <= |before|
    && forall i: nat :: i < k ==>
         i in m && m[i] < |after| && d[i] == ElementDelta(Unchanged, Some(before[i]), Some(after[m[i]]), NoChange, [])
  }

  ghost predicate UnchangedAt(before: seq<Element>, after: seq<Element>, m: map<nat, nat>, tol2: real, i: nat)
    requires AllTriples(before) && AllTriples(after) && i < |before|
  {
    && i in m && m[i] < |after|
    && Row(before, after, m, tol2, i) == [ElementDelta(Unchanged, Some(before[i]), Some(after[m[i]]), NoChange, [])]
  }

  lemma {:induction false} RowsAreGathered(before: seq<Element>, after: seq<Element>, m: map<nat, nat>, tol2: real, f: nat -> seq<ElementDelta>, k: nat)
    requires AllTriples(before) && AllTriples(after) && forall i: nat :: f(i) == Row(before, after, m, tol2, i)
    ensures Rows(before, after, m, tol2, k) == Gathered(f, k)
  {
    if k > 0 {
      RowsAreGathered(before, after, m, tol2, f, k - 1);
    }
  }

  // Each old element unchanged, against its counterpart.
  function UnchangedDeltas(before: seq<Element>, after: seq<Element>, m: map<nat, nat>): (d: seq<ElementDelta>)
    requires forall i: nat :: i < |before| ==> i in m && m[i] < |after|
    ensures |d| == |before|
    ensures forall i :: 0 <= i < |d| ==> d[i] == ElementDelta(Unchanged, Some(before[i]), Some(after[m[i]]), NoChange, [])
  {
    seq(|before|, i requires 0 <= i < |before| => ElementDelta(Unchanged, Some(before[i]), Some(after[m[i]]), NoChange, []))
  }

  lemma {:induction false} AllRowsUnchanged(before: seq<Element>, after: seq<Element>, m: map<nat, nat>, tol2: real)
    requires AllTriples(before) && AllTriples(after)
    requires forall i: nat :: i < |before| ==> UnchangedAt(before, after, m, tol2, i)
    ensures forall i: nat :: i < |before| ==> i in m && m[i] < |after|
    ensures Rows(before, after, m, tol2, |before|) == UnchangedDeltas(before, after, m)
  {
    forall i: nat | i < |before| ensures i in m && m[i] < |after| {
      assert UnchangedAt(before, after, m, tol2, i);
    }
    var f := (i: nat) => Row(before, after, m, tol2, i);
    var d := UnchangedDeltas(before, after, m);
    forall i: nat | i < |before| ensures f(i) == [d[i]] {
      assert UnchangedAt(before, after, m, tol2, i);
    }
    RowsAreGathered(before, after, m, tol2, f, |before|);
    GatheredOnes(d, f, |before|);
    assert d[..|before|] == d;
  }

  lemma {:induction false} ExtrasAreAdded(after: seq<Element>, used: set<nat>, k: nat)
    requires k <= |after|
    ensures |Extras(after, used, k)| == k - |set j | j in used && j < k|
    ensures forall d :: d in Extras(after, used, k) ==> d.state == Added && d.was.None?
  {
    var below := set j | j in used && j < k;
    if k == 0 {
      assert below == {};
    } else {
      ExtrasAreAdded(after, used, k - 1);
      assert below == (set j | j in used && j < k - 1) + if k - 1 in used then {k - 1} else {};
    }
  }

  // If every place of the old model is matched on the new one, all of it stayed.
  lemma {:induction false} AllStayed(before: seq<Element>, after: seq<Element>, m: map<nat, nat>)
    requires AllTriples(before) && AllTriples(after) && Pairing(before, after, m)
    requires multiset(Places(before)) <= multiset(Places(after))
    ensures forall i: nat :: i < |before| ==> UnchangedAt(before, after, m, Tolerance2(before, after), i)
  {
    EveryPlaceStays(before, after, m);
    ToleranceIsNotNegative(before, after);
    forall i: nat | i < |before|
      ensures UnchangedAt(before, after, m, Tolerance2(before, after), i)
    {
      StayedAt(before, after, m, Tolerance2(before, after), i);
    }
  }

  lemma {:induction false} EveryPlaceStays(before: seq<Element>, after: seq<Element>, m: map<nat, nat>)
    requires AllTriples(before) && AllTriples(after) && Pairing(before, after, m)
    requires multiset(Places(before)) <= multiset(Places(after))
    ensures forall i: nat :: i < |before| ==> i in Stayed(before, after, m)
  {
    StayedIsMaximal(before, after, m);
    SmallerSideIsPaired(Places(before), Places(after), Stayed(before, after, m));
  }

  lemma {:induction false} StayedAt(before: seq<Element>, after: seq<Element>, m: map<nat, nat>, tol2: real, i: nat)
    requires AllTriples(before) && AllTriples(after) && tol2 >= 0.0 && i in Stayed(before, after, m)
    ensures i < |before| && UnchangedAt(before, after, m, tol2, i)
  {
    StayedIsUnchanged(before, after, m, tol2, i);
  }

  lemma {:induction false} AllPaired(before: seq<Element>, after: seq<Element>, m: map<nat, nat>)
    requires AllTriples(before) && AllTriples(after) && Pairing(before, after, m)
    requires forall i: nat :: i < |before| ==> i in m
    ensures |m| == |before|
  {
    PairingJoins(before, after, m);
    KeysFill(m, |before|);
  }

  lemma {:induction false} KeysFill(m: map<nat, nat>, n: nat)
    requires (forall i :: i in m ==> i < n) && forall i: nat :: i < n ==> i in m
    ensures |m| == n
  {
    AllBelow(m.Keys, n);
  }

  lemma {:induction false} ExtrasCount(before: seq<Element>, after: seq<Element>, m: map<nat, nat>)
    requires AllTriples(before) && AllTriples(after) && JoinsClasses(Shapes(before), Shapes(after), m)
    ensures |Extras(after, m.Values, |after|)| == |after| - |m|
    ensures forall d :: d in Extras(after, m.Values, |after|) ==> d.state == Added && d.was.None?
  {
    ExtrasAreAdded(after, m.Values, |after|);
    ImageSize(m, m.Keys);
    ValuesFit(m, |after|);
  }

  lemma {:induction false} ValuesFit(m: map<nat, nat>, n: nat)
    requires forall i :: i in m ==> m[i] < n
    ensures (set j | j in m.Values && j < n) == (set i | i in m.Keys :: m[i])
  {
  }

  // A new model holding at least the old one's elements, duplicates included and in
  // any order: every old element unchanged, and one addition for each extra element.
  lemma {:induction false} SupersetIsExact(before: seq<Element>, after: seq<Element>, m: map<nat, nat>)
    requires AllTriples(before) && AllTriples(after) && Pairing(before, after, m)
    requires multiset(Places(before)) <= multiset(Places(after))
    ensures |Deltas(before, after, m)| == |after|
    ensures UnchangedRows(before, after, m, Deltas(before, after, m), |before|)
    ensures forall k :: |before| <= k < |after| ==>
              Deltas(before, after, m)[k].state == Added && Deltas(before, after, m)[k].was.None?
  {
    AllStayed(before, after, m);
    AllRowsUnchanged(before, after, m, Tolerance2(before, after));
    AllPaired(before, after, m);
    PairingJoins(before, after, m);
    ExtrasCount(before, after, m);
    ReadAppended(before, after, m, Rows(before, after, m, Tolerance2(before, after), |before|), Extras(after, m.Values, |after|));
  }

  lemma {:induction false} ReadAppended(before: seq<Element>, after: seq<Element>, m: map<nat, nat>, rows: seq<ElementDelta>, extras: seq<ElementDelta>)
    requires |rows| == |before| && UnchangedRows(before, after, m, rows, |before|)
    requires forall d :: d in extras ==> d.state == Added && d.was.None?
    ensures UnchangedRows(before, after, m, rows + extras, |before|)
    ensures forall k :: |before| <= k < |rows + extras| ==> (rows + extras)[k].state == Added && (rows + extras)[k].was.None?
  {
    forall k | |before| <= k < |rows + extras|
      ensures (rows + extras)[k] in extras
    {
      assert (rows + extras)[k] == extras[k - |rows|];
    }
  }

  // In particular the same elements in another order are wholly unchanged.
  lemma {:induction false} ReorderedIsUnchanged(before: seq<Element>, after: seq<Element>, m: map<nat, nat>)
    requires AllTriples(before) && AllTriples(after) && Pairing(before, after, m)
    requires multiset(before) == multiset(after)
    ensures |Deltas(before, after, m)| == |before|
    ensures forall k :: 0 <= k < |before| ==> Deltas(before, after, m)[k].state == Unchanged
  {
    PermutedMap(PlaceOf, before, after);
    SupersetIsExact(before, after, m);
    assert |multiset(before)| == |multiset(after)|;
  }

  // ---------------------------------------------------------------- confidence

  lemma {:induction false} ConfidenceIsAShare(before: seq<Element>, after: seq<Element>, m: map<nat, nat>, flaws: nat)
    requires AllTriples(before) && AllTriples(after) && Pairing(before, after, m)
    ensures 0.0 <= Score(|PairedClasses(Shapes(before), m, |before|)|, |before|, |after|, flaws) <= 1.0
  {
    MatchedIsMaximum(before, after, m);
    var common := multiset(Shapes(before)) * multiset(Shapes(after));
    assert common <= multiset(Shapes(before)) && common <= multiset(Shapes(after));
    SubmultisetSize(common, multiset(Shapes(before)));
    SubmultisetSize(common, multiset(Shapes(after)));
    ScoreIsAShare(|common|, |before|, |after|, flaws);
  }

  lemma {:induction false} SubmultisetSize<T>(a: multiset<T>, b: multiset<T>)
    requires a <= b
    ensures |a| <= |b|
  {
    assert b == a + (b - a);
  }
}
