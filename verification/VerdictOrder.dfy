/** The verdicts and file order: listing the elements of either model in another order
    leaves the collection of verdicts alone exactly when ties within the tolerance were
    only between copies of one element. */
module VerdictOrder {
  import opened Wrappers
  import opened Vocabulary
  import opened Indexing
  import opened Model3D
  import opened GreedyMatching
  import opened GeometryMatch
  import opened GeometryTheorems
  import opened OrderIndependence
  import opened ModelConservation
  import opened CoupleCounts

  function Separation(c: Couple<Element>): real {
    if Triples(c.0) && Triples(c.1) then Dist2(Centroid(c.0), Centroid(c.1)) else 0.0
  }

  predicate OfOneShape(c: Couple<Element>) { Triples(c.0) && Triples(c.1) && ShapeSignature(c.0) == ShapeSignature(c.1) }

  function ByShape(): Measure<Element> { Measure(Separation, OfOneShape) }

  lemma {:induction false} PairingIsSettledByShape(before: seq<Element>, after: seq<Element>, m: map<nat, nat>)
    requires AllTriples(before) && AllTriples(after) && Pairing(before, after, m)
    ensures Stable(Comparison(before, after, m), ByShape())
  {
    var x, d := Comparison(before, after, m), ByShape();
    PairingJoins(before, after, m);
    forall i | i in m ensures Joined(x, i) && d.alike(CoupleAt(x, i)) {
      assert Shapes(before)[i] == Shapes(after)[m[i]];
    }
    forall c | d.alike(c) ensures Excludes(x, UpTo(d, d.apart(c)), c) {
      forall i: nat, j: nat | i < |before| && j < |after| && before[i] == c.0 && after[j] == c.1
        ensures OldTaken(x, UpTo(d, d.apart(c)), i) || NewTaken(x, UpTo(d, d.apart(c)), j)
      {
        NearEnoughIsTaken(before, after, m, i, j);
      }
    }
  }

  lemma {:induction false} NearEnoughIsTaken(before: seq<Element>, after: seq<Element>, m: map<nat, nat>, i: nat, j: nat)
    requires AllTriples(before) && AllTriples(after) && Pairing(before, after, m)
    requires i < |before| && j < |after| && ShapeSignature(before[i]) == ShapeSignature(after[j])
    ensures var x, near := Comparison(before, after, m), UpTo(ByShape(), Gap(before, after, i, j));
            OldTaken(x, near, i) || NewTaken(x, near, j)
  {
    if i in m && m[i] == j {
      MadeIsTaken(before, after, m, Gap(before, after, i, j), i);
    } else {
      var e := Loser(before, after, m, i, j);
      MadeIsTaken(before, after, m, Gap(before, after, i, j), e.i);
    }
  }

  lemma {:induction false} MadeIsTaken(before: seq<Element>, after: seq<Element>, m: map<nat, nat>, g: real, i: nat)
    requires AllTriples(before) && AllTriples(after) && i < |before| && i in m && m[i] < |after| && Gap(before, after, i, m[i]) <= g
    ensures OldTaken(Comparison(before, after, m), UpTo(ByShape(), g), i) && NewTaken(Comparison(before, after, m), UpTo(ByShape(), g), m[i])
  {
    var x := Comparison(before, after, m);
    assert Joined(x, i) && Separation(CoupleAt(x, i)) == Gap(before, after, i, m[i]);
  }

  // -------------------------------------------------------------- what is counted

  // The couples reported unchanged.
  function KeptCouples(ds: seq<ElementDelta>): seq<Couple<Element>> {
    if ds == [] then [] else KeptCouples(ds[..|ds| - 1]) + KeptOf(ds[|ds| - 1])
  }

  function KeptOf(d: ElementDelta): seq<Couple<Element>> {
    if d.state == Unchanged && d.was.Some? && d.now.Some? then [(d.was.value, d.now.value)] else []
  }

  lemma {:induction false} KeptConcat(a: seq<ElementDelta>, b: seq<ElementDelta>)
    ensures KeptCouples(a + b) == KeptCouples(a) + KeptCouples(b)
  {
    if b == [] {
      assert a + b == a;
    } else {
      assert (a + b)[..|a + b| - 1] == a + b[..|b| - 1];
      KeptConcat(a, b[..|b| - 1]);
    }
  }

  lemma {:induction false} KeptOfRow(before: seq<Element>, after: seq<Element>, m: map<nat, nat>, tol2: real, i: nat)
    requires AllTriples(before) && AllTriples(after) && i < |before|
    ensures var x := Comparison(before, after, m);
            KeptCouples(Row(before, after, m, tol2, i))
            == if Joined(x, i) && Separation(CoupleAt(x, i)) <= tol2 then [CoupleAt(x, i)] else []
  {
    var row := Row(before, after, m, tol2, i);
    assert row[..|row| - 1] == [] || row[..|row| - 1] == [row[0]];
    assert KeptCouples([]) == [] && KeptCouples([row[0]]) == KeptOf(row[0]) by {
      assert [row[0]][..0] == [];
    }
  }

  lemma {:induction false} KeptOfGathered(f: nat -> seq<ElementDelta>, g: nat -> seq<Couple<Element>>, k: nat)
    requires forall i: nat :: i < k ==> KeptCouples(f(i)) == g(i)
    ensures KeptCouples(Gathered(f, k)) == Gathered(g, k)
  {
    if k > 0 {
      KeptOfGathered(f, g, k - 1);
      KeptConcat(Gathered(f, k - 1), f(k - 1));
    }
  }

  lemma {:induction false} ChosenIsGathered(x: Comparison<Element>, near: Couple<Element> -> bool, g: nat -> seq<Couple<Element>>, k: nat)
    requires forall i: nat :: i < k ==> g(i) == ChosenAt(x, near, i)
    ensures Chosen(x, near, k) == Gathered(g, k)
  {
    if k > 0 {
      ChosenIsGathered(x, near, g, k - 1);
    }
  }

  lemma {:induction false} KeptOfRows(before: seq<Element>, after: seq<Element>, m: map<nat, nat>, tol2: real)
    requires AllTriples(before) && AllTriples(after)
    ensures KeptCouples(Rows(before, after, m, tol2, |before|)) == Near(Comparison(before, after, m), UpTo(ByShape(), tol2))
  {
    var x, near := Comparison(before, after, m), UpTo(ByShape(), tol2);
    var f := (i: nat) => Row(before, after, m, tol2, i);
    ghost var g := (i: nat) => ChosenAt(x, near, i);
    forall i: nat | i < |before| ensures KeptCouples(f(i)) == g(i) {
      KeptOfRow(before, after, m, tol2, i);
    }
    RowsAreGathered(before, after, m, tol2, f, |before|);
    KeptOfGathered(f, g, |before|);
    ChosenIsGathered(x, near, g, |before|);
  }

  lemma {:induction false} NothingKept(ds: seq<ElementDelta>)
    requires forall d :: d in ds ==> d.state != Unchanged
    ensures KeptCouples(ds) == []
  {
    if ds != [] {
      assert ds[|ds| - 1] in ds;
      NothingKept(ds[..|ds| - 1]);
    }
  }

  lemma {:induction false} ExtrasAreNotKept(after: seq<Element>, used: set<nat>, k: nat)
    ensures forall d :: d in Extras(after, used, k) ==> d.state != Unchanged
  {
    if k > 0 {
      ExtrasAreNotKept(after, used, k - 1);
    }
  }

  lemma {:induction false} KeptOfDeltas(before: seq<Element>, after: seq<Element>, m: map<nat, nat>)
    requires AllTriples(before) && AllTriples(after)
    ensures KeptCouples(Deltas(before, after, m)) == Near(Comparison(before, after, m), UpTo(ByShape(), Tolerance2(before, after)))
  {
    var tol2 := Tolerance2(before, after);
    KeptOfRows(before, after, m, tol2);
    ExtrasAreNotKept(after, m.Values, |after|);
    NothingKept(Extras(after, m.Values, |after|));
    KeptConcat(Rows(before, after, m, tol2, |before|), Extras(after, m.Values, |after|));
  }

  // How often each verdict occurs, from the couples kept and the two sides.
  ghost predicate CountsOf(n: nat, d: ElementDelta, kept: seq<Couple<Element>>, was: seq<Element>, now: seq<Element>) {
    match d.state
    case Unchanged => n == multiset(kept)[(d.was.value, d.now.value)]
    case Deleted => n + multiset(MapSeq(OldOf(), kept))[d.was.value] == multiset(was)[d.was.value]
    case Added => n + multiset(MapSeq(NewOf(), kept))[d.now.value] == multiset(now)[d.now.value]
    case Modified => n == 0
  }

  lemma {:induction false} CountsOfOneMore(n: nat, d: ElementDelta, e: ElementDelta, kept: seq<Couple<Element>>, was: seq<Element>, now: seq<Element>)
    requires Sided(d) && Sided(e) && CountsOf(n, d, kept, was, now)
    ensures CountsOf(n + if e == d then 1 else 0, d, kept + KeptOf(e), was + Maybe(e.was), now + Maybe(e.now))
  {
    if e.state == Unchanged {
      var c := (e.was.value, e.now.value);
      MapOfOneMore(kept, c);
      if d.state == Deleted { CountOneMore(was, c.0, d.was.value); }
      if d.state == Added { CountOneMore(now, c.1, d.now.value); }
    } else {
      assert kept + [] == kept;
    }
  }

  lemma {:induction false} MapOfOneMore(kept: seq<Couple<Element>>, c: Couple<Element>)
    ensures MapSeq(OldOf(), kept + [c]) == MapSeq(OldOf(), kept) + [c.0]
    ensures MapSeq(NewOf(), kept + [c]) == MapSeq(NewOf(), kept) + [c.1]
  {
  }

  lemma {:induction false} VerdictCounts(ds: seq<ElementDelta>, d: ElementDelta)
    requires AllSided(ds) && Sided(d)
    ensures CountsOf(multiset(ds)[d], d, KeptCouples(ds), WasSide(ds), NowSide(ds))
  {
    if ds != [] {
      var init, last := ds[..|ds| - 1], ds[|ds| - 1];
      assert ds == init + [last];
      VerdictCounts(init, d);
      CountOneMore(init, last, d);
      CountsOfOneMore(multiset(init)[d], d, last, KeptCouples(init), WasSide(init), NowSide(init));
    }
  }

  // -------------------------------------------- verdicts and the couples within reach

  lemma {:induction false} DeltasAreSided(before: seq<Element>, after: seq<Element>, m: map<nat, nat>)
    requires AllTriples(before) && AllTriples(after)
    ensures AllSided(Deltas(before, after, m))
  {
    RowsAreSided(before, after, m, Tolerance2(before, after), |before|);
    ExtrasAreSided(after, m.Values, |after|);
  }

  lemma {:induction false} SameCounts(p: nat, q: nat, d: ElementDelta, a: seq<Couple<Element>>, b: seq<Couple<Element>>,
                                      was: seq<Element>, was': seq<Element>, now: seq<Element>, now': seq<Element>)
    requires CountsOf(p, d, a, was, now) && CountsOf(q, d, b, was', now')
    requires multiset(a) == multiset(b) && multiset(was) == multiset(was') && multiset(now) == multiset(now')
    ensures p == q
  {
    PermutedMap(OldOf(), a, b);
    PermutedMap(NewOf(), a, b);
  }

  // Two comparisons of the same models give the same verdicts when they keep the same
  // couples, and not otherwise.
  lemma {:induction false} VerdictsAreCouples(x: Comparison<Element>, y: Comparison<Element>)
    requires AllTriples(x.before) && AllTriples(x.after) && AllTriples(y.before) && AllTriples(y.after) && SameModels(x, y)
    requires Pairing(x.before, x.after, x.m) && Pairing(y.before, y.after, y.m)
    ensures multiset(Deltas(x.before, x.after, x.m)) == multiset(Deltas(y.before, y.after, y.m))
            <==> multiset(KeptCouples(Deltas(x.before, x.after, x.m))) == multiset(KeptCouples(Deltas(y.before, y.after, y.m)))
  {
    var a, b := Deltas(x.before, x.after, x.m), Deltas(y.before, y.after, y.m);
    DeltasAreSided(x.before, x.after, x.m);
    DeltasAreSided(y.before, y.after, y.m);
    EveryElementOnce(x.before, x.after, x.m);
    EveryElementOnce(y.before, y.after, y.m);
    SidedVerdicts(a, b);
  }

  lemma {:induction false} SidedVerdicts(a: seq<ElementDelta>, b: seq<ElementDelta>)
    requires AllSided(a) && AllSided(b)
    requires multiset(WasSide(a)) == multiset(WasSide(b)) && multiset(NowSide(a)) == multiset(NowSide(b))
    ensures multiset(a) == multiset(b) <==> multiset(KeptCouples(a)) == multiset(KeptCouples(b))
  {
    if multiset(KeptCouples(a)) == multiset(KeptCouples(b)) {
      forall d ensures multiset(a)[d] == multiset(b)[d] {
        SameVerdict(a, b, d);
      }
    }
    if multiset(a) == multiset(b) {
      forall c: Couple<Element> ensures multiset(KeptCouples(a))[c] == multiset(KeptCouples(b))[c] {
        SameCouple(a, b, c);
      }
    }
  }

  lemma {:induction false} SameVerdict(a: seq<ElementDelta>, b: seq<ElementDelta>, d: ElementDelta)
    requires AllSided(a) && AllSided(b) && multiset(KeptCouples(a)) == multiset(KeptCouples(b))
    requires multiset(WasSide(a)) == multiset(WasSide(b)) && multiset(NowSide(a)) == multiset(NowSide(b))
    ensures multiset(a)[d] == multiset(b)[d]
  {
    if Sided(d) {
      VerdictCounts(a, d);
      VerdictCounts(b, d);
      SameCounts(multiset(a)[d], multiset(b)[d], d, KeptCouples(a), KeptCouples(b), WasSide(a), WasSide(b), NowSide(a), NowSide(b));
    } else {
      assert d !in a && d !in b;
    }
  }

  lemma {:induction false} SameCouple(a: seq<ElementDelta>, b: seq<ElementDelta>, c: Couple<Element>)
    requires AllSided(a) && AllSided(b) && multiset(a) == multiset(b)
    ensures multiset(KeptCouples(a))[c] == multiset(KeptCouples(b))[c]
  {
    var d := ElementDelta(Unchanged, Some(c.0), Some(c.1), NoChange, []);
    VerdictCounts(a, d);
    VerdictCounts(b, d);
  }

  // ------------------------------------------------------------ the same tolerance

  lemma {:induction false} ExtentOfElements(a: seq<Element>, b: seq<Element>, axis: nat)
    requires AllTriples(a) && AllTriples(b) && multiset(a) == multiset(b) && axis < 3
    ensures Extent(ModelValues(a, axis)) == Extent(ModelValues(b, axis))
  {
    forall x: real ensures x in ModelValues(a, axis) <==> x in ModelValues(b, axis) {
      ValueMoves(a, b, axis, x);
      ValueMoves(b, a, axis, x);
    }
    ExtentByMembers(ModelValues(a, axis), ModelValues(b, axis));
  }

  lemma {:induction false} ValueMoves(a: seq<Element>, b: seq<Element>, axis: nat, x: real)
    requires AllTriples(a) && AllTriples(b) && multiset(a) == multiset(b) && axis < 3
    ensures x in ModelValues(a, axis) ==> x in ModelValues(b, axis)
  {
    ModelValueOwner(a, axis, x);
    ModelValueOwner(b, axis, x);
    if k :| 0 <= k < |a| && x in AxisValues(a[k].verts, axis) {
      assert a[k] in multiset(b);
      var l :| 0 <= l < |b| && b[l] == a[k];
    }
  }

  lemma {:induction false} SameTolerance(x: Comparison<Element>, y: Comparison<Element>)
    requires AllTriples(x.before) && AllTriples(x.after) && AllTriples(y.before) && AllTriples(y.after) && SameModels(x, y)
    ensures Tolerance2(x.before, x.after) == Tolerance2(y.before, y.after)
  {
    SameDiagonal(x.before, y.before);
    SameDiagonal(x.after, y.after);
  }

  lemma {:induction false} SameDiagonal(a: seq<Element>, b: seq<Element>)
    requires AllTriples(a) && AllTriples(b) && multiset(a) == multiset(b)
    ensures Diagonal2(a) == Diagonal2(b)
  {
    ExtentOfElements(a, b, 0);
    ExtentOfElements(a, b, 1);
    ExtentOfElements(a, b, 2);
  }

  // ----------------------------------------------------------------- the condition

  // A pair left out lost to an accepted one that shares an element and is strictly nearer,
  // or joins two elements just like these.
  ghost predicate Yields(before: seq<Element>, after: seq<Element>, m: map<nat, nat>, c: Candidate)
    requires AllTriples(before) && AllTriples(after) && c.i < |before| && c.j < |after|
  {
    exists e :: IsCandidate(before, after, e) && Holds(m, e) && Conflict(e, c) && Beside(before, after, e, c)
  }

  // No tie between different elements had a say in which couples are kept.
  ghost predicate SettledWithin(before: seq<Element>, after: seq<Element>, m: map<nat, nat>, g: real)
    requires AllTriples(before) && AllTriples(after)
  {
    forall c :: IsCandidate(before, after, c) && !Holds(m, c) && c.gap <= g ==> Yields(before, after, m, c)
  }

  // A candidate counts beside another when it is strictly nearer or joins the same two.
  ghost predicate Beside(before: seq<Element>, after: seq<Element>, e: Candidate, c: Candidate)
    requires e.i < |before| && e.j < |after| && c.i < |before| && c.j < |after|
  {
    e.gap < c.gap || (before[e.i] == before[c.i] && after[e.j] == after[c.j])
  }

  function Joining(before: seq<Element>, after: seq<Element>, c: Candidate): Couple<Element>
    requires c.i < |before| && c.j < |after|
  {
    (before[c.i], after[c.j])
  }

  lemma {:induction false} BesideIsBesides(before: seq<Element>, after: seq<Element>, e: Candidate, c: Candidate)
    requires AllTriples(before) && AllTriples(after) && IsCandidate(before, after, e) && IsCandidate(before, after, c)
    ensures Besides(ByShape(), Joining(before, after, c))(Joining(before, after, e)) <==> Beside(before, after, e, c)
  {
    assert Separation(Joining(before, after, e)) == e.gap && Separation(Joining(before, after, c)) == c.gap;
  }

  function Made(before: seq<Element>, after: seq<Element>, m: map<nat, nat>, i: nat): Candidate
    requires AllTriples(before) && AllTriples(after) && i < |before| && i in m && m[i] < |after|
  {
    Candidate(Gap(before, after, i, m[i]), i, m[i])
  }

  lemma {:induction false} MadeIsCandidate(before: seq<Element>, after: seq<Element>, m: map<nat, nat>, i: nat)
    requires AllTriples(before) && AllTriples(after) && JoinsClasses(Shapes(before), Shapes(after), m) && i in m
    ensures i < |before| && m[i] < |after| && IsCandidate(before, after, Made(before, after, m, i))
  {
    assert Shapes(before)[i] == Shapes(after)[m[i]];
  }

  // The couple made at position i, if it counts beside c and shares an end with it.
  lemma {:induction false} TakenYields(before: seq<Element>, after: seq<Element>, m: map<nat, nat>, c: Candidate, i: nat)
    requires AllTriples(before) && AllTriples(after) && JoinsClasses(Shapes(before), Shapes(after), m) && IsCandidate(before, after, c)
    requires OldTaken(Comparison(before, after, m), Besides(ByShape(), Joining(before, after, c)), i) && (i == c.i || m[i] == c.j)
    ensures Yields(before, after, m, c)
  {
    MadeIsCandidate(before, after, m, i);
    var e := Made(before, after, m, i);
    BesideIsBesides(before, after, e, c);
    assert Holds(m, e) && Conflict(e, c) && Beside(before, after, e, c);
  }

  lemma {:induction false} YieldsTaken(before: seq<Element>, after: seq<Element>, m: map<nat, nat>, c: Candidate, e: Candidate)
    requires AllTriples(before) && AllTriples(after) && IsCandidate(before, after, c) && IsCandidate(before, after, e)
    requires Holds(m, e) && Conflict(e, c) && Beside(before, after, e, c)
    ensures var x, near := Comparison(before, after, m), Besides(ByShape(), Joining(before, after, c));
            OldTaken(x, near, c.i) || NewTaken(x, near, c.j)
  {
    var x, near := Comparison(before, after, m), Besides(ByShape(), Joining(before, after, c));
    BesideIsBesides(before, after, e, c);
    assert Joined(x, e.i) && CoupleAt(x, e.i) == Joining(before, after, e);
    TakenAt(x, near, e.i);
  }

  lemma {:induction false} TakenAt(x: Comparison<Element>, near: Couple<Element> -> bool, i: nat)
    requires Joined(x, i) && near(CoupleAt(x, i))
    ensures OldTaken(x, near, i) && NewTaken(x, near, x.m[i])
  {
  }

  // One pair of positions: an end is taken exactly when the pair yields.
  lemma {:induction false} TakenIsYielding(before: seq<Element>, after: seq<Element>, m: map<nat, nat>, c: Candidate)
    requires AllTriples(before) && AllTriples(after) && Pairing(before, after, m) && IsCandidate(before, after, c)
    ensures var x, near := Comparison(before, after, m), Besides(ByShape(), Joining(before, after, c));
            OldTaken(x, near, c.i) || NewTaken(x, near, c.j) <==> Yields(before, after, m, c)
  {
    var x, near := Comparison(before, after, m), Besides(ByShape(), Joining(before, after, c));
    PairingJoins(before, after, m);
    if OldTaken(x, near, c.i) {
      TakenYields(before, after, m, c, c.i);
    }
    if NewTaken(x, near, c.j) {
      var i: nat :| Joined(x, i) && m[i] == c.j && near(CoupleAt(x, i));
      TakenYields(before, after, m, c, i);
    }
    if Yields(before, after, m, c) {
      var e :| IsCandidate(before, after, e) && Holds(m, e) && Conflict(e, c) && Beside(before, after, e, c);
      YieldsTaken(before, after, m, c, e);
    }
  }

  lemma {:induction false} SettledFirm(before: seq<Element>, after: seq<Element>, m: map<nat, nat>, g: real, c: Couple<Element>)
    requires AllTriples(before) && AllTriples(after) && Pairing(before, after, m)
    requires SettledWithin(before, after, m, g) && OfOneShape(c) && Separation(c) <= g
    ensures Firm(Comparison(before, after, m), ByShape(), c)
  {
    var x, near := Comparison(before, after, m), Besides(ByShape(), c);
    forall i: nat, j: nat | i < |before| && j < |after| && before[i] == c.0 && after[j] == c.1
      ensures OldTaken(x, near, i) || NewTaken(x, near, j)
    {
      var e := Candidate(Separation(c), i, j);
      assert IsCandidate(before, after, e) && Joining(before, after, e) == c;
      MadeYields(before, after, m, e);
      TakenIsYielding(before, after, m, e);
    }
  }

  // A pair that is made yields to itself.
  lemma {:induction false} MadeYields(before: seq<Element>, after: seq<Element>, m: map<nat, nat>, c: Candidate)
    requires AllTriples(before) && AllTriples(after) && IsCandidate(before, after, c)
    ensures Holds(m, c) ==> Yields(before, after, m, c)
  {
    assert Conflict(c, c) && Beside(before, after, c, c);
  }

  lemma {:induction false} FirmYields(before: seq<Element>, after: seq<Element>, m: map<nat, nat>, c: Candidate)
    requires AllTriples(before) && AllTriples(after) && Pairing(before, after, m) && IsCandidate(before, after, c)
    requires Firm(Comparison(before, after, m), ByShape(), Joining(before, after, c))
    ensures Yields(before, after, m, c)
  {
    TakenIsYielding(before, after, m, c);
  }

  lemma {:induction false} SettledIsFirm(before: seq<Element>, after: seq<Element>, m: map<nat, nat>, g: real)
    requires AllTriples(before) && AllTriples(after) && Pairing(before, after, m)
    ensures SettledWithin(before, after, m, g) <==> FirmWithin(Comparison(before, after, m), g)
  {
    if SettledWithin(before, after, m, g) {
      forall c | OfOneShape(c) && Separation(c) <= g ensures Firm(Comparison(before, after, m), ByShape(), c) {
        SettledFirm(before, after, m, g, c);
      }
    }
    if FirmWithin(Comparison(before, after, m), g) {
      forall c | IsCandidate(before, after, c) && !Holds(m, c) && c.gap <= g ensures Yields(before, after, m, c) {
        CandidateCouple(before, after, c);
        FirmYields(before, after, m, c);
      }
    }
  }

  ghost predicate FirmWithin(x: Comparison<Element>, g: real) {
    forall c :: OfOneShape(c) && Separation(c) <= g ==> Firm(x, ByShape(), c)
  }

  lemma {:induction false} CandidateCouple(before: seq<Element>, after: seq<Element>, c: Candidate)
    requires AllTriples(before) && AllTriples(after) && IsCandidate(before, after, c)
    ensures OfOneShape(Joining(before, after, c)) && Separation(Joining(before, after, c)) == c.gap
  {
  }

  // ---------------------------------------------------------------- copies first

  // The elements with all copies of one in front.
  function Fronted(es: seq<Element>, a: Element): (r: seq<Element>)
    ensures multiset(r) == multiset(es)
  {
    if es == [] then []
    else
      assert es == [es[0]] + es[1..];
      if es[0] == a then [es[0]] + Fronted(es[1..], a) else Fronted(es[1..], a) + [es[0]]
  }

  ghost predicate Leads(es: seq<Element>, a: Element) { forall k, l :: 0 <= k < l < |es| && es[l] == a ==> es[k] == a }

  lemma {:induction false} FrontedLeads(es: seq<Element>, a: Element)
    ensures Leads(Fronted(es, a), a)
  {
    if es != [] {
      FrontedLeads(es[1..], a);
    }
  }

  lemma {:induction false} FrontedTriples(es: seq<Element>, a: Element)
    requires AllTriples(es)
    ensures AllTriples(Fronted(es, a))
  {
    forall k | 0 <= k < |Fronted(es, a)| ensures Triples(Fronted(es, a)[k]) {
      assert Fronted(es, a)[k] in multiset(es);
    }
  }

  // A couple whose copies are listed first on both sides is firm.
  lemma {:induction false} FirstListedIsFirm(before: seq<Element>, after: seq<Element>, m: map<nat, nat>, c: Couple<Element>)
    requires AllTriples(before) && AllTriples(after) && Pairing(before, after, m) && OfOneShape(c)
    requires Leads(before, c.0) && Leads(after, c.1)
    ensures Firm(Comparison(before, after, m), ByShape(), c)
  {
    var x, near := Comparison(before, after, m), Besides(ByShape(), c);
    var cands :| AllCandidates(before, after, cands) && Greedy(cands, m);
    forall i: nat, j: nat | i < |before| && j < |after| && before[i] == c.0 && after[j] == c.1
      ensures OldTaken(x, near, i) || NewTaken(x, near, j)
    {
      var mine := Candidate(Separation(c), i, j);
      MadeYields(before, after, m, mine);
      if !Holds(m, mine) {
        var e := Winner(cands, m, mine);
        assert Beside(before, after, e, mine);
      }
      TakenIsYielding(before, after, m, mine);
    }
  }

  // --------------------------------------------------------------------- theorem

  // Whatever the order of the two listings, the collection of verdicts is the same.
  ghost predicate VerdictsOrderFree(before: seq<Element>, after: seq<Element>, m: map<nat, nat>)
    requires AllTriples(before) && AllTriples(after)
  {
    forall before', after', m' ::
      (multiset(before') == multiset(before) && multiset(after') == multiset(after)
       && AllTriples(before') && AllTriples(after') && Pairing(before', after', m'))
      ==> multiset(Deltas(before', after', m')) == multiset(Deltas(before, after, m))
  }

  lemma {:induction false} SettledVerdicts(x: Comparison<Element>, y: Comparison<Element>)
    requires AllTriples(x.before) && AllTriples(x.after) && AllTriples(y.before) && AllTriples(y.after) && SameModels(x, y)
    requires Pairing(x.before, x.after, x.m) && Pairing(y.before, y.after, y.m)
    requires SettledWithin(x.before, x.after, x.m, Tolerance2(x.before, x.after))
    ensures multiset(Deltas(x.before, x.after, x.m)) == multiset(Deltas(y.before, y.after, y.m))
  {
    var tol2 := Tolerance2(x.before, x.after);
    PairingIsSettledByShape(x.before, x.after, x.m);
    PairingIsSettledByShape(y.before, y.after, y.m);
    SettledIsFirm(x.before, x.after, x.m, tol2);
    SameUpTo(x, y, ByShape(), tol2);
    SameTolerance(x, y);
    KeptOfDeltas(x.before, x.after, x.m);
    KeptOfDeltas(y.before, y.after, y.m);
    VerdictsAreCouples(x, y);
  }

  lemma {:induction false} LooseVerdicts(x: Comparison<Element>, c: Couple<Element>)
    requires AllTriples(x.before) && AllTriples(x.after) && Pairing(x.before, x.after, x.m)
    requires OfOneShape(c) && Separation(c) <= Tolerance2(x.before, x.after) && !Firm(x, ByShape(), c)
    ensures !VerdictsOrderFree(x.before, x.after, x.m)
  {
    var e := NearestLoose(x, ByShape(), c);
    var before, after := Fronted(x.before, e.0), Fronted(x.after, e.1);
    FrontedTriples(x.before, e.0);
    FrontedTriples(x.after, e.1);
    FrontedLeads(x.before, e.0);
    FrontedLeads(x.after, e.1);
    var m := PairingExists(before, after);
    FirstListedIsFirm(before, after, m, e);
    FirmListingDiffers(x, Comparison(before, after, m), e);
  }

  lemma {:induction false} FirmListingDiffers(x: Comparison<Element>, y: Comparison<Element>, e: Couple<Element>)
    requires AllTriples(x.before) && AllTriples(x.after) && AllTriples(y.before) && AllTriples(y.after) && SameModels(x, y)
    requires Pairing(x.before, x.after, x.m) && Pairing(y.before, y.after, y.m)
    requires Separation(e) <= Tolerance2(x.before, x.after) && FirmBelow(x, ByShape(), Separation(e))
    requires !Firm(x, ByShape(), e) && Firm(y, ByShape(), e)
    ensures multiset(Deltas(x.before, x.after, x.m)) != multiset(Deltas(y.before, y.after, y.m))
  {
    var near := UpTo(ByShape(), Tolerance2(x.before, x.after));
    PairingIsSettledByShape(x.before, x.after, x.m);
    PairingIsSettledByShape(y.before, y.after, y.m);
    MoreWhereFirm(x, y, ByShape(), e);
    NumberIn(x, near, e);
    NumberIn(y, near, e);
    SameTolerance(x, y);
    KeptOfDeltas(x.before, x.after, x.m);
    KeptOfDeltas(y.before, y.after, y.m);
    VerdictsAreCouples(x, y);
  }

  // The collection of verdicts never depends on file order exactly when every pair within
  // the tolerance that was left out lost to a strictly nearer one or to a copy of itself.
  lemma {:induction false} VerdictsIgnoreOrderExactly(before: seq<Element>, after: seq<Element>, m: map<nat, nat>)
    requires AllTriples(before) && AllTriples(after) && Pairing(before, after, m)
    ensures VerdictsOrderFree(before, after, m) <==> SettledWithin(before, after, m, Tolerance2(before, after))
  {
    var x := Comparison(before, after, m);
    if SettledWithin(before, after, m, Tolerance2(before, after)) {
      forall before', after', m' | multiset(before') == multiset(before) && multiset(after') == multiset(after)
                                   && AllTriples(before') && AllTriples(after') && Pairing(before', after', m')
        ensures multiset(Deltas(before', after', m')) == multiset(Deltas(before, after, m))
      {
        SettledVerdicts(x, Comparison(before', after', m'));
      }
    } else {
      SettledIsFirm(before, after, m, Tolerance2(before, after));
      var c :| OfOneShape(c) && Separation(c) <= Tolerance2(before, after) && !Firm(x, ByShape(), c);
      LooseVerdicts(x, c);
    }
  }

  // In particular it never does where the pairing never does.
  lemma {:induction false} DecidedIsSettled(before: seq<Element>, after: seq<Element>, m: map<nat, nat>, g: real)
    requires AllTriples(before) && AllTriples(after) && Decided(before, after, m)
    ensures SettledWithin(before, after, m, g)
  {
    forall c | IsCandidate(before, after, c) && !Holds(m, c) ensures Yields(before, after, m, c) {
      assert StrictlyBeaten(before, after, m, c);
    }
  }
}
