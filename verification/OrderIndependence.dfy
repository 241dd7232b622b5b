/** File order is not identity. Listing the elements of either model in another order
    leaves the pairing alone exactly when every pair left out lost to a strictly nearer
    one; equal distances matter only between pairs that share an element. What becomes of
    the verdicts is in VerdictOrder. */
module OrderIndependence {
  import opened Reals
  import opened Rounding
  import opened Model3D
  import opened GreedyMatching
  import opened GeometryMatch
  import opened GeometryTheorems

  // p and q rename the positions below n, each undoing the other.
  ghost predicate Renaming(p: nat -> nat, q: nat -> nat, n: nat) {
    forall k: nat :: k < n ==> p(k) < n && q(k) < n && q(p(k)) == k && p(q(k)) == k
  }

  // `es` lists the elements of `base` in another order.
  ghost predicate Relisted(base: seq<Element>, es: seq<Element>, p: nat -> nat, q: nat -> nat) {
    && |es| == |base| && Renaming(p, q, |base|)
    && forall k: nat :: k < |es| ==> es[k] == base[p(k)]
  }

  // A pair left out because an accepted one that shares an element is strictly nearer.
  ghost predicate StrictlyBeaten(before: seq<Element>, after: seq<Element>, m: map<nat, nat>, c: Candidate)
    requires AllTriples(before) && AllTriples(after)
  {
    exists e :: IsCandidate(before, after, e) && Holds(m, e) && Conflict(e, c) && e.gap < c.gap
  }

  // No tie had a say in the pairing.
  ghost predicate Decided(before: seq<Element>, after: seq<Element>, m: map<nat, nat>)
    requires AllTriples(before) && AllTriples(after)
  {
    forall c :: IsCandidate(before, after, c) && !Holds(m, c) ==> StrictlyBeaten(before, after, m, c)
  }

  // The two models in their two listings.
  datatype Listings = Listings(before: seq<Element>, after: seq<Element>, before': seq<Element>, after': seq<Element>,
                               p: nat -> nat, q: nat -> nat, r: nat -> nat, s: nat -> nat)

  ghost predicate Valid(w: Listings) {
    && Relisted(w.before, w.before', w.p, w.q) && Relisted(w.after, w.after', w.r, w.s)
    && AllTriples(w.before) && AllTriples(w.after) && AllTriples(w.before') && AllTriples(w.after')
  }

  function Forth(w: Listings): Candidate -> Candidate {
    (c: Candidate) => Candidate(c.gap, w.p(c.i), w.r(c.j))
  }

  function Back(w: Listings): Candidate -> Candidate {
    (c: Candidate) => Candidate(c.gap, w.q(c.i), w.s(c.j))
  }

  lemma {:induction false} CandidateForth(w: Listings, c: Candidate)
    requires Valid(w) && IsCandidate(w.before', w.after', c)
    ensures IsCandidate(w.before, w.after, Forth(w)(c)) && Back(w)(Forth(w)(c)) == c
  {
  }

  lemma {:induction false} CandidateBack(w: Listings, c: Candidate)
    requires Valid(w) && IsCandidate(w.before, w.after, c)
    ensures IsCandidate(w.before', w.after', Back(w)(c)) && Forth(w)(Back(w)(c)) == c
  {
  }

  // A pairing read in the other listing.
  function Renamed(w: Listings, m: map<nat, nat>): map<nat, nat>
    requires Valid(w)
  {
    map k: nat | k < |w.before| && w.p(k) in m :: w.s(m[w.p(k)])
  }

  lemma {:induction false} RenamedHolds(w: Listings, m: map<nat, nat>, c: Candidate)
    requires Valid(w) && JoinsClasses(Shapes(w.before), Shapes(w.after), m) && IsCandidate(w.before', w.after', c)
    ensures Holds(Renamed(w, m), c) <==> Holds(m, Forth(w)(c))
  {
    CandidateForth(w, c);
  }

  lemma {:induction false} RenamedJoins(w: Listings, m: map<nat, nat>)
    requires Valid(w) && JoinsClasses(Shapes(w.before), Shapes(w.after), m)
    ensures JoinsClasses(Shapes(w.before'), Shapes(w.after'), Renamed(w, m))
  {
    var n := Renamed(w, m);
    forall k | k in n ensures k < |w.before'| && n[k] < |w.after'| && Shapes(w.before')[k] == Shapes(w.after')[n[k]] {
      assert Shapes(w.before)[w.p(k)] == Shapes(w.after)[m[w.p(k)]];
      assert w.after'[n[k]] == w.after[m[w.p(k)]];
    }
    forall i, k | i in n && k in n && n[i] == n[k] ensures i == k {
      assert w.r(n[i]) == m[w.p(i)] && w.r(n[k]) == m[w.p(k)];
      assert w.q(w.p(i)) == i && w.q(w.p(k)) == k;
    }
  }

  // A decided pairing, read in the other listing, is what the procedure finds there.
  lemma {:induction false} RenamedIsGreedy(w: Listings, m: map<nat, nat>, cands: seq<Candidate>)
    requires Valid(w) && Pairing(w.before, w.after, m) && Decided(w.before, w.after, m)
    requires AllCandidates(w.before', w.after', cands)
    ensures Greedy(cands, Renamed(w, m))
  {
    var n := Renamed(w, m);
    PairingJoins(w.before, w.after, m);
    RenamedJoins(w, m);
    forall k | k in n ensures exists c :: c in cands && c.i == k && Holds(n, c) {
      var c := Candidate(Dist2(Centroid(w.before'[k]), Centroid(w.after'[n[k]])), k, n[k]);
      assert Shapes(w.before')[k] == Shapes(w.after')[n[k]];
      assert IsCandidate(w.before', w.after', c);
    }
    forall c | c in cands && !Holds(n, c) ensures Beaten(cands, n, c) {
      var e := RenamedLoser(w, m, c);
      assert IsCandidate(w.before', w.after', e);
    }
  }

  lemma {:induction false} RenamedLoser(w: Listings, m: map<nat, nat>, c: Candidate) returns (e: Candidate)
    requires Valid(w) && JoinsClasses(Shapes(w.before), Shapes(w.after), m) && Decided(w.before, w.after, m)
    requires IsCandidate(w.before', w.after', c) && !Holds(Renamed(w, m), c)
    ensures IsCandidate(w.before', w.after', e) && Holds(Renamed(w, m), e) && Before(e, c) && Conflict(e, c)
  {
    RenamedHolds(w, m, c);
    CandidateForth(w, c);
    var f :| IsCandidate(w.before, w.after, f) && Holds(m, f) && Conflict(f, Forth(w)(c)) && f.gap < c.gap;
    CandidateBack(w, f);
    e := Back(w)(f);
    BackConflicts(w, f, c);
    RenamedHolds(w, m, e);
  }

  lemma {:induction false} BackConflicts(w: Listings, f: Candidate, c: Candidate)
    requires Valid(w) && IsCandidate(w.before, w.after, f) && IsCandidate(w.before', w.after', c) && Conflict(f, Forth(w)(c))
    ensures Conflict(Back(w)(f), c) && Back(w)(f).gap == f.gap
  {
  }

  lemma {:induction false} DecidedIsRenamed(w: Listings, m: map<nat, nat>, m': map<nat, nat>)
    requires Valid(w) && Pairing(w.before, w.after, m) && Decided(w.before, w.after, m) && Pairing(w.before', w.after', m')
    ensures m' == Renamed(w, m)
  {
    var cands :| AllCandidates(w.before', w.after', cands) && Greedy(cands, m');
    RenamedIsGreedy(w, m, cands);
    CandidatesAreFunctional(w.before', w.after', cands);
    GreedyIsUnique(cands, m', Renamed(w, m));
  }

  // The pairing of elements is the same: old element k of the second listing, which
  // is p(k) of the first, has the same new element as its partner.
  ghost predicate SamePairing(w: Listings, m: map<nat, nat>, m': map<nat, nat>)
    requires Valid(w)
  {
    forall k: nat :: k < |w.before| ==>
      && (k in m' <==> w.p(k) in m)
      && (k in m' ==> m'[k] < |w.after| && m[w.p(k)] == w.r(m'[k]))
  }

  lemma {:induction false} PairingIgnoresOrder(w: Listings, m: map<nat, nat>, m': map<nat, nat>)
    requires Valid(w) && Pairing(w.before, w.after, m) && Decided(w.before, w.after, m) && Pairing(w.before', w.after', m')
    ensures SamePairing(w, m, m')
  {
    PairingJoins(w.before, w.after, m);
    DecidedIsRenamed(w, m, m');
  }

  // ------------------------------------------------------------- when ties matter

  // Whatever the order of the two listings, the pairing is the same.
  ghost predicate OrderFree(before: seq<Element>, after: seq<Element>, m: map<nat, nat>) {
    forall w: Listings, m' :: Valid(w) && w.before == before && w.after == after && Pairing(w.before', w.after', m') ==> SamePairing(w, m, m')
  }

  // No two pairs that share an element are equally far apart.
  ghost predicate NoTies(before: seq<Element>, after: seq<Element>)
    requires AllTriples(before) && AllTriples(after)
  {
    forall c, e :: IsCandidate(before, after, c) && IsCandidate(before, after, e) && Conflict(c, e) && c.gap == e.gap ==> c == e
  }

  lemma {:induction false} NoTiesDecide(before: seq<Element>, after: seq<Element>, m: map<nat, nat>)
    requires AllTriples(before) && AllTriples(after) && Pairing(before, after, m) && NoTies(before, after)
    ensures Decided(before, after, m)
  {
    forall c | IsCandidate(before, after, c) && !Holds(m, c) ensures StrictlyBeaten(before, after, m, c) {
      var e := Loser(before, after, m, c.i, c.j);
      assert Conflict(e, c);
    }
  }

  lemma {:induction false} CandidatesExist(before: seq<Element>, after: seq<Element>, i: nat, j: nat) returns (cands: seq<Candidate>)
    requires AllTriples(before) && AllTriples(after)
    ensures forall c :: c in cands <==> IsCandidate(before, after, c) && (c.i < i || (c.i == i && c.j < j))
    decreases i, j
  {
    if j > 0 {
      cands := CandidatesExist(before, after, i, j - 1);
      if i < |before| && j - 1 < |after| && ShapeSignature(before[i]) == ShapeSignature(after[j - 1]) {
        cands := cands + [Candidate(Dist2(Centroid(before[i]), Centroid(after[j - 1])), i, j - 1)];
      }
    } else if i > 0 {
      cands := CandidatesExist(before, after, i - 1, |after|);
    } else {
      cands := [];
    }
  }

  lemma {:induction false} PairingExists(before: seq<Element>, after: seq<Element>) returns (m: map<nat, nat>)
    requires AllTriples(before) && AllTriples(after)
    ensures Pairing(before, after, m)
  {
    var cands := CandidatesExist(before, after, |before|, 0);
    assert AllCandidates(before, after, cands);
    CandidatesAreFunctional(before, after, cands);
    m := GreedyExists(cands);
  }

  // Positions with position `a` brought to the front.
  function Swap(a: nat): nat -> nat { (k: nat) => if k == 0 then a else if k == a then 0 else k }

  function ToFront(es: seq<Element>, a: nat): seq<Element>
    requires a < |es|
  {
    seq(|es|, k requires 0 <= k < |es| => es[Swap(a)(k)])
  }

  // Both models with the ends of `c` listed first.
  function Fronted(before: seq<Element>, after: seq<Element>, c: Candidate): Listings
    requires c.i < |before| && c.j < |after|
  {
    Listings(before, after, ToFront(before, c.i), ToFront(after, c.j), Swap(c.i), Swap(c.i), Swap(c.j), Swap(c.j))
  }

  lemma {:induction false} FrontedIsValid(before: seq<Element>, after: seq<Element>, c: Candidate)
    requires AllTriples(before) && AllTriples(after) && c.i < |before| && c.j < |after|
    ensures Valid(Fronted(before, after, c))
  {
    FrontIsRelisted(before, c.i);
    FrontIsRelisted(after, c.j);
  }

  lemma {:induction false} FrontIsRelisted(es: seq<Element>, a: nat)
    requires AllTriples(es) && a < |es|
    ensures Relisted(es, ToFront(es, a), Swap(a), Swap(a)) && AllTriples(ToFront(es, a))
  {
  }

  // Listed first, a pair that was left out and not strictly beaten is made.
  lemma {:induction false} TieIsTurned(before: seq<Element>, after: seq<Element>, m: map<nat, nat>, c: Candidate)
    requires AllTriples(before) && AllTriples(after) && Pairing(before, after, m)
    requires IsCandidate(before, after, c) && !Holds(m, c) && !StrictlyBeaten(before, after, m, c)
    ensures !OrderFree(before, after, m)
  {
    var w := Fronted(before, after, c);
    FrontedIsValid(before, after, c);
    var m' := PairingExists(w.before', w.after');
    if SamePairing(w, m, m') {
      FirstIsBeaten(w, m, m', c);
    }
  }

  lemma {:induction false} FirstIsBeaten(w: Listings, m: map<nat, nat>, m': map<nat, nat>, c: Candidate)
    requires Valid(w) && Pairing(w.before', w.after', m') && SamePairing(w, m, m')
    requires IsCandidate(w.before, w.after, c) && !Holds(m, c) && w.p(0) == c.i && w.r(0) == c.j && w.q(c.i) == 0 && w.s(c.j) == 0
    ensures StrictlyBeaten(w.before, w.after, m, c)
  {
    CandidateBack(w, c);
    var first := Back(w)(c);
    assert first.i == 0 && first.j == 0 && !Holds(m', first);
    var cands :| AllCandidates(w.before', w.after', cands) && Greedy(cands, m');
    var e := Winner(cands, m', first);
    CandidateForth(w, e);
    assert Holds(m, Forth(w)(e)) && Conflict(Forth(w)(e), c) && e.gap < c.gap;
  }

  // A one-to-one pairing of alike elements in which whatever is left out lost to a
  // strictly nearer member: a condition on the models, whatever finds their pairing.
  ghost predicate Decisive(before: seq<Element>, after: seq<Element>, m: map<nat, nat>)
    requires AllTriples(before) && AllTriples(after)
  {
    JoinsClasses(Shapes(before), Shapes(after), m) && Decided(before, after, m)
  }

  // There is then no other.
  lemma {:induction false} DecisiveIsPairing(before: seq<Element>, after: seq<Element>, m: map<nat, nat>)
    requires AllTriples(before) && AllTriples(after) && Decisive(before, after, m)
    ensures Pairing(before, after, m)
  {
    var cands := CandidatesExist(before, after, |before|, 0);
    assert AllCandidates(before, after, cands);
    MembersAreCandidates(before, after, cands, m);
    forall c | c in cands && !Holds(m, c) ensures Beaten(cands, m, c) {
      DecidedIsBeaten(before, after, cands, m, c);
    }
  }

  lemma {:induction false} MembersAreCandidates(before: seq<Element>, after: seq<Element>, cands: seq<Candidate>, m: map<nat, nat>)
    requires AllTriples(before) && AllTriples(after) && AllCandidates(before, after, cands) && JoinsClasses(Shapes(before), Shapes(after), m)
    ensures forall i :: i in m ==> exists c :: c in cands && c.i == i && Holds(m, c)
  {
    forall i | i in m ensures exists c :: c in cands && c.i == i && Holds(m, c) {
      var c := Candidate(Gap(before, after, i, m[i]), i, m[i]);
      assert Shapes(before)[i] == Shapes(after)[m[i]];
      assert IsCandidate(before, after, c);
    }
  }

  lemma {:induction false} DecidedIsBeaten(before: seq<Element>, after: seq<Element>, cands: seq<Candidate>, m: map<nat, nat>, c: Candidate)
    requires AllTriples(before) && AllTriples(after) && AllCandidates(before, after, cands) && Decided(before, after, m)
    requires c in cands && !Holds(m, c)
    ensures Beaten(cands, m, c)
  {
    var e :| IsCandidate(before, after, e) && Holds(m, e) && Conflict(e, c) && e.gap < c.gap;
    assert e in cands && Before(e, c);
  }

  // The pairing never depends on file order exactly when the models admit a decisive one.
  lemma {:induction false} OrderIsIgnoredExactly(before: seq<Element>, after: seq<Element>, m: map<nat, nat>)
    requires AllTriples(before) && AllTriples(after) && Pairing(before, after, m)
    ensures OrderFree(before, after, m) <==> exists n :: Decisive(before, after, n)
  {
    PairingJoins(before, after, m);
    if n :| Decisive(before, after, n) {
      DecisiveIsPairing(before, after, n);
      PairingIsUnique(before, after, m, n);
    }
    if !Decided(before, after, m) {
      var c :| IsCandidate(before, after, c) && !Holds(m, c) && !StrictlyBeaten(before, after, m, c);
      TieIsTurned(before, after, m, c);
    } else {
      assert Decisive(before, after, m);
      DecidedIsOrderFree(before, after, m);
    }
  }

  lemma {:induction false} DecidedIsOrderFree(before: seq<Element>, after: seq<Element>, m: map<nat, nat>)
    requires AllTriples(before) && AllTriples(after) && Pairing(before, after, m) && Decided(before, after, m)
    ensures OrderFree(before, after, m)
  {
    forall w: Listings, m' | Valid(w) && w.before == before && w.after == after && Pairing(w.before', w.after', m')
      ensures SamePairing(w, m, m')
    {
      PairingIgnoresOrder(w, m, m');
    }
  }

  // --------------------------------------------------- ties follow file order

  function PointMesh(name: string, x: real): Element {
    Element("", "", name, "mesh", [x, 0.0, 0.0], [])
  }

  lemma {:induction false} PointMeshFacts(name: string, x: real)
    ensures Triples(PointMesh(name, x)) && Centroid(PointMesh(name, x)) == (x, 0.0, 0.0)
    ensures ShapeSignature(PointMesh(name, x)) == Shape([0, 0, 0], [])
  {
    var e := PointMesh(name, x);
    assert e.verts[3..] == [];
    assert AxisSum(e.verts, 0) == x && AxisSum(e.verts, 1) == 0.0 && AxisSum(e.verts, 2) == 0.0;
    assert Mean(x, 1) == x && Mean(0.0, 1) == 0.0;
    RoundsToZero();
    assert ShapeSignature(e).relative == [0, 0, 0];
  }

  lemma {:induction false} RoundsToZero()
    ensures RoundHalfEven(0.0 / VERTEX_GRID) == 0
  {
  }

  // Ties do occur: one old point midway between two
  // new ones is paired with whichever of the two the file lists first.
  lemma {:induction false} TiesFollowFileOrder(m: map<nat, nat>)
    ensures AllTriples([PointMesh("o", 0.0)]) && AllTriples([PointMesh("l", -1.0), PointMesh("r", 1.0)])
    ensures AllTriples([PointMesh("r", 1.0), PointMesh("l", -1.0)])
    ensures Pairing([PointMesh("o", 0.0)], [PointMesh("l", -1.0), PointMesh("r", 1.0)], m) ==> m == map[0 := 0]
    ensures Pairing([PointMesh("o", 0.0)], [PointMesh("r", 1.0), PointMesh("l", -1.0)], m) ==> m == map[0 := 0]
  {
    TieGoesToFirst("l", -1.0, "r", 1.0, m);
    TieGoesToFirst("r", 1.0, "l", -1.0, m);
  }

  lemma {:induction false} EqualGaps(a: string, x: real, b: string, y: real)
    requires Square(x) == Square(y)
    ensures AllTriples([PointMesh("o", 0.0)]) && AllTriples([PointMesh(a, x), PointMesh(b, y)])
    ensures var gap := Square(0.0 - x) + Square(0.0) + Square(0.0);
            forall c :: IsCandidate([PointMesh("o", 0.0)], [PointMesh(a, x), PointMesh(b, y)], c) <==> c.gap == gap && c.i == 0 && c.j < 2
  {
    PointMeshFacts("o", 0.0);
    PointMeshFacts(a, x);
    PointMeshFacts(b, y);
    SquareOfNegation(x);
    SquareOfNegation(y);
  }

  lemma {:induction false} FirstOfTwoWins(cands: seq<Candidate>, gap: real, m: map<nat, nat>)
    requires (forall c :: c in cands <==> c.gap == gap && c.i == 0 && c.j < 2) && Greedy(cands, m)
    ensures m == map[0 := 0]
  {
    var first := Candidate(gap, 0, 0);
    assert first in cands;
    if !Holds(m, first) {
      var e := Winner(cands, m, first);
      assert false;
    }
  }

  lemma {:induction false} TieGoesToFirst(a: string, x: real, b: string, y: real, m: map<nat, nat>)
    requires Square(x) == Square(y)
    ensures AllTriples([PointMesh("o", 0.0)]) && AllTriples([PointMesh(a, x), PointMesh(b, y)])
    ensures Pairing([PointMesh("o", 0.0)], [PointMesh(a, x), PointMesh(b, y)], m) ==> m == map[0 := 0]
  {
    var before, after := [PointMesh("o", 0.0)], [PointMesh(a, x), PointMesh(b, y)];
    EqualGaps(a, x, b, y);
    if Pairing(before, after, m) {
      var cands :| AllCandidates(before, after, cands) && Greedy(cands, m);
      FirstOfTwoWins(cands, Square(0.0 - x) + Square(0.0) + Square(0.0), m);
    }
  }
}
