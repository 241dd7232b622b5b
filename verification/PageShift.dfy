/** A page compared with itself after a whole-unit shift: when is nothing reported? */
module PageShift {
  import opened Wrappers
  import opened PageObjects
  import opened Indexing
  import opened Reals
  import opened Rounding
  import opened Sorting
  import opened Vocabulary
  import opened PdfMatch
  import opened PdfMatchTheorems
  import opened DiffExactness
  import Lcs

  // The same objects in the same order, each moved by (tx, ty).
  ghost predicate Shifted(before: seq<PageObject>, after: seq<PageObject>, tx: int, ty: int) {
    && |before| == |after|
    && forall i :: 0 <= i < |before| ==>
         && after[i].signature == before[i].signature
         && after[i].style == before[i].style
         && after[i].pos == Point(before[i].pos.x + tx as real, before[i].pos.y + ty as real)
  }

  ghost predicate SomeSignatureOnce(objs: seq<PageObject>) {
    exists i :: 0 <= i < |objs| && Occurrences(objs, objs[i].signature) == 1
  }

  ghost predicate AllUnchanged(before: seq<PageObject>, after: seq<PageObject>, off: Point) {
    forall d :: d in PageDeltas(before, after, off) ==> d.state == Unchanged
  }

  lemma {:induction false} SameSignatures(before: seq<PageObject>, after: seq<PageObject>, tx: int, ty: int)
    requires Shifted(before, after, tx, ty)
    ensures Signatures(before) == Signatures(after)
  {
  }

  lemma {:induction false} VoterVotesForTheShift(before: seq<PageObject>, after: seq<PageObject>, tx: int, ty: int, i: nat)
    requires Shifted(before, after, tx, ty) && i < |before| && Votes(before, after, i)
    requires before[i].signature in Signatures(after)
    ensures VoteCell(before[i], after[Find(after, before[i].signature)]) == Point(tx as real, ty as real)
  {
    SingleOccurrence(after, before[i].signature, i);
    RoundsTo(tx as real, tx);
    RoundsTo(ty as real, ty);
    assert after[i].pos.x - before[i].pos.x == tx as real && after[i].pos.y - before[i].pos.y == ty as real;
  }

  // One signature occurring once is enough to recover the shift exactly.
  lemma {:induction false} ShiftIsVoted(before: seq<PageObject>, after: seq<PageObject>, tx: int, ty: int, off: Point)
    requires Shifted(before, after, tx, ty) && Dominant(VoteList(before, after, |before|), off)
    ensures SomeSignatureOnce(before) ==> off == Point(tx as real, ty as real)
    ensures !SomeSignatureOnce(before) ==> off == ORIGIN
  {
    SameSignatures(before, after, tx, ty);
    if SomeSignatureOnce(before) {
      var i :| 0 <= i < |before| && Occurrences(before, before[i].signature) == 1;
      forall k | 0 <= k < |before| && Votes(before, after, k) && before[k].signature in Signatures(after)
        ensures VoteCell(before[k], after[Find(after, before[k].signature)]) == Point(tx as real, ty as real)
      {
        VoterVotesForTheShift(before, after, tx, ty, k);
      }
      VotersAgree(before, after, Point(tx as real, ty as real), |before|);
      VoterVotes(before, after, i, |before|);
      UnanimousVote(VoteList(before, after, |before|), Point(tx as real, ty as real), off);
    } else {
      NoVoterNoVotes(before, after, |before|);
    }
  }

  // ------------------------------------------------------- pairing with itself

  lemma {:induction false} DiagonalSides(n: nat)
    ensures Firsts(Lcs.Diagonal(0, n)) == Range(n) && Seconds(Lcs.Diagonal(0, n)) == Range(n)
    ensures Lcs.Diagonal(0, n + 1) == Lcs.Diagonal(0, n) + [(n, n)]
  {
  }

  // Against its own shifted copy each object takes its own counterpart: the
  // earlier ones are spoken for and its own sits at distance zero.
  lemma {:induction false} NearestIsItself(before: seq<PageObject>, after: seq<PageObject>, tx: int, ty: int, i: nat, m: nat)
    requires Shifted(before, after, tx, ty) && i < |before| && m <= |after|
    ensures Nearest(before[i], after, ToSet(Range(i)), Point(tx as real, ty as real), m) == if m <= i then None else Some(i)
  {
    if m > 0 {
      var off := Point(tx as real, ty as real);
      NearestIsItself(before, after, tx, ty, i, m - 1);
      assert m - 1 in ToSet(Range(i)) <==> m - 1 < i by {
        if m - 1 < i { assert Range(i)[m - 1] == m - 1; }
      }
      if m - 1 >= i {
        OwnGapIsLeast(before, after, tx, ty, i, m - 1);
      }
    }
  }

  lemma {:induction false} OwnGapIsLeast(before: seq<PageObject>, after: seq<PageObject>, tx: int, ty: int, i: nat, j: nat)
    requires Shifted(before, after, tx, ty) && i < |before| && j < |after|
    ensures Gap(before[i], after[i], Point(tx as real, ty as real)) == 0.0
    ensures Gap(before[i], after[i], Point(tx as real, ty as real)) < Square(RELOCATE_THRESHOLD)
    ensures Gap(before[i], after[j], Point(tx as real, ty as real)) >= 0.0
  {
    var dx := after[j].pos.x - (before[i].pos.x + tx as real);
    var dy := after[j].pos.y - (before[i].pos.y + ty as real);
    SquareIsNonNegative(dx);
    SquareIsNonNegative(dy);
  }

  lemma {:induction false} ResidualIsDiagonal(before: seq<PageObject>, after: seq<PageObject>, tx: int, ty: int, k: nat)
    requires Shifted(before, after, tx, ty) && k <= |before|
    ensures Residual(before, after, Point(tx as real, ty as real), k) == Lcs.Diagonal(0, k)
  {
    if k > 0 {
      ResidualIsDiagonal(before, after, tx, ty, k - 1);
      DiagonalSides(k - 1);
      NearestIsItself(before, after, tx, ty, k - 1, |after|);
    }
  }

  lemma {:induction false} LiftedDiagonal(n: nat)
    ensures InRange(Lcs.Diagonal(0, n), n, n) && Lift(Lcs.Diagonal(0, n), Range(n), Range(n)) == Lcs.Diagonal(0, n)
  {
  }

  lemma {:induction false} RecoveredIsDiagonal(before: seq<PageObject>, after: seq<PageObject>, tx: int, ty: int)
    requires Shifted(before, after, tx, ty)
    ensures Recovered(before, after, Point(tx as real, ty as real), []) == Lcs.Diagonal(0, |before|)
  {
    var n := |before|;
    NothingTaken(n);
    assert ToSet(Firsts([])) == {} == ToSet(Seconds([]));
    assert Select(before, Range(n)) == before && Select(after, Range(n)) == after;
    ResidualIsDiagonal(before, after, tx, ty, n);
    LiftedDiagonal(n);
  }

  lemma {:induction false} DiagonalLeavesNothing(before: seq<PageObject>, after: seq<PageObject>, off: Point)
    ensures Recovered(before, after, off, Lcs.Diagonal(0, |before|)) == []
  {
    DiagonalSides(|before|);
    RangeTakesAll(|before|);
    NothingToRecover(before, after, off, Lcs.Diagonal(0, |before|));
  }

  // On either side of the table's size cap, object k is paired with object k.
  lemma {:induction false} MatchingIsDiagonal(before: seq<PageObject>, after: seq<PageObject>, tx: int, ty: int)
    requires Shifted(before, after, tx, ty)
    ensures Matching(before, after, Point(tx as real, ty as real)) == Lcs.Diagonal(0, |before|)
  {
    SameSignatures(before, after, tx, ty);
    Lcs.AlignedOnEqualInputs(Signatures(before));
    RecoveredIsDiagonal(before, after, tx, ty);
    DiagonalLeavesNothing(before, after, Point(tx as real, ty as real));
    assert Aligned(before, after) == [] || Aligned(before, after) == Lcs.Diagonal(0, |before|);
  }

  lemma {:induction false} DiagonalDeltas(before: seq<PageObject>, after: seq<PageObject>, off: Point)
    requires |before| == |after| && Matching(before, after, off) == Lcs.Diagonal(0, |before|)
    ensures PageDeltas(before, after, off) == Verdicts(before, after, off, SortedMatching(before, after, off))
    ensures SortedMatching(before, after, off) == Lcs.Diagonal(0, |before|)
  {
    var n := |before|;
    DiagonalSides(n);
    RangeTakesAll(n);
    SortIsStableOnSorted(Lcs.Diagonal(0, n), Lexicographic);
  }

  lemma {:induction false} ShiftedPageDeltas(before: seq<PageObject>, after: seq<PageObject>, tx: int, ty: int)
    requires Shifted(before, after, tx, ty)
    ensures PageDeltas(before, after, Point(tx as real, ty as real)) == UnchangedList(Lcs.Diagonal(0, |before|))
  {
    MatchingIsDiagonal(before, after, tx, ty);
    DiagonalDeltas(before, after, Point(tx as real, ty as real));
    DiagonalIsStill(before, after, tx, ty);
    StillVerdicts(before, after, Point(tx as real, ty as real), Lcs.Diagonal(0, |before|));
  }

  lemma {:induction false} ShiftedPageUnchanged(before: seq<PageObject>, after: seq<PageObject>, tx: int, ty: int)
    requires Shifted(before, after, tx, ty)
    ensures AllUnchanged(before, after, Point(tx as real, ty as real))
  {
    ShiftedPageDeltas(before, after, tx, ty);
  }

  lemma {:induction false} DiagonalIsStill(before: seq<PageObject>, after: seq<PageObject>, tx: int, ty: int)
    requires Shifted(before, after, tx, ty)
    ensures AllStill(before, after, Point(tx as real, ty as real), Lcs.Diagonal(0, |before|))
  {
    forall k | 0 <= k < |before|
      ensures Classify(before[k], after[k], Point(tx as real, ty as real)) == (Unchanged, NoReason)
    {
      OwnGapIsLeast(before, after, tx, ty, k, k);
    }
  }

  // ------------------------------------------------------------ the theorem

  // An uncancelled whole-unit move leaves some object changed: the outermost one
  // on the side the page moved away from has nothing near it.
  lemma {:induction false} UncancelledShiftShows(before: seq<PageObject>, after: seq<PageObject>, tx: int, ty: int)
    requires Shifted(before, after, tx, ty) && |before| > 0 && (tx != 0 || ty != 0)
    ensures !AllUnchanged(before, after, ORIGIN)
  {
    var i := Outermost(before, tx, ty, |before|);
    if AllUnchanged(before, after, ORIGIN) {
      var j := StillNeighbour(before, after, ORIGIN, i);
      FarOnOneAxis(before[i], after[j], before[j], tx, ty);
    }
  }

  // On a wholly unchanged page every old object has a new one within tolerance.
  lemma {:induction false} StillNeighbour(before: seq<PageObject>, after: seq<PageObject>, off: Point, i: nat) returns (j: nat)
    requires i < |before| && AllUnchanged(before, after, off)
    ensures j < |after| && Gap(before[i], after[j], off) <= Square(MOVE_TOLERANCE)
  {
    EveryObjectOnce(before, after, off);
    EveryDeltaWellFormed(before, after, off);
    assert Range(|before|)[i] == i;
    assert i in multiset(Range(|before|));
    var d := DeltaOf(PageDeltas(before, after, off), i);
    j := d.now.value;
  }

  // How far out an object lies, against the direction of the move.
  function Reach(o: PageObject, tx: int, ty: int): real {
    if tx > 0 then -o.pos.x else if tx < 0 then o.pos.x else if ty > 0 then -o.pos.y else o.pos.y
  }

  lemma {:induction false} Outermost(objs: seq<PageObject>, tx: int, ty: int, k: nat) returns (i: nat)
    requires 0 < k <= |objs|
    ensures i < k && forall j :: 0 <= j < k ==> Reach(objs[j], tx, ty) <= Reach(objs[i], tx, ty)
  {
    i := 0;
    if k > 1 {
      i := Outermost(objs, tx, ty, k - 1);
      if Reach(objs[k - 1], tx, ty) > Reach(objs[i], tx, ty) {
        i := k - 1;
      }
    }
  }

  lemma {:induction false} DeltaOf(d: seq<ObjectDelta>, i: nat) returns (r: ObjectDelta)
    requires i in WasRefs(d)
    ensures r in d && r.was == Some(i)
  {
    if d[|d| - 1].was == Some(i) {
      r := d[|d| - 1];
    } else {
      r := DeltaOf(d[..|d| - 1], i);
    }
  }

  lemma {:induction false} FarOnOneAxis(o: PageObject, n: PageObject, source: PageObject, tx: int, ty: int)
    requires tx != 0 || ty != 0
    requires n.pos == Point(source.pos.x + tx as real, source.pos.y + ty as real)
    requires Reach(source, tx, ty) <= Reach(o, tx, ty)
    ensures Gap(o, n, ORIGIN) > Square(MOVE_TOLERANCE)
  {
    var dx, dy := n.pos.x - (o.pos.x + 0.0), n.pos.y - (o.pos.y + 0.0);
    SquareIsNonNegative(dx);
    SquareIsNonNegative(dy);
    if tx != 0 {
      UnitSquared(dx);
    } else {
      UnitSquared(dy);
    }
  }

  lemma {:induction false} UnitSquared(v: real)
    requires v >= 1.0 || v <= -1.0
    ensures Square(v) >= 1.0
  {
    var a := if v >= 0.0 then v else -v;
    assert v * v == a * a;
    ProductIsNonNegative(a, a - 1.0);
  }

  // A page shifted by whole units is reported wholly unchanged exactly when some
  // signature occurs once on it, or it did not move at all.
  lemma {:induction false} ShiftIsInvisibleExactly(before: seq<PageObject>, after: seq<PageObject>, tx: int, ty: int, off: Point)
    requires Shifted(before, after, tx, ty) && |before| > 0
    requires Dominant(VoteList(before, after, |before|), off)
    ensures AllUnchanged(before, after, off) <==> SomeSignatureOnce(before) || (tx == 0 && ty == 0)
  {
    ShiftIsVoted(before, after, tx, ty, off);
    if off == Point(tx as real, ty as real) {
      ShiftedPageUnchanged(before, after, tx, ty);
    } else {
      UncancelledShiftShows(before, after, tx, ty);
    }
  }
}
