/** When the two pages hold the same objects, all moved alike, the matcher's answer
    is exact: however the objects are ordered, and whether or not the page is small
    enough for the alignment table. */
module DiffExactness {
  import opened Wrappers
  import opened PageObjects
  import opened Indexing
  import opened Reals
  import opened Rounding
  import opened Vocabulary
  import opened PdfMatch
  import opened PdfMatchTheorems

  // ------------------------------------------------------------------ votes

  // A unanimous, non-empty vote decides the offset.
  lemma {:induction false} UnanimousVote(votes: seq<Point>, cell: Point, off: Point)
    requires votes != [] && forall v :: v in votes ==> v == cell
    requires Dominant(votes, off)
    ensures off == cell
  {
    Unanimous(votes, cell);
    DominantIsUnique(votes, off, cell);
  }

  lemma {:induction false} Unanimous(votes: seq<Point>, cell: Point)
    requires forall v :: v in votes ==> v == cell
    ensures multiset(votes)[cell] == |votes|
  {
    if votes != [] {
      assert votes == [votes[0]] + votes[1..] && votes[0] in votes;
      assert forall v :: v in votes[1..] ==> v in votes;
      Unanimous(votes[1..], cell);
    }
  }

  // If every voter votes for `cell`, so does every vote cast.
  lemma {:induction false} VotersAgree(before: seq<PageObject>, after: seq<PageObject>, cell: Point, k: nat)
    requires k <= |before|
    requires forall i :: 0 <= i < |before| && Votes(before, after, i) && before[i].signature in Signatures(after) ==>
               VoteCell(before[i], after[Find(after, before[i].signature)]) == cell
    ensures forall v :: v in VoteList(before, after, k) ==> v == cell
  {
    if k > 0 {
      VotersAgree(before, after, cell, k - 1);
      VoterIsPresent(before, after, k - 1);
    }
  }

  lemma {:induction false} VoterIsPresent(before: seq<PageObject>, after: seq<PageObject>, i: nat)
    requires i < |before|
    ensures Votes(before, after, i) ==> before[i].signature in Signatures(after)
  {
    if Votes(before, after, i) {
      assert before[i].signature in multiset(Signatures(after));
    }
  }

  lemma {:induction false} VoterVotes(before: seq<PageObject>, after: seq<PageObject>, i: nat, k: nat)
    requires i < k <= |before| && Votes(before, after, i)
    ensures VoteList(before, after, k) != []
  {
    if i < k - 1 {
      VoterVotes(before, after, i, k - 1);
    }
  }

  lemma {:induction false} NoVoterNoVotes(before: seq<PageObject>, after: seq<PageObject>, k: nat)
    requires k <= |before| && forall i :: 0 <= i < |before| ==> !Votes(before, after, i)
    ensures VoteList(before, after, k) == []
  {
    if k > 0 {
      NoVoterNoVotes(before, after, k - 1);
    }
  }

  // The cell an offset votes for is within half a unit of it on each axis, so
  // cancelling the cell leaves at most sqrt(1/2) of movement, under the tolerance.
  lemma {:induction false} CellIsClose(o: PageObject, n: PageObject, t: Point)
    requires n.pos == Point(o.pos.x + t.x, o.pos.y + t.y)
    ensures Gap(o, n, VoteCell(o, n)) <= 0.5
    ensures Gap(o, n, VoteCell(o, n)) <= Square(MOVE_TOLERANCE)
    ensures Gap(o, n, VoteCell(o, n)) < Square(RELOCATE_THRESHOLD)
  {
    var cell := VoteCell(o, n);
    RoundError((n.pos.x - o.pos.x) / VOTE_GRID);
    RoundError((n.pos.y - o.pos.y) / VOTE_GRID);
    HalfSquared(n.pos.x - (o.pos.x + cell.x));
    HalfSquared(n.pos.y - (o.pos.y + cell.y));
  }

  lemma {:induction false} HalfSquared(v: real)
    requires -0.5 <= v <= 0.5
    ensures 0.0 <= Square(v) <= 0.25
  {
    var a := if v >= 0.0 then v else -v;
    assert v * v == a * a;
    ProductIsNonNegative(a, 0.5 - a);
  }

  // -------------------------------------------------------------- verdicts

  function UnchangedList(p: Pairs): (d: seq<ObjectDelta>)
    ensures |d| == |p| && forall k :: 0 <= k < |d| ==> d[k] == ObjectDelta(Unchanged, Some(p[k].0), Some(p[k].1), NoReason)
  {
    seq(|p|, k requires 0 <= k < |p| => ObjectDelta(Unchanged, Some(p[k].0), Some(p[k].1), NoReason))
  }

  ghost predicate AllStill(before: seq<PageObject>, after: seq<PageObject>, off: Point, p: Pairs) {
    forall k :: 0 <= k < |p| ==>
      p[k].0 < |before| && p[k].1 < |after| && Classify(before[p[k].0], after[p[k].1], off) == (Unchanged, NoReason)
  }

  lemma {:induction false} StillVerdicts(before: seq<PageObject>, after: seq<PageObject>, off: Point, p: Pairs)
    requires Joins(before, after, p) && AllStill(before, after, off, p)
    ensures Verdicts(before, after, off, p) == UnchangedList(p)
  {
    if p != [] {
      var init, x := p[..|p| - 1], p[|p| - 1];
      VerdictsUnfold(before, after, off, p);
      StillVerdicts(before, after, off, init);
      assert Verdict(before[x.0], after[x.1], off, x) == [ObjectDelta(Unchanged, Some(x.0), Some(x.1), NoReason)];
    }
  }

  // ------------------------------------------------------- the exact theorem

  // Shared signatures are moved by t, style kept.
  ghost predicate SharedMovedBy(before: seq<PageObject>, after: seq<PageObject>, t: Point) {
    forall i, j :: 0 <= i < |before| && 0 <= j < |after| && before[i].signature == after[j].signature ==>
      after[j].pos == Point(before[i].pos.x + t.x, before[i].pos.y + t.y) && after[j].style == before[i].style
  }

  ghost predicate Setting(before: seq<PageObject>, after: seq<PageObject>, t: Point, off: Point) {
    && NoDuplicates(Signatures(before)) && NoDuplicates(Signatures(after))
    && SharedMovedBy(before, after, t)
    && Dominant(VoteList(before, after, |before|), off)
  }

  // Every shared object classifies as unchanged against the voted offset.
  lemma {:induction false} SharedIsStill(before: seq<PageObject>, after: seq<PageObject>, t: Point, off: Point, i: nat, j: nat)
    requires Setting(before, after, t, off)
    requires i < |before| && j < |after| && before[i].signature == after[j].signature
    ensures Classify(before[i], after[j], off) == (Unchanged, NoReason)
    ensures Gap(before[i], after[j], off) < Square(RELOCATE_THRESHOLD)
  {
    SharedSetsOffset(before, after, t, off, i, j);
    SharedCell(before[i], after[j], t);
    CellIsClose(before[i], after[j], t);
  }

  // What a shared object votes for.
  function SharedVote(t: Point): Point { Point(Snap(t.x, VOTE_GRID), Snap(t.y, VOTE_GRID)) }

  lemma {:induction false} SharedCell(o: PageObject, n: PageObject, t: Point)
    requires n.pos == Point(o.pos.x + t.x, o.pos.y + t.y)
    ensures VoteCell(o, n) == SharedVote(t)
  {
    assert n.pos.x - o.pos.x == t.x && n.pos.y - o.pos.y == t.y;
  }

  // One shared object is enough for its vote to be the offset.
  lemma {:induction false} SharedSetsOffset(before: seq<PageObject>, after: seq<PageObject>, t: Point, off: Point, i: nat, j: nat)
    requires Setting(before, after, t, off)
    requires i < |before| && j < |after| && before[i].signature == after[j].signature
    ensures off == SharedVote(t)
  {
    forall k | 0 <= k < |before| && Votes(before, after, k) && before[k].signature in Signatures(after)
      ensures VoteCell(before[k], after[Find(after, before[k].signature)]) == SharedVote(t)
    {
      SharedCell(before[k], after[Find(after, before[k].signature)], t);
    }
    VotersAgree(before, after, SharedVote(t), |before|);
    SharedVotes(before, after, i, j);
    VoterVotes(before, after, i, |before|);
    UnanimousVote(VoteList(before, after, |before|), SharedVote(t), off);
  }

  lemma {:induction false} SharedVotes(before: seq<PageObject>, after: seq<PageObject>, i: nat, j: nat)
    requires NoDuplicates(Signatures(before)) && NoDuplicates(Signatures(after))
    requires i < |before| && j < |after| && before[i].signature == after[j].signature
    ensures Votes(before, after, i)
  {
    assert Signatures(before)[i] == Signatures(after)[j];
    DistinctOccurrence(before, before[i].signature);
    DistinctOccurrence(after, before[i].signature);
  }

  // With distinct signatures the pairing is exactly "same signature".
  lemma {:induction false} MatchingIsExact(before: seq<PageObject>, after: seq<PageObject>, t: Point, off: Point, i: nat, j: nat)
    requires Setting(before, after, t, off) && i < |before| && j < |after|
    ensures (i, j) in Matching(before, after, off) <==> before[i].signature == after[j].signature
  {
    var m := Matching(before, after, off);
    MatchingIsValid(before, after, off);
    if before[i].signature == after[j].signature {
      SharedIsStill(before, after, t, off, i, j);
      forall k | 0 <= k < |m|
        ensures m[k].0 == i <==> m[k].1 == j
      {
        assert Signatures(before)[m[k].0] == Signatures(after)[m[k].1];
        assert Signatures(before)[i] == Signatures(after)[j];
      }
      if i !in Firsts(m) {
        UnmatchedAreFarApart(before, after, off, i, j);
      }
      var k :| 0 <= k < |m| && Firsts(m)[k] == i;
      assert m[k] == (i, j);
    }
  }

  lemma {:induction false} MatchedExactlyWhenShared(before: seq<PageObject>, after: seq<PageObject>, t: Point, off: Point)
    requires Setting(before, after, t, off)
    ensures forall i: nat :: i < |before| ==>
              (i in Firsts(Matching(before, after, off)) <==> before[i].signature in Signatures(after))
    ensures forall j: nat :: j < |after| ==>
              (j in Seconds(Matching(before, after, off)) <==> after[j].signature in Signatures(before))
  {
    var m := Matching(before, after, off);
    MatchingIsValid(before, after, off);
    forall i: nat | i < |before|
      ensures i in Firsts(m) <==> before[i].signature in Signatures(after)
    {
      if i in Firsts(m) {
        var k :| 0 <= k < |m| && Firsts(m)[k] == i;
        assert Signatures(after)[m[k].1] == before[i].signature;
      }
      if before[i].signature in Signatures(after) {
        var j := Find(after, before[i].signature);
        MatchingIsExact(before, after, t, off, i, j);
        var k :| 0 <= k < |m| && m[k] == (i, j);
        PairPositions(m, k);
      }
    }
    forall j: nat | j < |after|
      ensures j in Seconds(m) <==> after[j].signature in Signatures(before)
    {
      if j in Seconds(m) {
        var k :| 0 <= k < |m| && Seconds(m)[k] == j;
        assert Signatures(before)[m[k].0] == after[j].signature;
      }
      if after[j].signature in Signatures(before) {
        var i := Find(before, after[j].signature);
        MatchingIsExact(before, after, t, off, i, j);
        var k :| 0 <= k < |m| && m[k] == (i, j);
        PairPositions(m, k);
      }
    }
  }

  // Positions of the old objects whose signature the new page also has.
  function Shared(before: seq<PageObject>, after: seq<PageObject>): set<nat> {
    set i: nat | i < |before| && before[i].signature in Signatures(after)
  }

  lemma {:induction false} ExactVerdicts(before: seq<PageObject>, after: seq<PageObject>, t: Point, off: Point)
    requires Setting(before, after, t, off)
    ensures Verdicts(before, after, off, SortedMatching(before, after, off)) == UnchangedList(SortedMatching(before, after, off))
  {
    var s := SortedMatching(before, after, off);
    forall k | 0 <= k < |s|
      ensures Classify(before[s[k].0], after[s[k].1], off) == (Unchanged, NoReason)
    {
      SharedIsStill(before, after, t, off, s[k].0, s[k].1);
    }
    StillVerdicts(before, after, off, s);
  }

  // Which deltas a list of unchanged pairs, deletions and additions holds.
  lemma {:induction false} ReadParts(p: Pairs, gone: seq<nat>, come: seq<nat>)
    ensures forall i: nat, j: nat ::
              ObjectDelta(Unchanged, Some(i), Some(j), NoReason) in UnchangedList(p) + DeletedRest(gone) + AddedRest(come)
              <==> (i, j) in p
    ensures forall i: nat ::
              ObjectDelta(Deleted, Some(i), None, NoReason) in UnchangedList(p) + DeletedRest(gone) + AddedRest(come)
              <==> i in gone
    ensures forall j: nat ::
              ObjectDelta(Added, None, Some(j), NoReason) in UnchangedList(p) + DeletedRest(gone) + AddedRest(come)
              <==> j in come
    ensures forall d :: d in UnchangedList(p) + DeletedRest(gone) + AddedRest(come) ==> d.state != Modified && d.reason == NoReason
  {
    var u, g, c := UnchangedList(p), DeletedRest(gone), AddedRest(come);
    forall i: nat, j: nat ensures ObjectDelta(Unchanged, Some(i), Some(j), NoReason) in u + g + c <==> (i, j) in p {
      var d := ObjectDelta(Unchanged, Some(i), Some(j), NoReason);
      if (i, j) in p {
        var k :| 0 <= k < |p| && p[k] == (i, j);
        assert u[k] == d;
      }
      if d in u {
        var k :| 0 <= k < |u| && u[k] == d;
        assert p[k] == (i, j);
      }
    }
    forall i: nat ensures ObjectDelta(Deleted, Some(i), None, NoReason) in u + g + c <==> i in gone {
      if i in gone {
        var k :| 0 <= k < |gone| && gone[k] == i;
        assert g[k] == ObjectDelta(Deleted, Some(i), None, NoReason);
      }
    }
    forall j: nat ensures ObjectDelta(Added, None, Some(j), NoReason) in u + g + c <==> j in come {
      if j in come {
        var k :| 0 <= k < |come| && come[k] == j;
        assert c[k] == ObjectDelta(Added, None, Some(j), NoReason);
      }
    }
  }

  lemma {:induction false} ExactShape(before: seq<PageObject>, after: seq<PageObject>, t: Point, off: Point) returns (p: Pairs, gone: seq<nat>, come: seq<nat>)
    requires Setting(before, after, t, off)
    ensures PageDeltas(before, after, off) == UnchangedList(p) + DeletedRest(gone) + AddedRest(come)
    ensures multiset(p) == multiset(Matching(before, after, off))
    ensures forall i: nat :: i in gone <==> i < |before| && before[i].signature !in Signatures(after)
    ensures forall j: nat :: j in come <==> j < |after| && after[j].signature !in Signatures(before)
  {
    var m := Matching(before, after, off);
    p := SortedMatching(before, after, off);
    gone, come := Others(|before|, ToSet(Firsts(m))), Others(|after|, ToSet(Seconds(m)));
    MatchedExactlyWhenShared(before, after, t, off);
    ExactVerdicts(before, after, t, off);
  }

  lemma {:induction false} UnchangedIsExact(before: seq<PageObject>, after: seq<PageObject>, t: Point, off: Point, i: nat, j: nat)
    requires Setting(before, after, t, off) && i < |before| && j < |after|
    ensures ObjectDelta(Unchanged, Some(i), Some(j), NoReason) in PageDeltas(before, after, off)
            <==> before[i].signature == after[j].signature
  {
    var p, gone, come := ExactShape(before, after, t, off);
    ReadParts(p, gone, come);
    MatchingIsExact(before, after, t, off, i, j);
    assert (i, j) in p <==> (i, j) in multiset(p);
    assert (i, j) in Matching(before, after, off) <==> (i, j) in multiset(Matching(before, after, off));
  }

  lemma {:induction false} OneSidedIsExact(before: seq<PageObject>, after: seq<PageObject>, t: Point, off: Point)
    requires Setting(before, after, t, off)
    ensures forall i: nat :: i < |before| ==>
              (ObjectDelta(Deleted, Some(i), None, NoReason) in PageDeltas(before, after, off)
               <==> before[i].signature !in Signatures(after))
    ensures forall j: nat :: j < |after| ==>
              (ObjectDelta(Added, None, Some(j), NoReason) in PageDeltas(before, after, off)
               <==> after[j].signature !in Signatures(before))
    ensures forall d :: d in PageDeltas(before, after, off) ==> d.state != Modified && d.reason == NoReason
  {
    var p, gone, come := ExactShape(before, after, t, off);
    ReadParts(p, gone, come);
  }

  lemma {:induction false} CountIsExact(before: seq<PageObject>, after: seq<PageObject>, t: Point, off: Point)
    requires Setting(before, after, t, off)
    ensures |Matching(before, after, off)| == |Shared(before, after)|
  {
    var m := Matching(before, after, off);
    MatchingIsValid(before, after, off);
    MatchedExactlyWhenShared(before, after, t, off);
    FirstsInRange(before, after, m);
    assert Shared(before, after) == ToSet(Firsts(m));
    DistinctSetSize(Firsts(m));
  }

  lemma {:induction false} FirstsInRange(before: seq<PageObject>, after: seq<PageObject>, m: Pairs)
    requires Joins(before, after, m)
    ensures forall i :: i in Firsts(m) ==> i < |before|
  {
  }

  // The diff is exact: unchanged are the shared objects, each against its own
  // counterpart; deleted and added are the others; nothing else is reported.
  lemma {:induction false} DiffIsExact(before: seq<PageObject>, after: seq<PageObject>, t: Point, off: Point)
    requires Setting(before, after, t, off)
    ensures forall i: nat, j: nat :: i < |before| && j < |after| ==>
              (ObjectDelta(Unchanged, Some(i), Some(j), NoReason) in PageDeltas(before, after, off)
               <==> before[i].signature == after[j].signature)
    ensures forall i: nat :: i < |before| ==>
              (ObjectDelta(Deleted, Some(i), None, NoReason) in PageDeltas(before, after, off)
               <==> before[i].signature !in Signatures(after))
    ensures forall j: nat :: j < |after| ==>
              (ObjectDelta(Added, None, Some(j), NoReason) in PageDeltas(before, after, off)
               <==> after[j].signature !in Signatures(before))
    ensures forall d :: d in PageDeltas(before, after, off) ==> d.state != Modified && d.reason == NoReason
    ensures |Matching(before, after, off)| == |Shared(before, after)|
  {
    forall i: nat, j: nat | i < |before| && j < |after|
      ensures ObjectDelta(Unchanged, Some(i), Some(j), NoReason) in PageDeltas(before, after, off)
              <==> before[i].signature == after[j].signature
    {
      UnchangedIsExact(before, after, t, off, i, j);
    }
    OneSidedIsExact(before, after, t, off);
    CountIsExact(before, after, t, off);
  }
}
