/** What a page comparison reports, read off the matching alone: which deltas there are,
    told from distances and styles without the procedure that appends them. */
module PdfVerdicts {
  import opened Wrappers
  import opened Vocabulary
  import opened PageObjects
  import opened Indexing
  import opened Reals
  import opened Scoring
  import opened Sorting
  import opened PdfMatch

  // Too far apart to be one thing moved.
  ghost predicate Relocates(o: PageObject, n: PageObject, off: Point) { Gap(o, n, off) > 72.0 * 72.0 }

  // Farther than the tolerance, and drawn in another style.
  ghost predicate Moves(o: PageObject, n: PageObject, off: Point) { Gap(o, n, off) > 0.75 * 0.75 }

  // A matched pair within reach is one two-sided delta, modified just when it moved or
  // changed style, and saying which.
  ghost predicate ReportsPair(o: PageObject, n: PageObject, off: Point, state: DiffState, reason: Reason) {
    && !Relocates(o, n, off)
    && if Moves(o, n, off) || o.style != n.style then state == Modified && reason == Differs(Moves(o, n, off), o.style != n.style)
       else state == Unchanged && reason == NoReason
  }

  // Positions joined by these pairs.
  ghost predicate Matched(before: seq<PageObject>, after: seq<PageObject>, p: Pairs, i: nat, j: nat) {
    i < |before| && j < |after| && (i, j) in p
  }

  ghost predicate Lonely(before: seq<PageObject>, after: seq<PageObject>, off: Point, p: Pairs, d: ObjectDelta) {
    match (d.was, d.now)
    case (Some(i), None) =>
      d.state == Deleted && i < |before|
      && ((d.reason == NoReason && forall j: nat :: !Matched(before, after, p, i, j))
          || (d.reason == Relocated && exists j: nat :: Matched(before, after, p, i, j) && Relocates(before[i], after[j], off)))
    case (None, Some(j)) =>
      d.state == Added && j < |after|
      && ((d.reason == NoReason && forall i: nat :: !Matched(before, after, p, i, j))
          || (d.reason == Relocated && exists i: nat :: Matched(before, after, p, i, j) && Relocates(before[i], after[j], off)))
    case _ => false
  }

  // One side alone is reported for an object without a partner, or with one out of reach.
  ghost predicate Reported(before: seq<PageObject>, after: seq<PageObject>, off: Point, p: Pairs, d: ObjectDelta) {
    match (d.was, d.now)
    case (Some(i), Some(j)) => Matched(before, after, p, i, j) && ReportsPair(before[i], after[j], off, d.state, d.reason)
    case _ => Lonely(before, after, off, p, d)
  }

  // What one matched pair contributes.
  ghost predicate ReportsFor(o: PageObject, n: PageObject, off: Point, i: nat, j: nat, d: ObjectDelta) {
    if Relocates(o, n, off) then
      d == ObjectDelta(Deleted, Some(i), None, Relocated) || d == ObjectDelta(Added, None, Some(j), Relocated)
    else d.was == Some(i) && d.now == Some(j) && ReportsPair(o, n, off, d.state, d.reason)
  }

  lemma {:induction false} VerdictReports(o: PageObject, n: PageObject, off: Point, i: nat, j: nat, d: ObjectDelta)
    ensures d in Verdict(o, n, off, (i, j)) <==> ReportsFor(o, n, off, i, j, d)
  {
  }

  lemma {:induction false} VerdictsReport(before: seq<PageObject>, after: seq<PageObject>, off: Point, p: Pairs, d: ObjectDelta)
    requires Joins(before, after, p)
    ensures d in Verdicts(before, after, off, p)
            <==> exists k :: 0 <= k < |p| && ReportsFor(before[p[k].0], after[p[k].1], off, p[k].0, p[k].1, d)
  {
    if p != [] {
      var init, x := p[..|p| - 1], p[|p| - 1];
      VerdictsReport(before, after, off, init, d);
      VerdictReports(before[x.0], after[x.1], off, x.0, x.1, d);
    }
  }

  // Some matched pair has this to report.
  ghost predicate FromPair(before: seq<PageObject>, after: seq<PageObject>, off: Point, p: Pairs, d: ObjectDelta) {
    exists i: nat, j: nat :: Matched(before, after, p, i, j) && ReportsFor(before[i], after[j], off, i, j, d)
  }

  lemma {:induction false} VerdictsFromPairs(before: seq<PageObject>, after: seq<PageObject>, off: Point, p: Pairs, s: Pairs, d: ObjectDelta)
    requires Joins(before, after, s) && forall x :: x in s <==> x in p
    ensures d in Verdicts(before, after, off, s) <==> FromPair(before, after, off, p, d)
  {
    VerdictsReport(before, after, off, s, d);
    if FromPair(before, after, off, p, d) {
      var i: nat, j: nat :| Matched(before, after, p, i, j) && ReportsFor(before[i], after[j], off, i, j, d);
      assert (i, j) in s;
      var k :| 0 <= k < |s| && s[k] == (i, j);
    }
    if k :| 0 <= k < |s| && ReportsFor(before[s[k].0], after[s[k].1], off, s[k].0, s[k].1, d) {
      assert s[k] in s && Matched(before, after, p, s[k].0, s[k].1);
    }
  }

  lemma {:induction false} InFirsts(p: Pairs, i: nat)
    ensures i in Firsts(p) <==> exists j: nat :: (i, j) in p
  {
    if i in Firsts(p) {
      var k :| 0 <= k < |p| && Firsts(p)[k] == i;
      assert p[k] in p;
    }
    if j: nat :| (i, j) in p {
      var k :| 0 <= k < |p| && p[k] == (i, j);
      assert Firsts(p)[k] == i;
    }
  }

  lemma {:induction false} InSeconds(p: Pairs, j: nat)
    ensures j in Seconds(p) <==> exists i: nat :: (i, j) in p
  {
    if j in Seconds(p) {
      var k :| 0 <= k < |p| && Seconds(p)[k] == j;
      assert p[k] in p;
    }
    if i: nat :| (i, j) in p {
      var k :| 0 <= k < |p| && p[k] == (i, j);
      assert Seconds(p)[k] == j;
    }
  }

  lemma {:induction false} JoinedIsMatched(before: seq<PageObject>, after: seq<PageObject>, p: Pairs, i: nat, j: nat)
    requires Joins(before, after, p)
    ensures Matched(before, after, p, i, j) <==> (i, j) in p
  {
    if (i, j) in p {
      var k :| 0 <= k < |p| && p[k] == (i, j);
    }
  }

  lemma {:induction false} Partnerless(before: seq<PageObject>, after: seq<PageObject>, p: Pairs, at: nat)
    requires Joins(before, after, p)
    ensures at in Firsts(p) <==> exists j: nat :: Matched(before, after, p, at, j)
    ensures at in Seconds(p) <==> exists i: nat :: Matched(before, after, p, i, at)
  {
    InFirsts(p, at);
    InSeconds(p, at);
    forall j: nat ensures Matched(before, after, p, at, j) <==> (at, j) in p { JoinedIsMatched(before, after, p, at, j); }
    forall i: nat ensures Matched(before, after, p, i, at) <==> (i, at) in p { JoinedIsMatched(before, after, p, i, at); }
  }

  // What an object without a partner contributes.
  ghost predicate FromRest(before: seq<PageObject>, after: seq<PageObject>, p: Pairs, d: ObjectDelta) {
    || (exists i: nat :: i < |before| && i !in Firsts(p) && d == ObjectDelta(Deleted, Some(i), None, NoReason))
    || (exists j: nat :: j < |after| && j !in Seconds(p) && d == ObjectDelta(Added, None, Some(j), NoReason))
  }

  lemma {:induction false} RestReports(gone: seq<nat>, come: seq<nat>, d: ObjectDelta)
    ensures d in DeletedRest(gone) <==> exists i: nat :: i in gone && d == ObjectDelta(Deleted, Some(i), None, NoReason)
    ensures d in AddedRest(come) <==> exists j: nat :: j in come && d == ObjectDelta(Added, None, Some(j), NoReason)
  {
    if i: nat :| i in gone && d == ObjectDelta(Deleted, Some(i), None, NoReason) {
      var k :| 0 <= k < |gone| && gone[k] == i;
      assert DeletedRest(gone)[k] == d;
    }
    if j: nat :| j in come && d == ObjectDelta(Added, None, Some(j), NoReason) {
      var k :| 0 <= k < |come| && come[k] == j;
      assert AddedRest(come)[k] == d;
    }
  }

  lemma {:induction false} DeltasComeFrom(before: seq<PageObject>, after: seq<PageObject>, off: Point, p: Pairs, s: Pairs, d: ObjectDelta)
    requires Joins(before, after, s) && forall x :: x in s <==> x in p
    ensures d in Verdicts(before, after, off, s) + DeletedRest(Others(|before|, ToSet(Firsts(p)))) + AddedRest(Others(|after|, ToSet(Seconds(p))))
            <==> FromPair(before, after, off, p, d) || FromRest(before, after, p, d)
  {
    VerdictsFromPairs(before, after, off, p, s, d);
    RestReports(Others(|before|, ToSet(Firsts(p))), Others(|after|, ToSet(Seconds(p))), d);
  }

  lemma {:induction false} TwoSided(before: seq<PageObject>, after: seq<PageObject>, off: Point, p: Pairs, d: ObjectDelta)
    requires d.was.Some? && d.now.Some?
    ensures Reported(before, after, off, p, d) <==> FromPair(before, after, off, p, d) || FromRest(before, after, p, d)
  {
  }

  lemma {:induction false} OnlyOld(before: seq<PageObject>, after: seq<PageObject>, off: Point, p: Pairs, d: ObjectDelta)
    requires Joins(before, after, p) && d.was.Some? && d.now.None?
    ensures Lonely(before, after, off, p, d) <==> FromPair(before, after, off, p, d) || FromRest(before, after, p, d)
  {
    Partnerless(before, after, p, d.was.value);
  }

  lemma {:induction false} OnlyNew(before: seq<PageObject>, after: seq<PageObject>, off: Point, p: Pairs, d: ObjectDelta)
    requires Joins(before, after, p) && d.was.None? && d.now.Some?
    ensures Lonely(before, after, off, p, d) <==> FromPair(before, after, off, p, d) || FromRest(before, after, p, d)
  {
    Partnerless(before, after, p, d.now.value);
  }

  lemma {:induction false} ReportedFrom(before: seq<PageObject>, after: seq<PageObject>, off: Point, p: Pairs, d: ObjectDelta)
    requires Joins(before, after, p)
    ensures Reported(before, after, off, p, d) <==> FromPair(before, after, off, p, d) || FromRest(before, after, p, d)
  {
    match (d.was, d.now)
    case (Some(_), Some(_)) => TwoSided(before, after, off, p, d);
    case (Some(_), None) => OnlyOld(before, after, off, p, d);
    case (None, Some(_)) => OnlyNew(before, after, off, p, d);
    case (None, None) =>
  }

  // The deltas are exactly these; that each object is in one of them once is
  // EveryObjectOnce.
  lemma {:induction false} ReportedExactly(before: seq<PageObject>, after: seq<PageObject>, off: Point, d: ObjectDelta)
    ensures d in PageDeltas(before, after, off) <==> Reported(before, after, off, Matching(before, after, off), d)
  {
    var m := Matching(before, after, off);
    MatchingIsValid(before, after, off);
    SameElements(m, Lexicographic);
    DeltasComeFrom(before, after, off, m, SortedMatching(before, after, off), d);
    ReportedFrom(before, after, off, m, d);
  }

  // A page's score reaches the threshold exactly when neither page held an operator the
  // extractor does not model and nearly three fifths of the smaller page were matched.
  lemma {:induction false} TrustedPage(before: PageParse, after: PageParse, matched: nat)
    requires before.objects != [] && after.objects != []
    ensures Confidence(before, after, matched) >= MIN_CONFIDENCE <==>
            && before.unknownOps == [] && after.unknownOps == []
            && matched as real >= 0.59995 * (if |before.objects| <= |after.objects| then |before.objects| else |after.objects|) as real
  {
    var flaws := ToSet(before.unknownOps) + ToSet(after.unknownOps);
    var n := Minimum(|before.objects|, |after.objects|);
    TrustworthyExactly(matched, |before.objects|, |after.objects|, |flaws|);
    NoFlaws(before.unknownOps, after.unknownOps);
    ShareAtLeast(matched as real, n as real, 0.59995);
  }

  lemma {:induction false} NoFlaws(a: seq<string>, b: seq<string>)
    ensures |ToSet(a) + ToSet(b)| == 0 <==> a == [] && b == []
  {
    if a != [] { assert a[0] in ToSet(a) + ToSet(b); }
    if b != [] { assert b[0] in ToSet(a) + ToSet(b); }
  }

  lemma {:induction false} ShareAtLeast(k: real, n: real, s: real)
    requires n > 0.0
    ensures k / n >= s <==> k >= s * n
  {
    assert k / n * n == k;
    if k / n >= s {
      ProductIsNonNegative(k / n - s, n);
    } else {
      ProductIsPositive(s - k / n, n);
    }
  }
}
