/** What the page matcher promises, over every pair of pages. */
module PdfMatchTheorems {
  import opened PageObjects
  import opened Indexing
  import opened Reals
  import opened Scoring
  import opened Vocabulary
  import opened PdfMatch

  // ------------------------------------------------------------ conservation

  // The positions a delta list refers to, counted with multiplicity.
  function WasRefs(d: seq<ObjectDelta>): multiset<nat> {
    if d == [] then multiset{}
    else WasRefs(d[..|d| - 1]) + if d[|d| - 1].was.Some? then multiset{d[|d| - 1].was.value} else multiset{}
  }

  function NowRefs(d: seq<ObjectDelta>): multiset<nat> {
    if d == [] then multiset{}
    else NowRefs(d[..|d| - 1]) + if d[|d| - 1].now.Some? then multiset{d[|d| - 1].now.value} else multiset{}
  }

  lemma {:induction false} RefsConcat(d: seq<ObjectDelta>, e: seq<ObjectDelta>)
    ensures WasRefs(d + e) == WasRefs(d) + WasRefs(e)
    ensures NowRefs(d + e) == NowRefs(d) + NowRefs(e)
  {
    if e == [] {
      assert d + e == d;
    } else {
      assert (d + e)[..|d + e| - 1] == d + e[..|e| - 1];
      RefsConcat(d, e[..|e| - 1]);
    }
  }

  lemma {:induction false} VerdictRefs(o: PageObject, n: PageObject, off: Point, x: (nat, nat))
    ensures WasRefs(Verdict(o, n, off, x)) == multiset{x.0} && NowRefs(Verdict(o, n, off, x)) == multiset{x.1}
  {
    var d := Verdict(o, n, off, x);
    if |d| == 2 {
      assert d == [d[0]] + [d[1]];
      RefsConcat([d[0]], [d[1]]);
    }
  }

  lemma {:induction false} VerdictsUnfold(before: seq<PageObject>, after: seq<PageObject>, off: Point, p: Pairs)
    requires Joins(before, after, p) && p != []
    ensures Joins(before, after, p[..|p| - 1]) && p[|p| - 1].0 < |before| && p[|p| - 1].1 < |after|
    ensures Verdicts(before, after, off, p) == Verdicts(before, after, off, p[..|p| - 1])
              + Verdict(before[p[|p| - 1].0], after[p[|p| - 1].1], off, p[|p| - 1])
  {
  }

  lemma {:induction false} SidesUnfold(p: Pairs)
    requires p != []
    ensures multiset(Firsts(p)) == multiset(Firsts(p[..|p| - 1])) + multiset{p[|p| - 1].0}
    ensures multiset(Seconds(p)) == multiset(Seconds(p[..|p| - 1])) + multiset{p[|p| - 1].1}
  {
    assert Firsts(p) == Firsts(p[..|p| - 1]) + [p[|p| - 1].0];
    assert Seconds(p) == Seconds(p[..|p| - 1]) + [p[|p| - 1].1];
  }

  lemma {:induction false} VerdictsRefs(before: seq<PageObject>, after: seq<PageObject>, off: Point, p: Pairs)
    requires Joins(before, after, p)
    ensures WasRefs(Verdicts(before, after, off, p)) == multiset(Firsts(p))
    ensures NowRefs(Verdicts(before, after, off, p)) == multiset(Seconds(p))
  {
    if p != [] {
      var init, x := p[..|p| - 1], p[|p| - 1];
      VerdictsUnfold(before, after, off, p);
      VerdictsRefs(before, after, off, init);
      var d, e := Verdicts(before, after, off, init), Verdict(before[x.0], after[x.1], off, x);
      VerdictRefs(before[x.0], after[x.1], off, x);
      RefsConcat(d, e);
      SidesUnfold(p);
    }
  }

  lemma {:induction false} GoneRefs(at: seq<nat>)
    ensures WasRefs(DeletedRest(at)) == multiset(at) && NowRefs(DeletedRest(at)) == multiset{}
  {
    if at != [] {
      var init := at[..|at| - 1];
      GoneRefs(init);
      assert at == init + [at[|at| - 1]];
      assert DeletedRest(at)[..|at| - 1] == DeletedRest(init);
    }
  }

  lemma {:induction false} ComeRefs(at: seq<nat>)
    ensures NowRefs(AddedRest(at)) == multiset(at) && WasRefs(AddedRest(at)) == multiset{}
  {
    if at != [] {
      var init := at[..|at| - 1];
      ComeRefs(init);
      assert at == init + [at[|at| - 1]];
      assert AddedRest(at)[..|at| - 1] == AddedRest(init);
    }
  }

  lemma {:induction false} PageRefs(v: seq<ObjectDelta>, gone: seq<nat>, come: seq<nat>)
    ensures WasRefs(v + DeletedRest(gone) + AddedRest(come)) == WasRefs(v) + multiset(gone)
    ensures NowRefs(v + DeletedRest(gone) + AddedRest(come)) == NowRefs(v) + multiset(come)
  {
    GoneRefs(gone);
    ComeRefs(come);
    RefsConcat(v, DeletedRest(gone));
    RefsConcat(v + DeletedRest(gone), AddedRest(come));
  }

  // Every object of each page is accounted for by exactly one delta.
  lemma {:induction false} EveryObjectOnce(before: seq<PageObject>, after: seq<PageObject>, off: Point)
    ensures WasRefs(PageDeltas(before, after, off)) == multiset(Range(|before|))
    ensures NowRefs(PageDeltas(before, after, off)) == multiset(Range(|after|))
  {
    var m, s := Matching(before, after, off), SortedMatching(before, after, off);
    MatchingIsValid(before, after, off);
    PermutedPairs(m, s);
    VerdictsRefs(before, after, off, s);
    PageRefs(Verdicts(before, after, off, s), Others(|before|, ToSet(Firsts(m))), Others(|after|, ToSet(Seconds(m))));
    Partition(|before|, Firsts(m));
    Partition(|after|, Seconds(m));
  }

  // A delta names the sides its state says it has, and joins equal signatures.
  ghost predicate WellFormed(before: seq<PageObject>, after: seq<PageObject>, off: Point, d: ObjectDelta) {
    match d.state
    case Deleted => d.now.None? && d.was.Some?
    case Added => d.was.None? && d.now.Some?
    case _ =>
      && d.was.Some? && d.now.Some? && d.was.value < |before| && d.now.value < |after|
      && before[d.was.value].signature == after[d.now.value].signature
      && Gap(before[d.was.value], after[d.now.value], off) <= Square(RELOCATE_THRESHOLD)
      && (d.state == Unchanged <==>
            Gap(before[d.was.value], after[d.now.value], off) <= Square(MOVE_TOLERANCE)
            && before[d.was.value].style == after[d.now.value].style)
  }

  lemma {:induction false} VerdictsAreWellFormed(before: seq<PageObject>, after: seq<PageObject>, off: Point, p: Pairs)
    requires Joins(before, after, p)
    ensures forall d :: d in Verdicts(before, after, off, p) ==> WellFormed(before, after, off, d)
  {
    if p != [] {
      VerdictsAreWellFormed(before, after, off, p[..|p| - 1]);
    }
  }

  lemma {:induction false} EveryDeltaWellFormed(before: seq<PageObject>, after: seq<PageObject>, off: Point)
    ensures forall d :: d in PageDeltas(before, after, off) ==> WellFormed(before, after, off, d)
  {
    var m := Matching(before, after, off);
    VerdictsAreWellFormed(before, after, off, SortedMatching(before, after, off));
    RestIsWellFormed(before, after, off, Others(|before|, ToSet(Firsts(m))), Others(|after|, ToSet(Seconds(m))));
  }

  lemma {:induction false} RestIsWellFormed(before: seq<PageObject>, after: seq<PageObject>, off: Point, gone: seq<nat>, come: seq<nat>)
    ensures forall d :: d in DeletedRest(gone) || d in AddedRest(come) ==> WellFormed(before, after, off, d)
  {
  }

  // -------------------------------------------------------------- confidence

  // The matched objects never outnumber either page, so the score is a share.
  lemma {:induction false} ConfidenceIsAShare(before: PageParse, after: PageParse, off: Point)
    ensures 0.0 <= Confidence(before, after, |Matching(before.objects, after.objects, off)|) <= 1.0
  {
    var m := Matching(before.objects, after.objects, off);
    MatchingIsValid(before.objects, after.objects, off);
    PairingFits(m, |before.objects|, |after.objects|);
    ScoreIsAShare(|m|, |before.objects|, |after.objects|, |ToSet(before.unknownOps) + ToSet(after.unknownOps)|);
  }
}
