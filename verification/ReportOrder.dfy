/** The order a page's deltas are reported in. */
module ReportOrder {
  import opened PageObjects
  import opened Indexing
  import opened Sorting
  import opened PdfMatch
  import opened PdfMatchTheorems

  // The old and the new positions a report names, in its order.
  function Olds(ds: seq<ObjectDelta>): seq<nat> {
    if ds == [] then [] else Olds(ds[..|ds| - 1]) + if ds[|ds| - 1].was.Some? then [ds[|ds| - 1].was.value] else []
  }

  function News(ds: seq<ObjectDelta>): seq<nat> {
    if ds == [] then [] else News(ds[..|ds| - 1]) + if ds[|ds| - 1].now.Some? then [ds[|ds| - 1].now.value] else []
  }

  lemma {:induction false} SidesConcat(d: seq<ObjectDelta>, e: seq<ObjectDelta>)
    ensures Olds(d + e) == Olds(d) + Olds(e) && News(d + e) == News(d) + News(e)
  {
    if e == [] {
      assert d + e == d;
    } else {
      assert (d + e)[..|d + e| - 1] == d + e[..|e| - 1];
      SidesConcat(d, e[..|e| - 1]);
    }
  }

  lemma {:induction false} VerdictSides(o: PageObject, n: PageObject, off: Point, x: (nat, nat))
    ensures Olds(Verdict(o, n, off, x)) == [x.0] && News(Verdict(o, n, off, x)) == [x.1]
  {
    var d := Verdict(o, n, off, x);
    if |d| == 2 {
      assert d == [d[0]] + [d[1]];
      SidesConcat([d[0]], [d[1]]);
    }
  }

  lemma {:induction false} OneMorePair(d: seq<ObjectDelta>, e: seq<ObjectDelta>, p: Pairs)
    requires p != [] && Olds(d) == Firsts(p[..|p| - 1]) && News(d) == Seconds(p[..|p| - 1])
    requires Olds(e) == [p[|p| - 1].0] && News(e) == [p[|p| - 1].1]
    ensures Olds(d + e) == Firsts(p) && News(d + e) == Seconds(p)
  {
    SidesConcat(d, e);
  }

  lemma {:induction false} VerdictsSides(before: seq<PageObject>, after: seq<PageObject>, off: Point, p: Pairs)
    requires Joins(before, after, p)
    ensures Olds(Verdicts(before, after, off, p)) == Firsts(p) && News(Verdicts(before, after, off, p)) == Seconds(p)
  {
    if p != [] {
      var init, x := p[..|p| - 1], p[|p| - 1];
      VerdictsUnfold(before, after, off, p);
      VerdictsSides(before, after, off, init);
      VerdictSides(before[x.0], after[x.1], off, x);
      OneMorePair(Verdicts(before, after, off, init), Verdict(before[x.0], after[x.1], off, x), p);
    }
  }

  lemma {:induction false} GoneSides(at: seq<nat>)
    ensures Olds(DeletedRest(at)) == at && News(DeletedRest(at)) == []
  {
    if at != [] {
      var init := at[..|at| - 1];
      GoneSides(init);
      assert at == init + [at[|at| - 1]] && DeletedRest(at)[..|at| - 1] == DeletedRest(init);
    }
  }

  lemma {:induction false} ComeSides(at: seq<nat>)
    ensures News(AddedRest(at)) == at && Olds(AddedRest(at)) == []
  {
    if at != [] {
      var init := at[..|at| - 1];
      ComeSides(init);
      assert at == init + [at[|at| - 1]] && AddedRest(at)[..|at| - 1] == AddedRest(init);
    }
  }

  lemma {:induction false} PageSides(v: seq<ObjectDelta>, gone: seq<nat>, come: seq<nat>)
    ensures Olds(v + DeletedRest(gone) + AddedRest(come)) == Olds(v) + gone
    ensures News(v + DeletedRest(gone) + AddedRest(come)) == News(v) + come
  {
    GoneSides(gone);
    ComeSides(come);
    SidesConcat(v, DeletedRest(gone));
    SidesConcat(v + DeletedRest(gone), AddedRest(come));
  }

  lemma {:induction false} LexicographicIsTotal()
    ensures TotalPreorder(Lexicographic)
  {
  }

  predicate Ascends(s: seq<nat>) { forall i, j :: 0 <= i < j < |s| ==> s[i] < s[j] }

  lemma {:induction false} SortedFirsts(p: Pairs)
    requires OneToOne(p)
    ensures Ascends(Firsts(Sort(p, Lexicographic)))
  {
    var s := Sort(p, Lexicographic);
    LexicographicIsTotal();
    SortOrders(p, Lexicographic);
    PermutedPairs(p, s);
    SameCounts(Firsts(p), Firsts(s));
    forall i, j | 0 <= i < j < |s| ensures s[i].0 < s[j].0 {
      assert Lexicographic(s[i], s[j]);
      assert Firsts(s)[i] == s[i].0 && Firsts(s)[j] == s[j].0;
    }
  }

  lemma {:induction false} SameCounts(s: seq<nat>, t: seq<nat>)
    requires multiset(s) == multiset(t) && NoDuplicates(s)
    ensures NoDuplicates(t)
  {
    forall i, j | 0 <= i < j < |t| ensures t[i] != t[j] {
      if t[i] == t[j] {
        TwoPositions(t, i, j);
        CountInDistinct(s, t[i]);
      }
    }
  }

  // The matched objects come first, by their places on the old page, each beside its
  // partner; then what was only on the old page, and what is only on the new one, each in
  // draw order.
  lemma {:induction false} ReportedInOrder(before: seq<PageObject>, after: seq<PageObject>, off: Point)
    ensures var ds, m := PageDeltas(before, after, off), Matching(before, after, off);
            var olds, news, k := Olds(ds), News(ds), |m|;
            && k <= |olds| && k <= |news| && (forall i :: 0 <= i < k ==> (olds[i], news[i]) in m)
            && Ascends(olds[..k]) && Ascends(olds[k..]) && Ascends(news[k..])
  {
    var m, s := Matching(before, after, off), SortedMatching(before, after, off);
    var gone, come := Others(|before|, ToSet(Firsts(m))), Others(|after|, ToSet(Seconds(m)));
    MatchingIsValid(before, after, off);
    SameElements(m, Lexicographic);
    SortedFirsts(m);
    VerdictsSides(before, after, off, s);
    PageSides(Verdicts(before, after, off, s), gone, come);
    forall i | 0 <= i < |s| ensures (Firsts(s)[i], Seconds(s)[i]) in m {
      SortedElement(m, Lexicographic, i);
    }
  }
}
