/** Which objects the page matcher pairs, told without its steps: a longest alignment, and
    over what is left each old object in turn with the nearest free new one. */
module PageMatching {
  import opened Wrappers
  import opened PageObjects
  import opened Indexing
  import opened Reals
  import opened PdfMatch
  import Lcs

  // Pairs of the matching that ascend on both pages and join equal signatures.
  ghost predicate Aligns(before: seq<PageObject>, after: seq<PageObject>, p: Pairs) {
    Lcs.CommonSubsequence(Signatures(before), Signatures(after), p)
  }

  lemma {:induction false} RecoveredIsNear(before: seq<PageObject>, after: seq<PageObject>, off: Point, x: (nat, nat))
    requires x in Matching(before, after, off) && x !in Aligned(before, after)
    ensures x.0 < |before| && x.1 < |after| && Gap(before[x.0], after[x.1], off) < Square(RELOCATE_THRESHOLD)
  {
    var aligned := Aligned(before, after);
    var rows, cols := LeftRows(|before|, aligned), LeftCols(|after|, aligned);
    var sub := Residual(Select(before, rows), Select(after, cols), off, |rows|);
    ResidualJoins(Select(before, rows), Select(after, cols), off, |rows|);
    var r := Lift(sub, rows, cols);
    var k :| 0 <= k < |r| && r[k] == x;
    assert sub[k] in sub;
  }

  // At or below the cap the first pairs made are a longest alignment, and the earliest of
  // those on the new page; any other pair is of objects less than an inch apart.
  lemma {:induction false} MatchingAligns(before: seq<PageObject>, after: seq<PageObject>, off: Point) returns (q: Pairs)
    requires |before| * |after| <= Lcs.CELL_CAP
    ensures q == Aligned(before, after) && q <= Matching(before, after, off) && Aligns(before, after, q)
    ensures forall p: Pairs :: Aligns(before, after, p) ==> |p| <= |q|
    ensures forall p: Pairs, k :: Aligns(before, after, p) && |p| == |q| && 0 <= k < |q| ==> q[k].1 <= p[k].1
    ensures forall x :: x in Matching(before, after, off) && x !in q ==>
              x.0 < |before| && x.1 < |after| && Gap(before[x.0], after[x.1], off) < Square(RELOCATE_THRESHOLD)
  {
    q := Aligned(before, after);
    var a, b := Signatures(before), Signatures(after);
    forall p: Pairs | Aligns(before, after, p) ensures |p| <= |q| {
      Lcs.AlignedIsLongest(a, b, p);
    }
    forall p: Pairs, k | Aligns(before, after, p) && |p| == |q| && 0 <= k < |q| ensures q[k].1 <= p[k].1 {
      Lcs.AlignedIsEarliest(a, b, p, k);
    }
    forall x | x in Matching(before, after, off) && x !in q
      ensures x.0 < |before| && x.1 < |after| && Gap(before[x.0], after[x.1], off) < Square(RELOCATE_THRESHOLD)
    {
      RecoveredIsNear(before, after, off, x);
    }
  }

  // ------------------------------------------------------------------ the residue

  // Someone before i has c.
  ghost predicate TakenEarlier(p: Pairs, i: nat, c: nat) { exists h: nat :: h < i && (h, c) in p }

  lemma {:induction false} TakenByNow(before: seq<PageObject>, after: seq<PageObject>, off: Point, k: nat, c: nat)
    requires k <= |before| && c in Seconds(Residual(before, after, off, k))
    ensures TakenEarlier(Residual(before, after, off, k), k, c)
  {
    var p := Residual(before, after, off, k);
    var m :| 0 <= m < |p| && Seconds(p)[m] == c;
    assert p[m] == (p[m].0, c) && p[m] in p;
  }

  lemma {:induction false} TakenStill(p: Pairs, q: Pairs, i: nat, c: nat)
    requires TakenEarlier(p, i, c) && p <= q
    ensures TakenEarlier(q, i, c)
  {
    var h: nat :| h < i && (h, c) in p;
    assert (h, c) in q;
  }

  // The first pairs of a residue are those of the first objects.
  lemma {:induction false} ResidualOneMore(before: seq<PageObject>, after: seq<PageObject>, off: Point, k: nat)
    requires 0 < k <= |before|
    ensures Residual(before, after, off, k - 1) <= Residual(before, after, off, k)
    ensures forall i, j :: i < k - 1 && (i, j) in Residual(before, after, off, k) ==> (i, j) in Residual(before, after, off, k - 1)
    ensures forall j :: (k - 1, j) in Residual(before, after, off, k) ==> Choice(before, after, off, k - 1) == Some(j)
  {
    ChoiceExtends(before, after, off, k - 1);
  }

  // What the last object to choose made of an object of its signature.
  lemma {:induction false} LastLook(before: seq<PageObject>, after: seq<PageObject>, off: Point, k: nat, c: nat)
    requires 0 < k <= |before| && c < |after| && after[c].signature == before[k - 1].signature
    ensures var best := Choice(before, after, off, k - 1);
            || TakenEarlier(Residual(before, after, off, k), k - 1, c)
            || (best.None? && Gap(before[k - 1], after[c], off) >= Square(RELOCATE_THRESHOLD))
            || (best.Some? && best.value < |after| && Nearer(before[k - 1], after, off, best.value, c))
  {
    var front := Residual(before, after, off, k - 1);
    if c in Seconds(front) {
      TakenByNow(before, after, off, k - 1, c);
      ResidualOneMore(before, after, off, k);
      TakenStill(front, Residual(before, after, off, k), k - 1, c);
    } else {
      NearestIsNearest(before[k - 1], after, ToSet(Seconds(front)), off, |after|, c);
    }
  }

  // No new object of its signature is nearer to one than its partner, or as near and
  // earlier, unless one before it had it.
  lemma {:induction false} ResidualIsGreedy(before: seq<PageObject>, after: seq<PageObject>, off: Point, k: nat, i: nat, j: nat, c: nat)
    requires k <= |before| && (i, j) in Residual(before, after, off, k)
    requires c < |after| && i < |before| && after[c].signature == before[i].signature
    ensures j < |after|
    ensures TakenEarlier(Residual(before, after, off, k), i, c) || Nearer(before[i], after, off, j, c)
  {
    var p := Residual(before, after, off, k);
    assert k > 0;
    ResidualOneMore(before, after, off, k);
    var front := Residual(before, after, off, k - 1);
    if i == k - 1 {
      LastLook(before, after, off, k, c);
    } else {
      InRangeFirst(p, k, |after|, i, j);
      ResidualIsGreedy(before, after, off, k - 1, i, j, c);
      if TakenEarlier(front, i, c) {
        TakenStill(front, p, i, c);
      }
    }
  }

  lemma {:induction false} InRangeFirst(p: Pairs, n: nat, m: nat, i: nat, j: nat)
    requires InRange(p, n, m) && (i, j) in p
    ensures i < n && j < m
  {
  }

  // j is no farther from o than c, and nearer if c comes first.
  predicate Nearer(o: PageObject, after: seq<PageObject>, off: Point, j: nat, c: nat)
    requires j < |after| && c < |after|
  {
    Gap(o, after[j], off) <= Gap(o, after[c], off) && (c < j ==> Gap(o, after[j], off) < Gap(o, after[c], off))
  }

  // One left without a partner saw every near object of its signature go to one before it.
  lemma {:induction false} ResidualLosesOut(before: seq<PageObject>, after: seq<PageObject>, off: Point, k: nat, i: nat, c: nat)
    requires i < k <= |before| && i !in Firsts(Residual(before, after, off, k))
    requires c < |after| && after[c].signature == before[i].signature && Gap(before[i], after[c], off) < Square(RELOCATE_THRESHOLD)
    ensures TakenEarlier(Residual(before, after, off, k), i, c)
  {
    var p, front := Residual(before, after, off, k), Residual(before, after, off, k - 1);
    ResidualOneMore(before, after, off, k);
    ResidualGrows(before, after, off, k - 1);
    if i == k - 1 {
      LastLook(before, after, off, k, c);
    } else {
      ResidualLosesOut(before, after, off, k - 1, i, c);
      TakenStill(front, p, i, c);
    }
  }

  // ---------------------------------------------------------- lifted to the matching

  ghost predicate Ascending(s: seq<nat>) { forall i, j :: 0 <= i < j < |s| ==> s[i] < s[j] }

  lemma {:induction false} LiftedTaken(sub: Pairs, rows: seq<nat>, cols: seq<nat>, i: nat, c: nat)
    requires InRange(sub, |rows|, |cols|) && Ascending(rows) && i < |rows| && c < |cols| && TakenEarlier(sub, i, c)
    ensures TakenEarlier(Lift(sub, rows, cols), rows[i], cols[c])
  {
    var h: nat :| h < i && (h, c) in sub;
    var k :| 0 <= k < |sub| && sub[k] == (h, c);
    assert Lift(sub, rows, cols)[k] == (rows[h], cols[c]);
  }

  lemma {:induction false} InLift(sub: Pairs, rows: seq<nat>, cols: seq<nat>, x: (nat, nat)) returns (si: nat, sj: nat)
    requires InRange(sub, |rows|, |cols|) && x in Lift(sub, rows, cols)
    ensures si < |rows| && sj < |cols| && rows[si] == x.0 && cols[sj] == x.1 && (si, sj) in sub
  {
    var k :| 0 <= k < |sub| && Lift(sub, rows, cols)[k] == x;
    si, sj := sub[k].0, sub[k].1;
    assert sub[k] in sub;
  }

  lemma {:induction false} TakenInMatching(before: seq<PageObject>, after: seq<PageObject>, off: Point, i: nat, c: nat)
    requires TakenEarlier(Recovered(before, after, off, Aligned(before, after)), i, c)
    ensures TakenEarlier(Matching(before, after, off), i, c)
  {
    var h: nat :| h < i && (h, c) in Recovered(before, after, off, Aligned(before, after));
    assert (h, c) in Matching(before, after, off);
  }

  ghost predicate Picks(objs: seq<PageObject>, at: seq<nat>) {
    Ascending(at) && forall k :: 0 <= k < |at| ==> at[k] < |objs|
  }

  // The residue of some of each page's objects, by their places on the pages.
  function ResidueOf(before: seq<PageObject>, after: seq<PageObject>, off: Point, rows: seq<nat>, cols: seq<nat>): Pairs
    requires Picks(before, rows) && Picks(after, cols)
  {
    Lift(Residual(Select(before, rows), Select(after, cols), off, |rows|), rows, cols)
  }

  lemma {:induction false} NearestAmong(before: seq<PageObject>, after: seq<PageObject>, off: Point, rows: seq<nat>, cols: seq<nat>, i: nat, j: nat, sc: nat)
    requires Picks(before, rows) && Picks(after, cols) && (i, j) in ResidueOf(before, after, off, rows, cols)
    requires i < |before| && j < |after| && sc < |cols| && after[cols[sc]].signature == before[i].signature
    ensures TakenEarlier(ResidueOf(before, after, off, rows, cols), i, cols[sc]) || Nearer(before[i], after, off, j, cols[sc])
  {
    var olds, news := Select(before, rows), Select(after, cols);
    var sub := Residual(olds, news, off, |rows|);
    var si, sj := InLift(sub, rows, cols, (i, j));
    ResidualIsGreedy(olds, news, off, |rows|, si, sj, sc);
    if TakenEarlier(sub, si, sc) {
      LiftedTaken(sub, rows, cols, si, sc);
    } else {
      assert Nearer(olds[si], news, off, sj, sc);
      assert cols[sc] < j ==> sc < sj;
    }
  }

  lemma {:induction false} LosesAmong(before: seq<PageObject>, after: seq<PageObject>, off: Point, rows: seq<nat>, cols: seq<nat>, si: nat, sc: nat)
    requires Picks(before, rows) && Picks(after, cols) && si < |rows| && sc < |cols|
    requires rows[si] !in Firsts(ResidueOf(before, after, off, rows, cols)) && after[cols[sc]].signature == before[rows[si]].signature
    requires Gap(before[rows[si]], after[cols[sc]], off) < Square(RELOCATE_THRESHOLD)
    ensures TakenEarlier(ResidueOf(before, after, off, rows, cols), rows[si], cols[sc])
  {
    var olds, news := Select(before, rows), Select(after, cols);
    var sub := Residual(olds, news, off, |rows|);
    LiftMissesRow(sub, rows, cols, si);
    ResidualLosesOut(olds, news, off, |rows|, si, sc);
    LiftedTaken(sub, rows, cols, si, sc);
  }

  lemma {:induction false} PlaceAmong(n: nat, taken: set<nat>, x: nat) returns (k: nat)
    requires x < n && x !in taken
    ensures k < |Others(n, taken)| && Others(n, taken)[k] == x
  {
    assert x in Others(n, taken);
    k :| 0 <= k < |Others(n, taken)| && Others(n, taken)[k] == x;
  }

  lemma {:induction false} RecoveredAmong(before: seq<PageObject>, after: seq<PageObject>, off: Point)
    ensures var aligned := Aligned(before, after); var rows, cols := LeftRows(|before|, aligned), LeftCols(|after|, aligned);
            Picks(before, rows) && Picks(after, cols) && Recovered(before, after, off, aligned) == ResidueOf(before, after, off, rows, cols)
  {
  }

  // An object paired outside the alignment has the nearest of its signature that the
  // alignment left, the first of equals, but for those that went to objects before it.
  lemma {:induction false} NearestIsTaken(before: seq<PageObject>, after: seq<PageObject>, off: Point, i: nat, j: nat, c: nat)
    requires (i, j) in Matching(before, after, off) && (i, j) !in Aligned(before, after)
    requires i < |before| && j < |after| && c < |after| && c !in Seconds(Aligned(before, after)) && after[c].signature == before[i].signature
    ensures TakenEarlier(Matching(before, after, off), i, c) || Nearer(before[i], after, off, j, c)
  {
    var aligned := Aligned(before, after);
    var rows, cols := LeftRows(|before|, aligned), LeftCols(|after|, aligned);
    RecoveredAmong(before, after, off);
    var sc := PlaceAmong(|after|, ToSet(Seconds(aligned)), c);
    NearestAmong(before, after, off, rows, cols, i, j, sc);
    if TakenEarlier(ResidueOf(before, after, off, rows, cols), i, c) {
      TakenInMatching(before, after, off, i, c);
    }
  }

  // And one left without a partner saw every object of its signature less than an inch
  // away, that the alignment left, go to one before it.
  lemma {:induction false} LosesOut(before: seq<PageObject>, after: seq<PageObject>, off: Point, i: nat, c: nat)
    requires i < |before| && i !in Firsts(Matching(before, after, off))
    requires c < |after| && c !in Seconds(Aligned(before, after)) && after[c].signature == before[i].signature
    requires Gap(before[i], after[c], off) < Square(RELOCATE_THRESHOLD)
    ensures TakenEarlier(Matching(before, after, off), i, c)
  {
    var aligned := Aligned(before, after);
    var rows, cols := LeftRows(|before|, aligned), LeftCols(|after|, aligned);
    RecoveredAmong(before, after, off);
    ConcatMembers(aligned, Recovered(before, after, off, aligned));
    var si := PlaceAmong(|before|, ToSet(Firsts(aligned)), i);
    var sc := PlaceAmong(|after|, ToSet(Seconds(aligned)), c);
    LosesAmong(before, after, off, rows, cols, si, sc);
    TakenInMatching(before, after, off, i, c);
  }
}
