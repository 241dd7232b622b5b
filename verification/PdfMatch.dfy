/** The page matcher: a majority vote on the whole-page offset, an alignment over
    draw order, a nearest-neighbour pass over what is left, and a verdict for every
    object. Distances are compared squared. */
module PdfMatch {
  import opened Wrappers
  import opened PageObjects
  import opened Indexing
  import opened Rounding
  import opened Reals
  import opened Scoring
  import opened Sorting
  import opened Vocabulary
  import Lcs

  const VOTE_GRID := 1.0
  const MOVE_TOLERANCE := 0.75
  const RELOCATE_THRESHOLD := 72.0

  // Why an object is not simply unchanged; `NoReason` is the empty one.
  datatype Reason = NoReason | Relocated | Differs(moved: bool, style: bool)

  // A delta holds its objects by reference; a reference is the object's position in
  // the page it came from.
  datatype ObjectDelta = ObjectDelta(state: DiffState, was: Option<nat>, now: Option<nat>, reason: Reason)

  datatype PageDelta = PageDelta(deltas: seq<ObjectDelta>, offset: Point, matched: nat, total: nat, confidence: real)

  // Squared distance from `o`, carried along by `off`, to `n`.
  function Gap(o: PageObject, n: PageObject, off: Point): real {
    Square(n.pos.x - (o.pos.x + off.x)) + Square(n.pos.y - (o.pos.y + off.y))
  }

  // ------------------------------------------------------------- alignment

  function Occurrences(objs: seq<PageObject>, sig: Signature): nat {
    multiset(Signatures(objs))[sig]
  }

  function VoteCell(o: PageObject, n: PageObject): Point {
    Point(Snap(n.pos.x - o.pos.x, VOTE_GRID), Snap(n.pos.y - o.pos.y, VOTE_GRID))
  }

  // Position of the first object with this signature.
  function Find(objs: seq<PageObject>, sig: Signature): (j: nat)
    requires sig in Signatures(objs)
    ensures j < |objs| && objs[j].signature == sig
    ensures forall k :: 0 <= k < j ==> objs[k].signature != sig
  {
    if objs[0].signature == sig then 0
    else
      assert Signatures(objs)[1..] == Signatures(objs[1..]);
      1 + Find(objs[1..], sig)
  }

  predicate Votes(before: seq<PageObject>, after: seq<PageObject>, i: nat)
    requires i < |before|
  {
    Occurrences(before, before[i].signature) == 1 && Occurrences(after, before[i].signature) == 1
  }

  // One vote per signature that occurs once on each side, in draw order.
  function VoteList(before: seq<PageObject>, after: seq<PageObject>, k: nat): seq<Point>
    requires k <= |before|
  {
    if k == 0 then []
    else
      VoteList(before, after, k - 1) +
      if Votes(before, after, k - 1) then [VoteCell(before[k - 1], after[Find(after, before[k - 1].signature)])] else []
  }

  // The only offset the vote may settle on: the strict majority, or zero without one.
  ghost predicate Dominant(votes: seq<Point>, off: Point) {
    || 2 * multiset(votes)[off] > |votes|
    || (off == ORIGIN && forall v :: 2 * multiset(votes)[v] <= |votes|)
  }

  // Two different cells cannot both hold more than half of the votes.
  lemma {:induction false} TwoCells(votes: seq<Point>, v: Point, w: Point)
    requires v != w
    ensures multiset(votes)[v] + multiset(votes)[w] <= |votes|
  {
    if votes != [] {
      assert votes == [votes[0]] + votes[1..];
      TwoCells(votes[1..], v, w);
    }
  }

  lemma {:induction false} DominantIsUnique(votes: seq<Point>, v: Point, w: Point)
    requires Dominant(votes, v) && Dominant(votes, w)
    ensures v == w
  {
    if v != w {
      TwoCells(votes, v, w);
    }
  }

  // A cell with more than half of the votes wins; without one the page is not moved.
  lemma {:induction false} MajorityWins(votes: seq<Point>, off: Point)
    requires Dominant(votes, off)
    ensures forall v :: 2 * multiset(votes)[v] > |votes| ==> off == v
    ensures off != ORIGIN ==> 2 * multiset(votes)[off] > |votes|
  {
    forall v | 2 * multiset(votes)[v] > |votes| ensures off == v {
      DominantIsUnique(votes, v, off);
    }
  }

  function Group(objs: seq<PageObject>, sig: Signature): seq<PageObject> {
    if objs == [] then []
    else
      var rest := Group(objs[..|objs| - 1], sig);
      if objs[|objs| - 1].signature == sig then rest + [objs[|objs| - 1]] else rest
  }

  lemma {:induction false} GroupCounts(objs: seq<PageObject>, sig: Signature)
    ensures |Group(objs, sig)| == Occurrences(objs, sig)
    ensures forall o :: o in Group(objs, sig) ==> o in objs && o.signature == sig
  {
    if objs != [] {
      GroupCounts(objs[..|objs| - 1], sig);
      LastOccurrence(objs, sig);
    }
  }

  lemma {:induction false} LastOccurrence(objs: seq<PageObject>, sig: Signature)
    requires objs != []
    ensures Occurrences(objs, sig)
            == Occurrences(objs[..|objs| - 1], sig) + if objs[|objs| - 1].signature == sig then 1 else 0
  {
    assert Signatures(objs) == Signatures(objs[..|objs| - 1]) + [objs[|objs| - 1].signature];
  }

  // A signature that occurs once is where `Find` finds it, and nowhere else.
  lemma {:induction false} SingleOccurrence(objs: seq<PageObject>, sig: Signature, j: nat)
    requires Occurrences(objs, sig) == 1
    requires j < |objs| && objs[j].signature == sig
    ensures sig in Signatures(objs) && Find(objs, sig) == j
  {
    var s := Signatures(objs);
    assert s[j] == sig;
    if Find(objs, sig) != j {
      TwoPositions(s, Find(objs, sig), j);
    }
  }

  lemma {:induction false} DistinctOccurrence(objs: seq<PageObject>, sig: Signature)
    requires NoDuplicates(Signatures(objs))
    ensures Occurrences(objs, sig) == if sig in Signatures(objs) then 1 else 0
  {
    CountInDistinct(Signatures(objs), sig);
  }

  method GroupBySignature(objs: seq<PageObject>) returns (groups: map<Signature, seq<PageObject>>)
    ensures groups.Keys == ToSet(Signatures(objs))
    ensures forall sig :: sig in groups ==> groups[sig] == Group(objs, sig)
  {
    groups := map[];
    for i := 0 to |objs|
      invariant groups.Keys == ToSet(Signatures(objs[..i]))
      invariant forall sig :: sig in groups ==> groups[sig] == Group(objs[..i], sig)
      invariant forall sig :: sig !in groups ==> Group(objs[..i], sig) == []
    {
      var sig := objs[i].signature;
      assert objs[..i + 1][..i] == objs[..i];
      assert Signatures(objs[..i + 1]) == Signatures(objs[..i]) + [sig];
      groups := groups[sig := (if sig in groups then groups[sig] else []) + [objs[i]]];
    }
    assert objs[..|objs|] == objs;
  }

  // The cell with the most votes, the first to be seen on a tie.
  method MostCommon(cells: seq<Point>) returns (top: Point)
    requires cells != []
    ensures forall v :: multiset(cells)[v] <= multiset(cells)[top]
  {
    var votes := multiset(cells);
    top := cells[0];
    for i := 1 to |cells|
      invariant forall k :: 0 <= k < i ==> votes[cells[k]] <= votes[top]
    {
      if votes[cells[i]] > votes[top] {
        top := cells[i];
      }
    }
    forall v ensures votes[v] <= votes[top] {
      if v in votes {
        assert v in cells;
      }
    }
  }

  // The only members of two one-member groups are the objects the vote is taken from.
  lemma {:induction false} GroupVote(before: seq<PageObject>, after: seq<PageObject>, i: nat)
    requires i < |before|
    ensures Votes(before, after, i) <==>
              |Group(before, before[i].signature)| == 1 && |Group(after, before[i].signature)| == 1
    ensures Votes(before, after, i) ==>
              && before[i].signature in Signatures(after)
              && Group(before, before[i].signature)[0] == before[i]
              && Group(after, before[i].signature)[0] == after[Find(after, before[i].signature)]
  {
    var sig := before[i].signature;
    GroupCounts(before, sig);
    GroupCounts(after, sig);
    if Votes(before, after, i) {
      SingleMember(before, sig, i);
      assert sig in multiset(Signatures(after));
      SingleMember(after, sig, Find(after, sig));
    }
  }

  lemma {:induction false} SingleMember(objs: seq<PageObject>, sig: Signature, i: nat)
    requires i < |objs| && objs[i].signature == sig && Occurrences(objs, sig) == 1
    ensures |Group(objs, sig)| == 1 && Group(objs, sig)[0] == objs[i]
  {
    GroupCounts(objs, sig);
    var o := Group(objs, sig)[0];
    assert o in Group(objs, sig);
    var k :| 0 <= k < |objs| && objs[k] == o;
    SingleOccurrence(objs, sig, k);
    SingleOccurrence(objs, sig, i);
  }

  lemma {:induction false} NextVote(before: seq<PageObject>, after: seq<PageObject>, i: nat)
    requires i < |before|
    ensures var mine, theirs := Group(before, before[i].signature), Group(after, before[i].signature);
            VoteList(before, after, i + 1)
            == VoteList(before, after, i) + if |mine| == 1 && |theirs| == 1 then [VoteCell(mine[0], theirs[0])] else []
  {
    GroupVote(before, after, i);
  }

  method CollectVotes(before: seq<PageObject>, after: seq<PageObject>) returns (votes: seq<Point>)
    ensures votes == VoteList(before, after, |before|)
  {
    var beforeBySig := GroupBySignature(before);
    var afterBySig := GroupBySignature(after);
    votes := [];
    for i := 0 to |before|
      invariant votes == VoteList(before, after, i)
    {
      var sig := before[i].signature;
      NextVote(before, after, i);
      assert Signatures(before)[i] == sig;
      if sig in afterBySig && |beforeBySig[sig]| == 1 && |afterBySig[sig]| == 1 {
        votes := votes + [VoteCell(beforeBySig[sig][0], afterBySig[sig][0])];
      }
    }
  }

  method DominantOffset(before: seq<PageObject>, after: seq<PageObject>) returns (off: Point)
    ensures Dominant(VoteList(before, after, |before|), off)
  {
    var votes := CollectVotes(before, after);
    if votes == [] {
      return ORIGIN;
    }
    var top := MostCommon(votes);
    if multiset(votes)[top] * 2 <= |votes| {
      return ORIGIN;
    }
    return top;
  }

  // -------------------------------------------------------------- residual

  // The nearest unclaimed object of the same signature among after[..m], strictly
  // inside the relocation threshold; the first of equals.
  function Nearest(o: PageObject, after: seq<PageObject>, used: set<nat>, off: Point, m: nat): (best: Option<nat>)
    requires m <= |after|
    ensures best.Some? ==> best.value < m && best.value !in used && after[best.value].signature == o.signature
  {
    if m == 0 then None
    else
      var best := Nearest(o, after, used, off, m - 1);
      var limit := if best.Some? then Gap(o, after[best.value], off) else Square(RELOCATE_THRESHOLD);
      if m - 1 !in used && after[m - 1].signature == o.signature && Gap(o, after[m - 1], off) < limit then Some(m - 1)
      else best
  }

  // The choice is inside the threshold, no candidate is nearer, an earlier one is
  // strictly farther; and no choice means no candidate inside the threshold.
  lemma {:induction false} NearestIsNearest(o: PageObject, after: seq<PageObject>, used: set<nat>, off: Point, m: nat, j: nat)
    requires j < m <= |after|
    requires j !in used && after[j].signature == o.signature
    ensures var best := Nearest(o, after, used, off, m);
            && (best.None? ==> Gap(o, after[j], off) >= Square(RELOCATE_THRESHOLD))
            && (best.Some? ==> Gap(o, after[best.value], off) <= Gap(o, after[j], off))
            && (best.Some? && j < best.value ==> Gap(o, after[best.value], off) < Gap(o, after[j], off))
  {
    var best, prior := Nearest(o, after, used, off, m), Nearest(o, after, used, off, m - 1);
    NearestIsInside(o, after, used, off, m);
    NearestIsInside(o, after, used, off, m - 1);
    if j < m - 1 {
      NearestIsNearest(o, after, used, off, m - 1, j);
    }
  }

  lemma {:induction false} NearestIsInside(o: PageObject, after: seq<PageObject>, used: set<nat>, off: Point, m: nat)
    requires m <= |after|
    ensures var best := Nearest(o, after, used, off, m);
            best.Some? ==> Gap(o, after[best.value], off) < Square(RELOCATE_THRESHOLD)
  {
    if m > 0 {
      NearestIsInside(o, after, used, off, m - 1);
    }
  }

  // The pairs chosen by the first k objects, each taking its nearest in turn.
  function Residual(before: seq<PageObject>, after: seq<PageObject>, off: Point, k: nat): (p: Pairs)
    requires k <= |before|
    ensures InRange(p, k, |after|) && OneToOne(p)
  {
    if k == 0 then []
    else
      var p := Residual(before, after, off, k - 1);
      var used := ToSet(Seconds(p));
      match Nearest(before[k - 1], after, used, off, |after|)
      case None => p
      case Some(j) =>
        ConcatIsOneToOne(p, [(k - 1, j)]);
        p + [(k - 1, j)]
  }

  // Every pair is in range and joins equal signatures.
  ghost predicate Joins(before: seq<PageObject>, after: seq<PageObject>, p: Pairs) {
    forall k :: 0 <= k < |p| ==>
      p[k].0 < |before| && p[k].1 < |after| && before[p[k].0].signature == after[p[k].1].signature
  }

  // Every residual pair joins equal signatures closer than the threshold.
  lemma {:induction false} ResidualJoins(before: seq<PageObject>, after: seq<PageObject>, off: Point, k: nat)
    requires k <= |before|
    ensures Joins(before, after, Residual(before, after, off, k))
    ensures forall x :: x in Residual(before, after, off, k) ==>
              (x.0 < |before| && x.1 < |after| && Gap(before[x.0], after[x.1], off) < Square(RELOCATE_THRESHOLD))
  {
    if k > 0 {
      ResidualJoins(before, after, off, k - 1);
      NearestIsInside(before[k - 1], after, ToSet(Seconds(Residual(before, after, off, k - 1))), off, |after|);
    }
  }

  // What the k-th object adds to the pairs chosen before it.
  function Choice(before: seq<PageObject>, after: seq<PageObject>, off: Point, k: nat): Option<nat>
    requires k < |before|
  {
    Nearest(before[k], after, ToSet(Seconds(Residual(before, after, off, k))), off, |after|)
  }

  lemma {:induction false} ChoiceExtends(before: seq<PageObject>, after: seq<PageObject>, off: Point, k: nat)
    requires k < |before|
    ensures var p, c := Residual(before, after, off, k), Choice(before, after, off, k);
            Residual(before, after, off, k + 1) == if c.Some? then p + [(k, c.value)] else p
  {
  }

  // Nothing of the same signature is left on both sides inside the threshold.
  lemma {:induction false} ResidualLeavesNothingNear(before: seq<PageObject>, after: seq<PageObject>, off: Point, k: nat, i: nat, j: nat)
    requires i < k <= |before| && j < |after|
    requires i !in Firsts(Residual(before, after, off, k)) && j !in Seconds(Residual(before, after, off, k))
    requires before[i].signature == after[j].signature
    ensures Gap(before[i], after[j], off) >= Square(RELOCATE_THRESHOLD)
  {
    ResidualGrows(before, after, off, k - 1);
    if i < k - 1 {
      ResidualLeavesNothingNear(before, after, off, k - 1, i, j);
    } else {
      assert Choice(before, after, off, i).None?;
      NearestIsNearest(before[i], after, ToSet(Seconds(Residual(before, after, off, i))), off, |after|, j);
    }
  }

  // A pair once chosen stays, and an object that chose is in a pair.
  lemma {:induction false} ResidualGrows(before: seq<PageObject>, after: seq<PageObject>, off: Point, k: nat)
    requires k < |before|
    ensures forall x :: x in Firsts(Residual(before, after, off, k)) ==> x in Firsts(Residual(before, after, off, k + 1))
    ensures forall x :: x in Seconds(Residual(before, after, off, k)) ==> x in Seconds(Residual(before, after, off, k + 1))
    ensures Choice(before, after, off, k).Some? ==> k in Firsts(Residual(before, after, off, k + 1))
  {
    var p, q, c := Residual(before, after, off, k), Residual(before, after, off, k + 1), Choice(before, after, off, k);
    ChoiceExtends(before, after, off, k);
    assert p <= q;
    PrefixMembers(p, q);
    if c.Some? {
      PairPositions(q, |p|);
    }
  }

  method NearestUnused(o: PageObject, after: seq<PageObject>, used: set<nat>, off: Point) returns (best: Option<nat>)
    ensures best == Nearest(o, after, used, off, |after|)
  {
    best := None;
    var limit := Square(RELOCATE_THRESHOLD);
    for j := 0 to |after|
      invariant best == Nearest(o, after, used, off, j)
      invariant limit == if best.Some? then Gap(o, after[best.value], off) else Square(RELOCATE_THRESHOLD)
    {
      if j in used || after[j].signature != o.signature {
        continue;
      }
      var d := Gap(o, after[j], off);
      if d < limit {
        best, limit := Some(j), d;
      }
    }
  }

  method GreedyResidual(before: seq<PageObject>, after: seq<PageObject>, off: Point) returns (pairs: Pairs)
    ensures pairs == Residual(before, after, off, |before|)
  {
    pairs := [];
    var used: set<nat> := {};
    for i := 0 to |before|
      invariant pairs == Residual(before, after, off, i)
      invariant used == ToSet(Seconds(pairs))
    {
      var best := NearestUnused(before[i], after, used, off);
      if best.Some? {
        assert Seconds(pairs + [(i, best.value)]) == Seconds(pairs) + [best.value];
        pairs := pairs + [(i, best.value)];
        used := used + {best.value};
      }
    }
  }

  // ------------------------------------------------------------- the pairing

  function Select(objs: seq<PageObject>, at: seq<nat>): (r: seq<PageObject>)
    requires forall k :: 0 <= k < |at| ==> at[k] < |objs|
    ensures |r| == |at| && forall k :: 0 <= k < |at| ==> r[k] == objs[at[k]]
  {
    seq(|at|, k requires 0 <= k < |at| => objs[at[k]])
  }

  // What the alignment leaves unpaired on each side.
  function LeftRows(n: nat, aligned: Pairs): (r: seq<nat>)
    ensures forall k :: 0 <= k < |r| ==> r[k] < n
  {
    Others(n, ToSet(Firsts(aligned)))
  }

  function LeftCols(m: nat, aligned: Pairs): (r: seq<nat>)
    ensures forall k :: 0 <= k < |r| ==> r[k] < m
  {
    Others(m, ToSet(Seconds(aligned)))
  }

  // The pairs recovered by distance among the alignment's leftovers.
  function Recovered(before: seq<PageObject>, after: seq<PageObject>, off: Point, aligned: Pairs): Pairs {
    var rows, cols := LeftRows(|before|, aligned), LeftCols(|after|, aligned);
    Lift(Residual(Select(before, rows), Select(after, cols), off, |rows|), rows, cols)
  }

  function Aligned(before: seq<PageObject>, after: seq<PageObject>): Pairs {
    Lcs.Aligned(Signatures(before), Signatures(after))
  }

  function Matching(before: seq<PageObject>, after: seq<PageObject>, off: Point): Pairs {
    Aligned(before, after) + Recovered(before, after, off, Aligned(before, after))
  }

  lemma {:induction false} AlignedIsValid(before: seq<PageObject>, after: seq<PageObject>)
    ensures Joins(before, after, Aligned(before, after)) && OneToOne(Aligned(before, after))
  {
    Lcs.AlignedIsValid(Signatures(before), Signatures(after));
  }

  lemma {:induction false} RecoveredIsValid(before: seq<PageObject>, after: seq<PageObject>, off: Point, aligned: Pairs)
    ensures Joins(before, after, Recovered(before, after, off, aligned)) && OneToOne(Recovered(before, after, off, aligned))
    ensures forall x :: x in Firsts(Recovered(before, after, off, aligned)) ==> x in LeftRows(|before|, aligned)
    ensures forall x :: x in Seconds(Recovered(before, after, off, aligned)) ==> x in LeftCols(|after|, aligned)
  {
    var rows, cols := LeftRows(|before|, aligned), LeftCols(|after|, aligned);
    var sub := Residual(Select(before, rows), Select(after, cols), off, |rows|);
    ResidualJoins(Select(before, rows), Select(after, cols), off, |rows|);
    LiftIsOneToOne(sub, rows, cols);
  }

  lemma {:induction false} MatchingIsValid(before: seq<PageObject>, after: seq<PageObject>, off: Point)
    ensures Joins(before, after, Matching(before, after, off)) && OneToOne(Matching(before, after, off))
  {
    var aligned := Aligned(before, after);
    AlignedIsValid(before, after);
    RecoveredIsValid(before, after, off, aligned);
    ConcatIsOneToOne(aligned, Recovered(before, after, off, aligned));
  }

  // Two objects of one signature both left unmatched are at least the relocation
  // threshold apart once the page offset is cancelled.
  lemma {:induction false} UnmatchedAreFarApart(before: seq<PageObject>, after: seq<PageObject>, off: Point, i: nat, j: nat)
    requires i < |before| && j < |after| && before[i].signature == after[j].signature
    requires i !in Firsts(Matching(before, after, off)) && j !in Seconds(Matching(before, after, off))
    ensures Gap(before[i], after[j], off) >= Square(RELOCATE_THRESHOLD)
  {
    var aligned := Aligned(before, after);
    var rows, cols := LeftRows(|before|, aligned), LeftCols(|after|, aligned);
    ConcatMembers(aligned, Recovered(before, after, off, aligned));
    assert i in rows && j in cols;
    var si :| 0 <= si < |rows| && rows[si] == i;
    var sj :| 0 <= sj < |cols| && cols[sj] == j;
    var sub := Residual(Select(before, rows), Select(after, cols), off, |rows|);
    LiftMissesRow(sub, rows, cols, si);
    LiftMissesColumn(sub, rows, cols, sj);
    ResidualLeavesNothingNear(Select(before, rows), Select(after, cols), off, |rows|, si, sj);
  }

  // --------------------------------------------------------------- verdicts

  function Classify(o: PageObject, n: PageObject, off: Point): (DiffState, Reason) {
    var moved := Gap(o, n, off);
    if moved > Square(RELOCATE_THRESHOLD) then (Modified, Relocated)
    else if moved > Square(MOVE_TOLERANCE) || o.style != n.style then
      (Modified, Differs(moved > Square(MOVE_TOLERANCE), o.style != n.style))
    else (Unchanged, NoReason)
  }

  // One matched pair: a single two-sided delta, or a delete plus an add.
  function Verdict(o: PageObject, n: PageObject, off: Point, x: (nat, nat)): seq<ObjectDelta> {
    var (state, reason) := Classify(o, n, off);
    if reason == Relocated then
      [ObjectDelta(Deleted, Some(x.0), None, Relocated), ObjectDelta(Added, None, Some(x.1), Relocated)]
    else [ObjectDelta(state, Some(x.0), Some(x.1), reason)]
  }

  function Verdicts(before: seq<PageObject>, after: seq<PageObject>, off: Point, p: Pairs): seq<ObjectDelta>
    requires Joins(before, after, p)
  {
    if p == [] then []
    else
      var x := p[|p| - 1];
      Verdicts(before, after, off, p[..|p| - 1]) + Verdict(before[x.0], after[x.1], off, x)
  }

  function DeletedRest(at: seq<nat>): (d: seq<ObjectDelta>)
    ensures |d| == |at| && forall k :: 0 <= k < |d| ==> d[k] == ObjectDelta(Deleted, Some(at[k]), None, NoReason)
  {
    seq(|at|, k requires 0 <= k < |at| => ObjectDelta(Deleted, Some(at[k]), None, NoReason))
  }

  function AddedRest(at: seq<nat>): (d: seq<ObjectDelta>)
    ensures |d| == |at| && forall k :: 0 <= k < |d| ==> d[k] == ObjectDelta(Added, None, Some(at[k]), NoReason)
  {
    seq(|at|, k requires 0 <= k < |at| => ObjectDelta(Added, None, Some(at[k]), NoReason))
  }

  lemma {:induction false} SortKeepsPairing(before: seq<PageObject>, after: seq<PageObject>, p: Pairs)
    requires Joins(before, after, p)
    ensures Joins(before, after, Sort(p, Lexicographic))
  {
    var s := Sort(p, Lexicographic);
    forall k | 0 <= k < |s|
      ensures s[k].0 < |before| && s[k].1 < |after| && before[s[k].0].signature == after[s[k].1].signature
    {
      SortedElement(p, Lexicographic, k);
      var l :| 0 <= l < |p| && p[l] == s[k];
    }
  }

  function SortedMatching(before: seq<PageObject>, after: seq<PageObject>, off: Point): (p: Pairs)
    ensures Joins(before, after, p)
  {
    MatchingIsValid(before, after, off);
    SortKeepsPairing(before, after, Matching(before, after, off));
    Sort(Matching(before, after, off), Lexicographic)
  }

  function PageDeltas(before: seq<PageObject>, after: seq<PageObject>, off: Point): seq<ObjectDelta> {
    var m := Matching(before, after, off);
    Verdicts(before, after, off, SortedMatching(before, after, off))
    + DeletedRest(Others(|before|, ToSet(Firsts(m))))
    + AddedRest(Others(|after|, ToSet(Seconds(m))))
  }

  // ------------------------------------------------------------- confidence

  function Confidence(before: PageParse, after: PageParse, matched: nat): real {
    Score(matched, |before.objects|, |after.objects|, |ToSet(before.unknownOps) + ToSet(after.unknownOps)|)
  }

  // ------------------------------------------------------------ the matcher

  // Appends, for each position below n that is not taken, its one-sided delta.
  method Unmatched(n: nat, taken: set<nat>, state: DiffState) returns (d: seq<ObjectDelta>)
    requires state == Deleted || state == Added
    ensures d == if state == Deleted then DeletedRest(Others(n, taken)) else AddedRest(Others(n, taken))
  {
    d := [];
    for i := 0 to n
      invariant d == if state == Deleted then DeletedRest(Others(i, taken)) else AddedRest(Others(i, taken))
    {
      if i !in taken {
        d := d + [if state == Deleted then ObjectDelta(Deleted, Some(i), None, NoReason)
                  else ObjectDelta(Added, None, Some(i), NoReason)];
      }
    }
  }

  method LeftOver(n: nat, taken: set<nat>) returns (rest: seq<nat>)
    ensures rest == Others(n, taken)
  {
    rest := [];
    for i := 0 to n
      invariant rest == Others(i, taken)
    {
      if i !in taken {
        rest := rest + [i];
      }
    }
  }

  // Adds the recovered pairs, read back to page positions, one by one.
  method AddRecovered(lcs: Pairs, sub: Pairs, rows: seq<nat>, cols: seq<nat>)
    returns (pairs: Pairs, matchedBefore: set<nat>, matchedAfter: set<nat>)
    requires InRange(sub, |rows|, |cols|)
    ensures pairs == lcs + Lift(sub, rows, cols)
    ensures matchedBefore == ToSet(Firsts(pairs)) && matchedAfter == ToSet(Seconds(pairs))
  {
    pairs, matchedBefore, matchedAfter := lcs, ToSet(Firsts(lcs)), ToSet(Seconds(lcs));
    for k := 0 to |sub|
      invariant pairs == lcs + Lift(sub, rows, cols)[..k]
      invariant matchedBefore == ToSet(Firsts(pairs)) && matchedAfter == ToSet(Seconds(pairs))
    {
      var x := (rows[sub[k].0], cols[sub[k].1]);
      assert Firsts(pairs + [x]) == Firsts(pairs) + [x.0] && Seconds(pairs + [x]) == Seconds(pairs) + [x.1];
      pairs := pairs + [x];
      matchedBefore, matchedAfter := matchedBefore + {x.0}, matchedAfter + {x.1};
    }
  }

  method Pair(before: seq<PageObject>, after: seq<PageObject>, off: Point)
    returns (pairs: Pairs, matchedBefore: set<nat>, matchedAfter: set<nat>)
    ensures pairs == Matching(before, after, off)
    ensures matchedBefore == ToSet(Firsts(pairs)) && matchedAfter == ToSet(Seconds(pairs))
  {
    pairs := Lcs.LcsPairs(Signatures(before), Signatures(after));
    matchedBefore, matchedAfter := ToSet(Firsts(pairs)), ToSet(Seconds(pairs));
    var rows := LeftOver(|before|, matchedBefore);
    var cols := LeftOver(|after|, matchedAfter);
    assert rows == LeftRows(|before|, pairs) && cols == LeftCols(|after|, pairs);
    if rows != [] && cols != [] {
      var sub := GreedyResidual(Select(before, rows), Select(after, cols), off);
      pairs, matchedBefore, matchedAfter := AddRecovered(pairs, sub, rows, cols);
    } else {
      NothingToRecover(before, after, off, pairs);
    }
  }

  lemma {:induction false} ResidualWithoutCandidates(before: seq<PageObject>, off: Point, k: nat)
    requires k <= |before|
    ensures Residual(before, [], off, k) == []
  {
    if k > 0 {
      ResidualWithoutCandidates(before, off, k - 1);
    }
  }

  lemma {:induction false} NothingToRecover(before: seq<PageObject>, after: seq<PageObject>, off: Point, aligned: Pairs)
    requires LeftRows(|before|, aligned) == [] || LeftCols(|after|, aligned) == []
    ensures Recovered(before, after, off, aligned) == []
  {
    var rows, cols := LeftRows(|before|, aligned), LeftCols(|after|, aligned);
    if cols == [] {
      assert Select(after, cols) == [];
      ResidualWithoutCandidates(Select(before, rows), off, |rows|);
    }
  }

  method Judge(before: seq<PageObject>, after: seq<PageObject>, off: Point, pairs: Pairs) returns (deltas: seq<ObjectDelta>)
    requires Joins(before, after, pairs)
    ensures deltas == Verdicts(before, after, off, pairs)
  {
    deltas := [];
    for k := 0 to |pairs|
      invariant deltas == Verdicts(before, after, off, pairs[..k])
    {
      var (i, j) := pairs[k];
      var (state, reason) := Classify(before[i], after[j], off);
      assert pairs[..k + 1][..k] == pairs[..k];
      if reason == Relocated {
        deltas := deltas + [ObjectDelta(Deleted, Some(i), None, Relocated), ObjectDelta(Added, None, Some(j), Relocated)];
      } else {
        deltas := deltas + [ObjectDelta(state, Some(i), Some(j), reason)];
      }
    }
    assert pairs[..|pairs|] == pairs;
  }

  lemma {:induction false} EmptyPages()
    ensures Matching([], [], ORIGIN) == [] && PageDeltas([], [], ORIGIN) == []
  {
    assert Aligned([], []) == [];
    NothingToRecover([], [], ORIGIN, []);
  }

  method MatchPage(before: PageParse, after: PageParse) returns (delta: PageDelta)
    ensures Dominant(VoteList(before.objects, after.objects, |before.objects|), delta.offset)
    ensures delta.deltas == PageDeltas(before.objects, after.objects, delta.offset)
    ensures delta.matched == |Matching(before.objects, after.objects, delta.offset)|
    ensures delta.total == Lcs.Max(|before.objects|, |after.objects|)
    ensures delta.confidence == Confidence(before, after, delta.matched)
  {
    var olds, news := before.objects, after.objects;
    if olds == [] && news == [] {
      EmptyPages();
      return PageDelta([], ORIGIN, 0, 0, 1.0);
    }
    var off := DominantOffset(olds, news);
    var pairs, matchedOld, matchedNew := Pair(olds, news, off);
    MatchingIsValid(olds, news, off);
    var deltas := Judge(olds, news, off, SortedMatching(olds, news, off));
    var deleted := Unmatched(|olds|, matchedOld, Deleted);
    var added := Unmatched(|news|, matchedNew, Added);
    DistinctSetSize(Firsts(pairs));
    delta := PageDelta(deltas + deleted + added, off, |matchedOld|, Lcs.Max(|olds|, |news|),
                       Confidence(before, after, |matchedOld|));
  }
}
