/** The longest-common-subsequence aligner (`_lcs_pairs`), used over draw order for
    the objects of a page and over fingerprints for the pages of a document. */
module Lcs {
  import opened Indexing

  // Above this many table cells the aligner refuses and pairs nothing.
  const CELL_CAP := 4_000_000

  function Max(x: nat, y: nat): nat { if x >= y then x else y }

  // The value of table cell (i, j): the length recorded for a[i..] against b[j..].
  function Cell<T(==)>(a: seq<T>, b: seq<T>, i: nat, j: nat): nat
    requires i <= |a| && j <= |b|
    decreases |a| - i + |b| - j
  {
    if i == |a| || j == |b| then 0
    else if a[i] == b[j] then Cell(a, b, i + 1, j + 1) + 1
    else Max(Cell(a, b, i + 1, j), Cell(a, b, i, j + 1))
  }

  // `p` pairs equal items and increases strictly in both coordinates.
  ghost predicate CommonSubsequence<T>(a: seq<T>, b: seq<T>, p: Pairs) {
    && (forall k :: 0 <= k < |p| ==> p[k].0 < |a| && p[k].1 < |b| && a[p[k].0] == b[p[k].1])
    && (forall k, l :: 0 <= k < l < |p| ==> p[k].0 < p[l].0 && p[k].1 < p[l].1)
  }

  ghost predicate StartsAt(p: Pairs, i: nat, j: nat) {
    |p| > 0 ==> i <= p[0].0 && j <= p[0].1
  }

  // Reading the table forward from (i, j).
  function Walk<T(==)>(a: seq<T>, b: seq<T>, i: nat, j: nat): (p: Pairs)
    requires i <= |a| && j <= |b|
    ensures CommonSubsequence(a, b, p) && StartsAt(p, i, j)
    ensures |p| == Cell(a, b, i, j)
    decreases |a| - i + |b| - j
  {
    if i == |a| || j == |b| then []
    else if a[i] == b[j] then
      var rest := Walk(a, b, i + 1, j + 1);
      [(i, j)] + rest
    else if Cell(a, b, i + 1, j) >= Cell(a, b, i, j + 1) then Walk(a, b, i + 1, j)
    else Walk(a, b, i, j + 1)
  }

  // One step down a row or along a column loses at most one pair.
  lemma {:induction false} CellStep<T>(a: seq<T>, b: seq<T>, i: nat, j: nat)
    requires i <= |a| && j <= |b|
    ensures i < |a| ==> Cell(a, b, i + 1, j) <= Cell(a, b, i, j) <= Cell(a, b, i + 1, j) + 1
    ensures j < |b| ==> Cell(a, b, i, j + 1) <= Cell(a, b, i, j) <= Cell(a, b, i, j + 1) + 1
    decreases |a| - i + |b| - j
  {
    if i < |a| && j < |b| {
      CellStep(a, b, i + 1, j);
      CellStep(a, b, i, j + 1);
    }
  }

  // No common subsequence beats the table.
  lemma {:induction false} CellIsOptimal<T>(a: seq<T>, b: seq<T>, p: Pairs, i: nat, j: nat)
    requires i <= |a| && j <= |b|
    requires CommonSubsequence(a, b, p) && StartsAt(p, i, j)
    ensures |p| <= Cell(a, b, i, j)
    decreases |a| - i + |b| - j
  {
    if |p| == 0 || i == |a| || j == |b| {
    } else if p[0].0 > i && a[i] != b[j] {
      CellIsOptimal(a, b, p, i + 1, j);
    } else if p[0].1 > j && a[i] != b[j] {
      CellIsOptimal(a, b, p, i, j + 1);
    } else {
      var rest := p[1..];
      assert forall k :: 0 <= k < |rest| ==> rest[k] == p[k + 1];
      CellIsOptimal(a, b, rest, i + 1, j + 1);
    }
  }

  // What the aligner returns, with its refusals.
  function Aligned<T(==)>(a: seq<T>, b: seq<T>): (p: Pairs)
  {
    if |a| * |b| > CELL_CAP then [] else Walk(a, b, 0, 0)
  }

  lemma {:induction false} AlignedIsValid<T>(a: seq<T>, b: seq<T>)
    ensures InRange(Aligned(a, b), |a|, |b|) && OneToOne(Aligned(a, b))
    ensures forall k :: 0 <= k < |Aligned(a, b)| ==>
              Aligned(a, b)[k].0 < |a| && Aligned(a, b)[k].1 < |b| && a[Aligned(a, b)[k].0] == b[Aligned(a, b)[k].1]
  {
    var p := Aligned(a, b);
    assert CommonSubsequence(a, b, p);
  }

  // Below the cap the pairing is a longest common subsequence.
  lemma {:induction false} AlignedIsLongest<T>(a: seq<T>, b: seq<T>, p: Pairs)
    requires |a| * |b| <= CELL_CAP
    requires CommonSubsequence(a, b, p)
    ensures |p| <= |Aligned(a, b)|
  {
    CellIsOptimal(a, b, p, 0, 0);
  }

  // Swapping to the tail of another common subsequence where the two cross.
  lemma {:induction false} Splice<T>(a: seq<T>, b: seq<T>, p: Pairs, q: Pairs, k: nat, l: nat)
    requires CommonSubsequence(a, b, p) && CommonSubsequence(a, b, q) && k <= |p| && l <= |q|
    requires k > 0 && l < |q| ==> p[k - 1].0 < q[l].0 && p[k - 1].1 < q[l].1
    ensures CommonSubsequence(a, b, p[..k] + q[l..])
  {
    var r := p[..k] + q[l..];
    forall m, n | 0 <= m < n < |r| ensures r[m].0 < r[n].0 && r[m].1 < r[n].1 {
      if m < k <= n {
        assert r[m] == p[m] && r[n] == q[l + (n - k)];
        assert m < k - 1 ==> p[m].0 < p[k - 1].0 && p[m].1 < p[k - 1].1;
        assert n > k ==> q[l].0 < q[l + (n - k)].0 && q[l].1 < q[l + (n - k)].1;
      }
    }
  }

  // Once the walk has passed over a[i], starting from a[i] gains nothing: where another
  // longest one is first ahead of it, either the two cross and could be joined into a
  // longer one, or it could have followed the walk up to there.
  lemma {:induction false} PassedOver<T>(a: seq<T>, b: seq<T>, p: Pairs, i: nat, j: nat, k: nat)
    requires i < |a| && j <= |b| && CommonSubsequence(a, b, p) && StartsAt(p, i, j)
    requires |p| == Cell(a, b, i, j) == Cell(a, b, i + 1, j) && k < |p|
    requires forall l :: 0 <= l < k ==> Walk(a, b, i + 1, j)[l].1 <= p[l].1
    requires Walk(a, b, i + 1, j)[k].1 > p[k].1
    ensures var r := Walk(a, b, i + 1, j)[..k] + p[k..]; CommonSubsequence(a, b, r) && StartsAt(r, i + 1, j)
  {
    var q := Walk(a, b, i + 1, j);
    if p[k].0 < q[k].0 {
      Splice(a, b, p, q, k + 1, k);
      CellIsOptimal(a, b, p[..k + 1] + q[k..], i, j);
      assert false;
    }
    if k > 0 {
      assert p[k - 1].1 < p[k].1 && q[k - 1].0 < q[k].0;
    }
    Splice(a, b, q, p, k, k);
  }

  lemma {:induction false} SkippingOld<T>(a: seq<T>, b: seq<T>, p: Pairs, i: nat, j: nat, k: nat)
    requires i < |a| && j <= |b| && CommonSubsequence(a, b, p) && StartsAt(p, i, j)
    requires |p| == Cell(a, b, i, j) == Cell(a, b, i + 1, j) && k < |p|
    requires forall l :: 0 <= l < k ==> Walk(a, b, i + 1, j)[l].1 <= p[l].1
    ensures Walk(a, b, i + 1, j)[k].1 <= p[k].1
    decreases |a| - i + |b| - j, 0
  {
    var q := Walk(a, b, i + 1, j);
    if q[k].1 > p[k].1 {
      PassedOver(a, b, p, i, j, k);
      var r := q[..k] + p[k..];
      assert r[k] == p[k];
      WalkIsEarliest(a, b, r, i + 1, j, k);
    }
  }

  // Of all the longest, the walk finds the one that is earliest on the new side,
  // position by position.
  lemma {:induction false} WalkIsEarliest<T>(a: seq<T>, b: seq<T>, p: Pairs, i: nat, j: nat, k: nat)
    requires i <= |a| && j <= |b| && CommonSubsequence(a, b, p) && StartsAt(p, i, j)
    requires |p| == Cell(a, b, i, j) && k < |p|
    ensures Walk(a, b, i, j)[k].1 <= p[k].1
    decreases |a| - i + |b| - j, 1 + k
  {
    if a[i] == b[j] {
      if k > 0 {
        assert forall l :: 0 <= l < |p[1..]| ==> p[1..][l] == p[l + 1];
        WalkIsEarliest(a, b, p[1..], i + 1, j + 1, k - 1);
      }
    } else if Cell(a, b, i + 1, j) >= Cell(a, b, i, j + 1) {
      forall l | 0 <= l < k ensures Walk(a, b, i, j)[l].1 <= p[l].1 {
        WalkIsEarliest(a, b, p, i, j, l);
      }
      CellStep(a, b, i, j);
      SkippingOld(a, b, p, i, j, k);
    } else {
      if p[0].1 == j {
        CellIsOptimal(a, b, p, i + 1, j);
        assert false;
      }
      WalkIsEarliest(a, b, p, i, j + 1, k);
    }
  }

  // At or below the cap: no other longest common subsequence reaches any of its
  // positions on the new side earlier.
  lemma {:induction false} AlignedIsEarliest<T>(a: seq<T>, b: seq<T>, p: Pairs, k: nat)
    requires |a| * |b| <= CELL_CAP && CommonSubsequence(a, b, p) && |p| == |Aligned(a, b)| && k < |p|
    ensures Aligned(a, b)[k].1 <= p[k].1
  {
    WalkIsEarliest(a, b, p, 0, 0, k);
  }

  function Diagonal(i: nat, n: nat): (p: Pairs)
    requires i <= n
    ensures |p| == n - i && forall k :: 0 <= k < |p| ==> p[k] == (i + k, i + k)
    decreases n - i
  {
    if i == n then [] else [(i, i)] + Diagonal(i + 1, n)
  }

  lemma {:induction false} WalkOnEqualInputs<T>(a: seq<T>, i: nat)
    requires i <= |a|
    ensures Walk(a, a, i, i) == Diagonal(i, |a|)
    decreases |a| - i
  {
    if i < |a| {
      WalkOnEqualInputs(a, i + 1);
      assert Walk(a, a, i, i) == [(i, i)] + Walk(a, a, i + 1, i + 1);
    }
  }

  // Equal inputs pair every item with itself (or, above the cap, pair nothing).
  lemma {:induction false} AlignedOnEqualInputs<T>(a: seq<T>)
    ensures Aligned(a, a) == if |a| * |a| > CELL_CAP then [] else Diagonal(0, |a|)
  {
    WalkOnEqualInputs(a, 0);
  }

  // The algorithm itself: the table is filled bottom-up in place, then walked.
  method LcsPairs<T(==)>(a: seq<T>, b: seq<T>) returns (pairs: Pairs)
    ensures pairs == Aligned(a, b)
  {
    if |a| == 0 || |b| == 0 {
      return [];
    }
    if |a| * |b| > CELL_CAP {
      return [];
    }
    var dp := FillTable(a, b);
    pairs := ReadTable(a, b, dp);
  }

  // What the walk does next, after the pairs already read.
  lemma {:induction false} WalkStep<T>(a: seq<T>, b: seq<T>, i: nat, j: nat, pairs: Pairs)
    requires i < |a| && j < |b|
    ensures pairs + Walk(a, b, i, j)
            == if a[i] == b[j] then (pairs + [(i, j)]) + Walk(a, b, i + 1, j + 1)
               else if Cell(a, b, i + 1, j) >= Cell(a, b, i, j + 1) then pairs + Walk(a, b, i + 1, j)
               else pairs + Walk(a, b, i, j + 1)
  {
    if a[i] == b[j] {
      assert pairs + ([(i, j)] + Walk(a, b, i + 1, j + 1)) == (pairs + [(i, j)]) + Walk(a, b, i + 1, j + 1);
    }
  }

  method ReadTable<T(==)>(a: seq<T>, b: seq<T>, dp: array2<nat>) returns (pairs: Pairs)
    requires dp.Length0 == |a| + 1 && dp.Length1 == |b| + 1
    requires forall i, j :: 0 <= i <= |a| && 0 <= j <= |b| ==> dp[i, j] == Cell(a, b, i, j)
    ensures pairs == Walk(a, b, 0, 0)
  {
    pairs := [];
    var i, j := 0, 0;
    while i < |a| && j < |b|
      invariant 0 <= i <= |a| && 0 <= j <= |b|
      invariant pairs + Walk(a, b, i, j) == Walk(a, b, 0, 0)
      decreases |a| - i + |b| - j
    {
      WalkStep(a, b, i, j, pairs);
      if a[i] == b[j] {
        pairs := pairs + [(i, j)];
        i, j := i + 1, j + 1;
      } else if dp[i + 1, j] >= dp[i, j + 1] {
        i := i + 1;
      } else {
        j := j + 1;
      }
    }
  }

  // Rows `from` and below hold their cells.
  ghost predicate RowsFilled<T>(a: seq<T>, b: seq<T>, dp: array2<nat>, from: nat)
    reads dp
  {
    && dp.Length0 == |a| + 1 && dp.Length1 == |b| + 1
    && forall r, c :: from <= r <= |a| && 0 <= c <= |b| ==> dp[r, c] == Cell(a, b, r, c)
  }

  // The last column of the rows above is still zero.
  ghost predicate EdgeIsZero<T>(a: seq<T>, b: seq<T>, dp: array2<nat>, to: nat)
    reads dp
  {
    dp.Length0 == |a| + 1 && dp.Length1 == |b| + 1 && forall r :: 0 <= r < to <= |a| ==> dp[r, |b|] == 0
  }

  method FillRow<T(==)>(a: seq<T>, b: seq<T>, dp: array2<nat>, i: nat)
    requires i < |a| && RowsFilled(a, b, dp, i + 1) && EdgeIsZero(a, b, dp, i + 1)
    modifies dp
    ensures RowsFilled(a, b, dp, i) && EdgeIsZero(a, b, dp, i)
  {
    var j := |b|;
    while j > 0
      invariant 0 <= j <= |b| && RowsFilled(a, b, dp, i + 1) && EdgeIsZero(a, b, dp, i)
      invariant forall c :: j <= c <= |b| ==> dp[i, c] == Cell(a, b, i, c)
    {
      j := j - 1;
      assert dp[i + 1, j + 1] == Cell(a, b, i + 1, j + 1) && dp[i + 1, j] == Cell(a, b, i + 1, j);
      dp[i, j] := if a[i] == b[j] then dp[i + 1, j + 1] + 1 else Max(dp[i + 1, j], dp[i, j + 1]);
    }
  }

  method FillTable<T(==)>(a: seq<T>, b: seq<T>) returns (dp: array2<nat>)
    ensures fresh(dp) && dp.Length0 == |a| + 1 && dp.Length1 == |b| + 1
    ensures forall i, j :: 0 <= i <= |a| && 0 <= j <= |b| ==> dp[i, j] == Cell(a, b, i, j)
  {
    dp := new nat[|a| + 1, |b| + 1]((_, _) => 0);
    var i := |a|;
    while i > 0
      invariant 0 <= i <= |a| && RowsFilled(a, b, dp, i) && EdgeIsZero(a, b, dp, i)
    {
      i := i - 1;
      FillRow(a, b, dp, i);
    }
  }
}
