/** Which pages the correspondence joins: the aligned ones, and the rest in order. */
module PagePartners {
  import opened Wrappers
  import opened Indexing
  import opened Sorting
  import opened PagePairing
  import Lcs

  function Free(k: nat, taken: set<nat>): set<nat> { set x: nat | x < k && x !in taken }

  // How many of the numbers before k are not taken.
  function Rank(k: nat, taken: set<nat>): nat { |Free(k, taken)| }

  function FirstOf(s: seq<nat>, k: nat): set<nat>
    requires k <= |s|
  {
    set l | 0 <= l < k :: s[l]
  }

  lemma {:induction false} FirstAreDistinct(s: seq<nat>, k: nat)
    requires k <= |s| && forall i, j :: 0 <= i < j < |s| ==> s[i] < s[j]
    ensures |FirstOf(s, k)| == k
  {
    if k > 0 {
      FirstAreDistinct(s, k - 1);
      assert FirstOf(s, k) == FirstOf(s, k - 1) + {s[k - 1]};
    }
  }

  lemma {:induction false} OthersByRank(n: nat, taken: set<nat>, i: nat)
    requires i < n && i !in taken
    ensures Rank(i, taken) < |Others(n, taken)| && Others(n, taken)[Rank(i, taken)] == i
  {
    var s := Others(n, taken);
    assert i in s;
    var k :| 0 <= k < |s| && s[k] == i;
    FirstAreDistinct(s, k);
    forall x | x in Free(i, taken) ensures x in FirstOf(s, k) {
      assert x in s;
    }
    assert FirstOf(s, k) == Free(i, taken);
  }

  lemma {:induction false} OthersCount(n: nat, taken: set<nat>)
    ensures |Others(n, taken)| == Rank(n, taken)
  {
    var s := Others(n, taken);
    FirstAreDistinct(s, |s|);
    assert FirstOf(s, |s|) == Free(n, taken);
  }

  // Neither page is aligned, and as many unaligned pages come before the one as before
  // the other.
  predicate SamePlace(p: Pairs, i: nat, j: nat) {
    && i !in Firsts(p) && j !in Seconds(p)
    && Rank(i, ToSet(Firsts(p))) == Rank(j, ToSet(Seconds(p)))
  }

  lemma {:induction false} ZippedExactly(n: nat, m: nat, p: Pairs, i: nat, j: nat)
    requires i < n && j < m
    ensures (i, j) in Zip(Others(n, ToSet(Firsts(p))), Others(m, ToSet(Seconds(p)))) <==> SamePlace(p, i, j)
  {
    var left, right := Others(n, ToSet(Firsts(p))), Others(m, ToSet(Seconds(p)));
    var z := Zip(left, right);
    if (i, j) in z {
      var k :| 0 <= k < |z| && z[k] == (i, j);
      assert i in left && j in right;
    }
    if i !in Firsts(p) && j !in Seconds(p) {
      OthersByRank(n, ToSet(Firsts(p)), i);
      OthersByRank(m, ToSet(Seconds(p)), j);
      if SamePlace(p, i, j) {
        assert z[Rank(i, ToSet(Firsts(p)))] == (i, j);
      }
    }
  }

  lemma {:induction false} OrderedMembers(n: nat, m: nat, p: Pairs, x: Entry)
    ensures x in Ordered(n, m, p) <==> x in Entries(n, m, p)
  {
    SameElements(Entries(n, m, p), KeyOrder);
  }

  lemma {:induction false} JoinedExactly(n: nat, m: nat, p: Pairs, i: nat, j: nat)
    ensures (Some(i), Some(j)) in Entries(n, m, p) <==> (i, j) in p
  {
    if (i, j) in p {
      var k :| 0 <= k < |p| && p[k] == (i, j);
      assert Entries(n, m, p)[k] == (Some(i), Some(j));
    }
  }

  // Two pages are compared exactly when they are aligned, or neither is and they come in
  // the same place among those that are not.
  lemma {:induction false} PartnersExactly<F>(before: seq<F>, after: seq<F>, i: nat, j: nat)
    requires i < |before| && j < |after|
    ensures (Some(i), Some(j)) in Correspondence(before, after) <==>
              (i, j) in Lcs.Aligned(before, after) || SamePlace(Lcs.Aligned(before, after), i, j)
  {
    var n, m, p, q := |before|, |after|, Lcs.Aligned(before, after), Corresponding(before, after);
    OrderedMembers(n, m, q, (Some(i), Some(j)));
    JoinedExactly(n, m, q, i, j);
    ZippedExactly(n, m, p, i, j);
  }

  lemma {:induction false} ZippedOld(n: nat, m: nat, p: Pairs, i: nat)
    requires i < n
    ensures i in Firsts(Zip(Others(n, ToSet(Firsts(p))), Others(m, ToSet(Seconds(p)))))
            <==> i !in Firsts(p) && Rank(i, ToSet(Firsts(p))) < Rank(m, ToSet(Seconds(p)))
  {
    var left, right := Others(n, ToSet(Firsts(p))), Others(m, ToSet(Seconds(p)));
    var z := Zip(left, right);
    OthersCount(m, ToSet(Seconds(p)));
    if i !in Firsts(p) {
      OthersByRank(n, ToSet(Firsts(p)), i);
      var r := Rank(i, ToSet(Firsts(p)));
      if r < |right| {
        assert Firsts(z)[r] == i;
      }
      if i in Firsts(z) {
        var k :| 0 <= k < |z| && Firsts(z)[k] == i;
        assert left[k] == left[r];
      }
    } else {
      assert forall k :: 0 <= k < |left| ==> left[k] in left;
    }
  }

  lemma {:induction false} DroppedExactly(n: nat, m: nat, p: Pairs, i: nat)
    ensures (Some(i), None) in Entries(n, m, p) <==> i < n && i !in Firsts(p)
  {
    var gone := Others(n, ToSet(Firsts(p)));
    if i in gone {
      var k :| 0 <= k < |gone| && gone[k] == i;
      assert Entries(n, m, p)[|p| + k] == (Some(i), None);
    }
    if (Some(i), None) in Entries(n, m, p) {
      var k :| 0 <= k < |Entries(n, m, p)| && Entries(n, m, p)[k] == (Some(i), None);
      assert gone[k - |p|] == i;
      assert i in gone;
    }
  }

  // An old page is deleted exactly when it is not aligned and as many unaligned pages
  // come before it as the new document has in all.
  lemma {:induction false} DeletedExactly<F>(before: seq<F>, after: seq<F>, i: nat)
    requires i < |before|
    ensures var p := Lcs.Aligned(before, after);
            (Some(i), None) in Correspondence(before, after) <==>
              i !in Firsts(p) && Rank(i, ToSet(Firsts(p))) >= Rank(|after|, ToSet(Seconds(p)))
  {
    var n, m, p, q := |before|, |after|, Lcs.Aligned(before, after), Corresponding(before, after);
    OrderedMembers(n, m, q, (Some(i), None));
    DroppedExactly(n, m, q, i);
    ZippedOld(n, m, p, i);
    ConcatMembers(p, Zip(Others(n, ToSet(Firsts(p))), Others(m, ToSet(Seconds(p)))));
  }
}
