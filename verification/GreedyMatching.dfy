/** Accepting candidate pairs nearest first. What the acceptance loop computes is
    characterised without reference to the loop: a matching in which every candidate
    left out lost to a strictly better one. There is only one such matching. */
module GreedyMatching {
  import opened Indexing
  import opened Sorting

  // A pair of positions and their squared distance.
  datatype Candidate = Candidate(gap: real, i: nat, j: nat)

  // The order candidates are tried in: by distance, then by position.
  predicate NoLater(c: Candidate, e: Candidate) {
    || c.gap < e.gap
    || (c.gap == e.gap && (c.i < e.i || (c.i == e.i && c.j <= e.j)))
  }

  predicate Before(c: Candidate, e: Candidate) {
    NoLater(c, e) && c != e
  }

  lemma {:induction false} NoLaterIsTotal()
    ensures TotalPreorder(NoLater)
  {
  }

  ghost predicate Conflict(c: Candidate, e: Candidate) { c.i == e.i || c.j == e.j }

  ghost predicate Holds(m: map<nat, nat>, c: Candidate) { c.i in m && m[c.i] == c.j }

  ghost predicate Injective(m: map<nat, nat>) {
    forall i, k :: i in m && k in m && m[i] == m[k] ==> i == k
  }

  // A pair of positions occurs with one distance only.
  ghost predicate Functional(cands: seq<Candidate>) {
    forall c, e :: c in cands && e in cands && c.i == e.i && c.j == e.j ==> c == e
  }

  ghost predicate Beaten(cands: seq<Candidate>, m: map<nat, nat>, c: Candidate) {
    exists e :: e in cands && Holds(m, e) && Before(e, c) && Conflict(e, c)
  }

  ghost predicate Greedy(cands: seq<Candidate>, m: map<nat, nat>) {
    && Injective(m)
    && (forall i :: i in m ==> exists c :: c in cands && c.i == i && Holds(m, c))
    && (forall c :: c in cands ==> Holds(m, c) || Beaten(cands, m, c))
  }

  method Accept(cands: seq<Candidate>) returns (paired: map<nat, nat>, used: set<nat>)
    requires Functional(cands)
    ensures Greedy(cands, paired) && used == paired.Values
  {
    var sorted := Sort(cands, NoLater);
    NoLaterIsTotal();
    SortOrders(cands, NoLater);
    SameElements(cands, NoLater);
    paired, used := AcceptInOrder(sorted);
    SameCandidates(sorted, cands, paired);
  }

  method AcceptInOrder(sorted: seq<Candidate>) returns (paired: map<nat, nat>, used: set<nat>)
    requires Functional(sorted) && Sorted(sorted, NoLater)
    ensures Greedy(sorted, paired) && used == paired.Values
  {
    paired, used := map[], {};
    for k := 0 to |sorted|
      invariant Greedy(sorted[..k], paired) && used == paired.Values
    {
      var c := sorted[k];
      if c.i in paired || c.j in used {
        LeaveOut(sorted, k, paired);
      } else {
        TakeIn(sorted, k, paired);
        ExtendedValues(paired, c.i, c.j);
        paired, used := paired[c.i := c.j], used + {c.j};
      }
    }
    assert sorted[..|sorted|] == sorted;
  }

  lemma {:induction false} ExtendedValues(m: map<nat, nat>, i: nat, j: nat)
    requires i !in m
    ensures m[i := j].Values == m.Values + {j}
  {
    var m' := m[i := j];
    assert m'[i] == j && forall k :: k in m ==> m'[k] == m[k];
    forall v | v in m.Values ensures v in m'.Values {
      var k :| k in m && m[k] == v;
      assert m'[k] == v;
    }
  }

  lemma {:induction false} SameCandidates(s: seq<Candidate>, t: seq<Candidate>, m: map<nat, nat>)
    requires forall c :: c in s <==> c in t
    requires Greedy(s, m)
    ensures Greedy(t, m)
  {
    forall c | c in t ensures Holds(m, c) || Beaten(t, m, c) {
      if !Holds(m, c) {
        assert Beaten(s, m, c);
        var e :| e in s && Holds(m, e) && Before(e, c) && Conflict(e, c);
        assert e in t;
      }
    }
  }

  // A candidate whose position is taken lost to an earlier one.
  lemma {:induction false} LeaveOut(s: seq<Candidate>, k: nat, m: map<nat, nat>)
    requires k < |s| && Functional(s) && Sorted(s, NoLater)
    requires Greedy(s[..k], m)
    requires s[k].i in m || s[k].j in m.Values
    ensures Greedy(s[..k + 1], m)
  {
    var e := Occupant(s[..k], m, s[k]);
    assert s[..k + 1] == s[..k] + [s[k]];
    assert NoLater(e, s[k]);
    assert e != s[k] ==> Beaten(s[..k] + [s[k]], m, s[k]);
    StillGreedy(s[..k], s[k], m, m);
  }

  // The accepted candidate that holds one of c's positions.
  lemma {:induction false} Occupant(s: seq<Candidate>, m: map<nat, nat>, c: Candidate) returns (e: Candidate)
    requires Greedy(s, m) && (c.i in m || c.j in m.Values)
    ensures e in s && Holds(m, e) && Conflict(e, c)
  {
    var i :| i in m && (i == c.i || m[i] == c.j);
    e :| e in s && e.i == i && Holds(m, e);
  }

  lemma {:induction false} TakeIn(s: seq<Candidate>, k: nat, m: map<nat, nat>)
    requires k < |s| && Greedy(s[..k], m)
    requires s[k].i !in m && s[k].j !in m.Values
    ensures Greedy(s[..k + 1], m[s[k].i := s[k].j])
  {
    var c := s[k];
    assert s[..k + 1] == s[..k] + [c];
    StillGreedy(s[..k], c, m, m[c.i := c.j]);
  }

  // Growing the matching keeps every earlier verdict.
  lemma {:induction false} StillGreedy(s: seq<Candidate>, c: Candidate, m: map<nat, nat>, m': map<nat, nat>)
    requires Greedy(s, m) && Injective(m')
    requires m' == m || (m' == m[c.i := c.j] && c.i !in m)
    requires Holds(m', c) || Beaten(s + [c], m', c)
    ensures Greedy(s + [c], m')
  {
    var t := s + [c];
    forall e | e in t ensures Holds(m', e) || Beaten(t, m', e) {
      if e != c && !Holds(m', e) {
        assert e in s && Beaten(s, m, e);
        var f :| f in s && Holds(m, f) && Before(f, e) && Conflict(f, e);
        assert f in t && Holds(m', f);
      }
    }
    forall i | i in m' ensures exists e :: e in t && e.i == i && Holds(m', e) {
      if i in m {
        var e :| e in s && e.i == i && Holds(m, e);
        assert e in t && Holds(m', e);
      } else {
        assert c in t && Holds(m', c);
      }
    }
  }

  // ---------------------------------------------------------------- uniqueness

  lemma {:induction false} NoTwoAccepted(cands: seq<Candidate>, m: map<nat, nat>, c: Candidate, e: Candidate)
    requires Functional(cands) && Greedy(cands, m) && c in cands && e in cands
    requires Holds(m, c) && Holds(m, e) && Conflict(c, e)
    ensures c == e
  {
  }

  // Candidates are settled in order of trial, so two greedy matchings settle each alike.
  lemma {:induction false} GreedyAgrees(s: seq<Candidate>, m: map<nat, nat>, m': map<nat, nat>, k: nat)
    requires Functional(s) && Sorted(s, NoLater) && Greedy(s, m) && Greedy(s, m')
    requires k < |s|
    ensures Holds(m, s[k]) <==> Holds(m', s[k])
    decreases k
  {
    if Holds(m, s[k]) && !Holds(m', s[k]) {
      var e := Winner(s, m', s[k]);
      var l := Earlier(s, e, k);
      GreedyAgrees(s, m, m', l);
      NoTwoAccepted(s, m, e, s[k]);
    } else if !Holds(m, s[k]) && Holds(m', s[k]) {
      var e := Winner(s, m, s[k]);
      var l := Earlier(s, e, k);
      GreedyAgrees(s, m, m', l);
      NoTwoAccepted(s, m', e, s[k]);
    }
  }

  lemma {:induction false} Winner(cands: seq<Candidate>, m: map<nat, nat>, c: Candidate) returns (e: Candidate)
    requires Greedy(cands, m) && c in cands && !Holds(m, c)
    ensures e in cands && Holds(m, e) && Before(e, c) && Conflict(e, c)
  {
    assert Beaten(cands, m, c);
    e :| e in cands && Holds(m, e) && Before(e, c) && Conflict(e, c);
  }

  // A candidate tried before the k-th stands before it in the sorted list.
  lemma {:induction false} Earlier(b: seq<Candidate>, e: Candidate, k: nat) returns (l: nat)
    requires Sorted(b, NoLater) && k < |b| && e in b && Before(e, b[k])
    ensures l < k && b[l] == e
  {
    l :| 0 <= l < |b| && b[l] == e;
    assert l > k ==> NoLater(b[k], b[l]);
  }

  // The loop's result is determined by the candidates alone.
  lemma {:induction false} GreedyIsUnique(cands: seq<Candidate>, m: map<nat, nat>, m': map<nat, nat>)
    requires Functional(cands) && Greedy(cands, m) && Greedy(cands, m')
    ensures m == m'
  {
    var s := Sort(cands, NoLater);
    NoLaterIsTotal();
    SortOrders(cands, NoLater);
    SameElements(cands, NoLater);
    SameCandidates(cands, s, m);
    SameCandidates(cands, s, m');
    forall c | c in s ensures Holds(m, c) <==> Holds(m', c) {
      var k :| 0 <= k < |s| && s[k] == c;
      GreedyAgrees(s, m, m', k);
    }
    HeldAlike(s, m, m');
    HeldAlike(s, m', m);
  }

  lemma {:induction false} HeldAlike(s: seq<Candidate>, m: map<nat, nat>, m': map<nat, nat>)
    requires Greedy(s, m) && forall c :: c in s && Holds(m, c) ==> Holds(m', c)
    ensures forall i :: i in m ==> i in m' && m[i] == m'[i]
  {
    forall i | i in m ensures i in m' && m[i] == m'[i] {
      var c :| c in s && c.i == i && Holds(m, c);
    }
  }

  // Every list of candidates has a greedy matching.
  lemma {:induction false} GreedyExists(cands: seq<Candidate>) returns (m: map<nat, nat>)
    requires Functional(cands)
    ensures Greedy(cands, m)
  {
    var s := Sort(cands, NoLater);
    NoLaterIsTotal();
    SortOrders(cands, NoLater);
    SameElements(cands, NoLater);
    m := GreedyUpTo(s, |s|);
    assert s[..|s|] == s;
    SameCandidates(s, cands, m);
  }

  lemma {:induction false} GreedyUpTo(s: seq<Candidate>, k: nat) returns (m: map<nat, nat>)
    requires Functional(s) && Sorted(s, NoLater) && k <= |s|
    ensures Greedy(s[..k], m)
  {
    if k == 0 {
      m := map[];
    } else {
      m := GreedyUpTo(s, k - 1);
      var c := s[k - 1];
      assert k - 1 + 1 == k;
      if c.i in m || c.j in m.Values {
        LeaveOut(s, k - 1, m);
      } else {
        TakeIn(s, k - 1, m);
        m := m[c.i := c.j];
      }
    }
  }

  // ------------------------------------------------------------------ counting

  function PositionsOf<C(==)>(s: seq<C>, x: C): set<nat> {
    set i: nat | i < |s| && s[i] == x
  }

  lemma {:induction false} PositionsCount<C>(s: seq<C>, x: C)
    ensures |PositionsOf(s, x)| == multiset(s)[x]
  {
    if s != [] {
      var init, last := s[..|s| - 1], |s| - 1;
      PositionsCount(init, x);
      assert s == init + [s[last]];
      assert PositionsOf(s, x) == PositionsOf(init, x) + if s[last] == x then {last} else {};
    }
  }

  // A one-to-one image is as large as what it is the image of.
  lemma {:induction false} ImageSize(m: map<nat, nat>, s: set<nat>)
    requires Injective(m) && s <= m.Keys
    ensures |set i | i in s :: m[i]| == |s|
    decreases |s|
  {
    if s != {} {
      var x :| x in s;
      ImageSize(m, s - {x});
      assert (set i | i in s :: m[i]) == (set i | i in s - {x} :: m[i]) + {m[x]};
    }
  }

  ghost predicate JoinsClasses<C>(left: seq<C>, right: seq<C>, m: map<nat, nat>) {
    Injective(m) && forall i :: i in m ==> i < |left| && m[i] < |right| && left[i] == right[m[i]]
  }

  // No two positions of one class are both left free.
  ghost predicate Maximal<C>(left: seq<C>, right: seq<C>, m: map<nat, nat>) {
    forall i, j :: 0 <= i < |left| && 0 <= j < |right| && left[i] == right[j] ==> i in m || j in m.Values
  }

  function PairedIn<C(==)>(left: seq<C>, m: map<nat, nat>, x: C): set<nat> {
    set i | i in m && i < |left| && left[i] == x
  }

  // In every class the scarcer side is used up.
  lemma {:induction false} ClassCount<C>(left: seq<C>, right: seq<C>, m: map<nat, nat>, x: C)
    requires JoinsClasses(left, right, m) && Maximal(left, right, m)
    ensures |PairedIn(left, m, x)| == (multiset(left) * multiset(right))[x]
  {
    var mine := PairedIn(left, m, x);
    var image := set i | i in mine :: m[i];
    var ours, theirs := PositionsOf(left, x), PositionsOf(right, x);
    PositionsCount(left, x);
    PositionsCount(right, x);
    ImageSize(m, mine);
    assert mine <= ours && image <= theirs;
    SubsetSize(mine, ours);
    SubsetSize(image, theirs);
    if mine != ours {
      var i :| i in ours && i !in mine;
      forall j | j in theirs ensures j in image {
        assert left[i] == right[j];
        var k :| k in m && m[k] == j;
      }
      assert theirs == image;
    }
  }

  // The classes of the paired positions, in ascending order of position.
  function PairedClasses<C>(left: seq<C>, m: map<nat, nat>, k: nat): seq<C>
    requires k <= |left|
  {
    if k == 0 then []
    else PairedClasses(left, m, k - 1) + if k - 1 in m then [left[k - 1]] else []
  }

  function Below(s: set<nat>, k: nat): set<nat> { set i | i in s && i < k }

  lemma {:induction false} BelowOneMore(s: set<nat>, k: nat)
    ensures |Below(s, k + 1)| == |Below(s, k)| + if k in s then 1 else 0
  {
    assert Below(s, k + 1) == Below(s, k) + if k in s then {k} else {};
  }

  lemma {:induction false} CountOneMore<C>(s: seq<C>, y: C, x: C)
    ensures multiset(s + [y])[x] == multiset(s)[x] + if y == x then 1 else 0
    ensures s + [] == s
  {
  }

  lemma {:induction false} PairedClassesCount<C>(left: seq<C>, m: map<nat, nat>, k: nat, x: C)
    requires k <= |left|
    ensures multiset(PairedClasses(left, m, k))[x] == |Below(PairedIn(left, m, x), k)|
  {
    if k == 0 {
      assert Below(PairedIn(left, m, x), 0) == {};
    } else {
      PairedClassesCount(left, m, k - 1, x);
      CountOneMore(PairedClasses(left, m, k - 1), left[k - 1], x);
      BelowOneMore(PairedIn(left, m, x), k - 1);
    }
  }

  lemma {:induction false} PairedClassesSize<C>(left: seq<C>, m: map<nat, nat>, k: nat)
    requires k <= |left|
    ensures |PairedClasses(left, m, k)| == |Below(m.Keys, k)|
  {
    if k == 0 {
      assert Below(m.Keys, 0) == {};
    } else {
      PairedClassesSize(left, m, k - 1);
      BelowOneMore(m.Keys, k - 1);
    }
  }

  lemma {:induction false} SameCounts<C>(a: multiset<C>, b: multiset<C>)
    requires forall x: C :: a[x] == b[x]
    ensures a == b
  {
  }

  // Maximum cardinality: the pairs number the multiset intersection of the classes,
  // that is, the sum over classes of the lesser of the two counts.
  lemma {:induction false} MaximalIsMaximum<C>(left: seq<C>, right: seq<C>, m: map<nat, nat>)
    requires JoinsClasses(left, right, m) && Maximal(left, right, m)
    ensures multiset(PairedClasses(left, m, |left|)) == multiset(left) * multiset(right)
    ensures |m| == |multiset(left) * multiset(right)|
  {
    var p := PairedClasses(left, m, |left|);
    var counted: multiset<C> := multiset(p);
    var common: multiset<C> := multiset(left) * multiset(right);
    forall x: C ensures counted[x] == common[x] {
      PairedClassesCount(left, m, |left|, x);
      assert Below(PairedIn(left, m, x), |left|) == PairedIn(left, m, x);
      ClassCount(left, right, m, x);
    }
    SameCounts(counted, common);
    PairedClassesSize(left, m, |left|);
    assert Below(m.Keys, |left|) == m.Keys;
    assert |counted| == |p|;
  }

  // A set of n positions below n is all of them.
  lemma {:induction false} AllBelow(s: set<nat>, n: nat)
    requires forall i :: i in s ==> i < n
    ensures |s| <= n
    ensures |s| == n ==> forall i: nat :: i < n ==> i in s
    ensures (forall i: nat :: i < n ==> i in s) ==> |s| == n
    decreases n
  {
    if n == 0 {
      assert s == {};
    } else {
      AllBelow(s - {n - 1}, n - 1);
      if n - 1 in s {
        assert s == (s - {n - 1}) + {n - 1};
      } else {
        assert s == s - {n - 1};
      }
    }
  }

  lemma {:induction false} SubmultisetMeet<T>(a: multiset<T>, b: multiset<T>)
    requires a <= b
    ensures a * b == a
  {
  }

  // When the right side has at least the left side's classes, every left position
  // is paired.
  lemma {:induction false} SmallerSideIsPaired<C>(left: seq<C>, right: seq<C>, m: map<nat, nat>)
    requires JoinsClasses(left, right, m) && Maximal(left, right, m)
    requires multiset(left) <= multiset(right)
    ensures |m| == |left| && forall i: nat :: i < |left| ==> i in m
  {
    MaximalIsMaximum(left, right, m);
    SubmultisetMeet(multiset(left), multiset(right));
    assert |multiset(left)| == |left|;
    AllBelow(m.Keys, |left|);
  }
}
