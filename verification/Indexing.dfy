/** Index bookkeeping shared by the matchers: which positions of a list are taken,
    and which are left over. */
module Indexing {

  ghost predicate NoDuplicates<T>(s: seq<T>) {
    forall i, j :: 0 <= i < j < |s| ==> s[i] != s[j]
  }

  // 0, 1, ..., n - 1.
  function Range(n: nat): (r: seq<nat>)
    ensures |r| == n && forall i :: 0 <= i < n ==> r[i] == i
  {
    seq(n, i => i)
  }

  // The positions below n that are not in `taken`, in ascending order.
  function Others(n: nat, taken: set<nat>): (r: seq<nat>)
    ensures forall x: nat :: x in r <==> x < n && x !in taken
    ensures forall k :: 0 <= k < |r| ==> r[k] < n
    ensures forall i, j :: 0 <= i < j < |r| ==> r[i] < r[j]
  {
    if n == 0 then []
    else if n - 1 in taken then Others(n - 1, taken)
    else Others(n - 1, taken) + [n - 1]
  }

  function Firsts(p: seq<(nat, nat)>): (r: seq<nat>)
    ensures |r| == |p| && forall k :: 0 <= k < |p| ==> r[k] == p[k].0
  {
    seq(|p|, k requires 0 <= k < |p| => p[k].0)
  }

  function Seconds(p: seq<(nat, nat)>): (r: seq<nat>)
    ensures |r| == |p| && forall k :: 0 <= k < |p| ==> r[k] == p[k].1
  {
    seq(|p|, k requires 0 <= k < |p| => p[k].1)
  }

  function ToSet<T(==)>(s: seq<T>): (r: set<T>) {
    set x | x in s
  }

  lemma {:induction false} CountInDistinct<T>(s: seq<T>, x: T)
    requires NoDuplicates(s)
    ensures multiset(s)[x] == if x in s then 1 else 0
  {
    if s != [] {
      assert s == [s[0]] + s[1..];
      CountInDistinct(s[1..], x);
      assert x in s <==> x == s[0] || x in s[1..];
      assert s[0] !in s[1..];
    }
  }

  lemma {:induction false} TwoPositions<T>(s: seq<T>, i: nat, j: nat)
    requires i < j < |s| && s[i] == s[j]
    ensures multiset(s)[s[i]] >= 2
  {
    var front, back := s[..j], s[j..];
    assert s == front + back;
    assert front[i] in multiset(front) && back[0] in multiset(back);
  }

  // Taken and left-over positions together make up every position exactly once.
  lemma {:induction false} Partition(n: nat, taken: seq<nat>)
    requires NoDuplicates(taken)
    requires forall x :: x in taken ==> x < n
    ensures multiset(taken) + multiset(Others(n, ToSet(taken))) == multiset(Range(n))
    ensures |taken| + |Others(n, ToSet(taken))| == n
  {
    var rest := Others(n, ToSet(taken));
    var joined: multiset<nat> := multiset(taken) + multiset(rest);
    var whole: multiset<nat> := multiset(Range(n));
    forall x: nat
      ensures joined[x] == whole[x]
    {
      CountInDistinct(taken, x);
      CountInDistinct(rest, x);
      CountInDistinct(Range(n), x);
      assert x in Range(n) <==> x < n by {
        if x < n { assert Range(n)[x] == x; }
      }
    }
    assert joined == whole;
    assert |joined| == |whole|;
  }

  lemma {:induction false} DistinctSetSize<T>(s: seq<T>)
    requires NoDuplicates(s)
    ensures |ToSet(s)| == |s|
  {
    if s != [] {
      DistinctSetSize(s[1..]);
      assert ToSet(s) == {s[0]} + ToSet(s[1..]);
      assert s[0] !in s[1..];
    }
  }

  lemma {:induction false} NothingTaken(n: nat)
    ensures Others(n, {}) == Range(n)
  {
    if n > 0 {
      NothingTaken(n - 1);
      assert Range(n) == Range(n - 1) + [n - 1];
    }
  }

  lemma {:induction false} AllTaken(n: nat, taken: set<nat>)
    requires forall i :: 0 <= i < n ==> i in taken
    ensures Others(n, taken) == []
  {
    if n > 0 {
      AllTaken(n - 1, taken);
    }
  }

  lemma {:induction false} RangeTakesAll(n: nat)
    ensures Others(n, ToSet(Range(n))) == []
  {
    forall i | 0 <= i < n ensures i in ToSet(Range(n)) {
      assert Range(n)[i] == i;
    }
    AllTaken(n, ToSet(Range(n)));
  }

  // ------------------------------------------------------------------ pairs

  type Pairs = seq<(nat, nat)>

  ghost predicate InRange(p: Pairs, n: nat, m: nat) {
    forall k :: 0 <= k < |p| ==> p[k].0 < n && p[k].1 < m
  }

  // No position is used twice on either side.
  ghost predicate OneToOne(p: Pairs) {
    NoDuplicates(Firsts(p)) && NoDuplicates(Seconds(p))
  }

  lemma {:induction false} PrefixMembers(p: Pairs, q: Pairs)
    requires p <= q
    ensures forall x :: x in Firsts(p) ==> x in Firsts(q)
    ensures forall x :: x in Seconds(p) ==> x in Seconds(q)
  {
    assert forall l :: 0 <= l < |p| ==> Firsts(q)[l] == Firsts(p)[l] && Seconds(q)[l] == Seconds(p)[l];
  }

  lemma {:induction false} ConcatMembers(p: Pairs, q: Pairs)
    ensures forall x :: x in Firsts(p + q) <==> x in Firsts(p) || x in Firsts(q)
    ensures forall x :: x in Seconds(p + q) <==> x in Seconds(p) || x in Seconds(q)
  {
    assert Firsts(p + q) == Firsts(p) + Firsts(q);
    assert Seconds(p + q) == Seconds(p) + Seconds(q);
  }

  lemma {:induction false} PairPositions(p: Pairs, k: nat)
    requires k < |p|
    ensures p[k].0 in Firsts(p) && p[k].1 in Seconds(p)
  {
    assert Firsts(p)[k] == p[k].0 && Seconds(p)[k] == p[k].1;
  }

  // Pairs of positions within two selections, read back as positions outside.
  function Lift(sub: Pairs, rows: seq<nat>, cols: seq<nat>): (p: Pairs)
    requires InRange(sub, |rows|, |cols|)
    ensures |p| == |sub|
    ensures forall k :: 0 <= k < |p| ==> p[k] == (rows[sub[k].0], cols[sub[k].1])
  {
    seq(|sub|, k requires 0 <= k < |sub| => (rows[sub[k].0], cols[sub[k].1]))
  }

  lemma {:induction false} LiftIsOneToOne(sub: Pairs, rows: seq<nat>, cols: seq<nat>)
    requires InRange(sub, |rows|, |cols|) && OneToOne(sub)
    requires NoDuplicates(rows) && NoDuplicates(cols)
    ensures OneToOne(Lift(sub, rows, cols))
    ensures forall x :: x in Firsts(Lift(sub, rows, cols)) ==> x in rows
    ensures forall x :: x in Seconds(Lift(sub, rows, cols)) ==> x in cols
  {
    var p := Lift(sub, rows, cols);
    forall k, l | 0 <= k < l < |p|
      ensures Firsts(p)[k] != Firsts(p)[l] && Seconds(p)[k] != Seconds(p)[l]
    {
      assert Firsts(sub)[k] != Firsts(sub)[l] && Seconds(sub)[k] != Seconds(sub)[l];
    }
  }

  // A selected row that no lifted pair uses is used by no pair underneath.
  lemma {:induction false} LiftMissesRow(sub: Pairs, rows: seq<nat>, cols: seq<nat>, r: nat)
    requires InRange(sub, |rows|, |cols|) && r < |rows|
    requires rows[r] !in Firsts(Lift(sub, rows, cols))
    ensures r !in Firsts(sub)
  {
    forall k | 0 <= k < |sub| ensures Firsts(sub)[k] != r {
      PairPositions(Lift(sub, rows, cols), k);
    }
  }

  lemma {:induction false} LiftMissesColumn(sub: Pairs, rows: seq<nat>, cols: seq<nat>, c: nat)
    requires InRange(sub, |rows|, |cols|) && c < |cols|
    requires cols[c] !in Seconds(Lift(sub, rows, cols))
    ensures c !in Seconds(sub)
  {
    forall k | 0 <= k < |sub| ensures Seconds(sub)[k] != c {
      PairPositions(Lift(sub, rows, cols), k);
    }
  }

  lemma {:induction false} ConcatIsOneToOne(p: Pairs, q: Pairs)
    requires OneToOne(p) && OneToOne(q)
    requires forall x :: x in Firsts(q) ==> x !in Firsts(p)
    requires forall x :: x in Seconds(q) ==> x !in Seconds(p)
    ensures OneToOne(p + q)
  {
    assert Firsts(p + q) == Firsts(p) + Firsts(q);
    assert Seconds(p + q) == Seconds(p) + Seconds(q);
    ConcatHasNoDuplicates(Firsts(p), Firsts(q));
    ConcatHasNoDuplicates(Seconds(p), Seconds(q));
  }

  lemma {:induction false} ConcatHasNoDuplicates<T>(p: seq<T>, q: seq<T>)
    requires NoDuplicates(p) && NoDuplicates(q)
    requires forall x :: x in q ==> x !in p
    ensures NoDuplicates(p + q)
  {
    var s := p + q;
    forall i, j | 0 <= i < j < |s|
      ensures s[i] != s[j]
    {
      if i < |p| <= j {
        assert s[j] in q && s[i] in p;
      }
    }
  }

  // The order the pairs are sorted in before they are read out.
  predicate Lexicographic(x: (nat, nat), y: (nat, nat)) {
    x.0 < y.0 || (x.0 == y.0 && x.1 <= y.1)
  }

  function Without<T>(q: seq<T>, k: nat): seq<T>
    requires k < |q|
  {
    q[..k] + q[k + 1..]
  }

  lemma {:induction false} RemoveAt<T>(q: seq<T>, k: nat)
    requires k < |q|
    ensures multiset(q) == multiset(Without(q, k)) + multiset{q[k]}
    ensures multiset(Without(q, k)) == multiset(q) - multiset{q[k]}
  {
    assert q == q[..k] + [q[k]] + q[k + 1..];
  }

  function MapSeq<T, U>(f: T -> U, s: seq<T>): (r: seq<U>)
    ensures |r| == |s| && forall k :: 0 <= k < |s| ==> r[k] == f(s[k])
  {
    seq(|s|, k requires 0 <= k < |s| => f(s[k]))
  }

  // Stretches put together, one for each position.
  function Gathered<T>(f: nat -> seq<T>, k: nat): seq<T> { if k == 0 then [] else Gathered(f, k - 1) + f(k - 1) }

  lemma {:induction false} GatheredOnes<T>(es: seq<T>, f: nat -> seq<T>, k: nat)
    requires k <= |es| && forall i: nat :: i < k ==> f(i) == [es[i]]
    ensures Gathered(f, k) == es[..k]
  {
    if k > 0 {
      GatheredOnes(es, f, k - 1);
      assert es[..k] == es[..k - 1] + [es[k - 1]];
    }
  }

  // Rearranging a list rearranges its image.
  lemma {:induction false} PermutedMap<T, U>(f: T -> U, p: seq<T>, q: seq<T>)
    requires multiset(p) == multiset(q)
    ensures multiset(MapSeq(f, p)) == multiset(MapSeq(f, q))
  {
    if p == [] {
      assert |multiset(q)| == 0;
    } else {
      RemoveAt(p, 0);
      assert p[0] in multiset(q);
      var k :| 0 <= k < |q| && q[k] == p[0];
      RemoveAt(q, k);
      PermutedMap(f, Without(p, 0), Without(q, k));
      MapWithout(f, p, 0);
      MapWithout(f, q, k);
    }
  }

  lemma {:induction false} MapWithout<T, U>(f: T -> U, q: seq<T>, k: nat)
    requires k < |q|
    ensures multiset(MapSeq(f, q)) == multiset(MapSeq(f, Without(q, k))) + multiset{f(q[k])}
  {
    assert MapSeq(f, Without(q, k)) == Without(MapSeq(f, q), k);
    RemoveAt(MapSeq(f, q), k);
  }

  lemma {:induction false} PermutedPairs(p: Pairs, q: Pairs)
    requires multiset(p) == multiset(q)
    ensures multiset(Firsts(p)) == multiset(Firsts(q)) && multiset(Seconds(p)) == multiset(Seconds(q))
  {
    var first, second := (x: (nat, nat)) => x.0, (x: (nat, nat)) => x.1;
    PermutedMap(first, p, q);
    PermutedMap(second, p, q);
    assert MapSeq(first, p) == Firsts(p) && MapSeq(first, q) == Firsts(q);
    assert MapSeq(second, p) == Seconds(p) && MapSeq(second, q) == Seconds(q);
  }

  // A one-to-one pairing has no more pairs than either side has positions.
  lemma {:induction false} PairingFits(p: Pairs, n: nat, m: nat)
    requires InRange(p, n, m) && OneToOne(p)
    ensures |p| <= n && |p| <= m
  {
    Partition(n, Firsts(p));
    Partition(m, Seconds(p));
  }

  lemma {:induction false} SubsetSize<T>(s: set<T>, t: set<T>)
    requires s <= t
    ensures |s| <= |t| && (s != t ==> |s| < |t|)
  {
    assert t == s + (t - s);
    if s != t {
      var x :| x in t && x !in s;
      assert x in t - s;
    }
  }

  function Repeated<T>(x: T, n: nat): (r: seq<T>)
    ensures |r| == n && forall k :: 0 <= k < n ==> r[k] == x
  {
    seq(n, _ => x)
  }

  lemma {:induction false} Associates<T>(a: seq<T>, b: seq<T>, c: seq<T>)
    ensures a + b + c == a + (b + c)
  {
  }
}
