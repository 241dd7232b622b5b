/** How often a pairing joins one given element to another, when elements may have
    copies. Where a tie is only between copies, these numbers are the same whatever order
    the elements are listed in. */
module CoupleCounts {
  import opened Indexing
  import opened GreedyMatching

  // An old element and the new one it is paired with.
  type Couple<E> = (E, E)

  datatype Comparison<E> = Comparison(before: seq<E>, after: seq<E>, m: map<nat, nat>)

  // How far apart two elements are, and whether they may be paired at all.
  datatype Measure<!E> = Measure(apart: Couple<E> -> real, alike: Couple<E> -> bool)

  ghost predicate Joined<E>(x: Comparison<E>, i: nat) { i < |x.before| && i in x.m && x.m[i] < |x.after| }

  ghost function CoupleAt<E>(x: Comparison<E>, i: nat): Couple<E>
    requires Joined(x, i)
  {
    (x.before[i], x.after[x.m[i]])
  }

  // One to one, between alike elements, and stable: of two alike elements not paired with
  // each other one is paired at least as near.
  ghost predicate Stable<E(!new)>(x: Comparison<E>, d: Measure<E>) {
    && Injective(x.m) && (forall i :: i in x.m ==> Joined(x, i) && d.alike(CoupleAt(x, i)))
    && forall c :: d.alike(c) ==> Excludes(x, UpTo(d, d.apart(c)), c)
  }

  function UpTo<E>(d: Measure<E>, g: real): Couple<E> -> bool { (c: Couple<E>) => d.apart(c) <= g }

  function Under<E>(d: Measure<E>, g: real): Couple<E> -> bool { (c: Couple<E>) => d.apart(c) < g }

  // Strictly nearer couples, and those like this one.
  function Besides<E(==)>(d: Measure<E>, c: Couple<E>): Couple<E> -> bool { (e: Couple<E>) => d.apart(e) < d.apart(c) || e == c }

  // ------------------------------------------------------------------- counting

  // The couples a predicate picks out, in order of the old elements.
  ghost function Chosen<E>(x: Comparison<E>, near: Couple<E> -> bool, k: nat): seq<Couple<E>> {
    if k == 0 then []
    else Chosen(x, near, k - 1) + ChosenAt(x, near, k - 1)
  }

  ghost function ChosenAt<E>(x: Comparison<E>, near: Couple<E> -> bool, i: nat): seq<Couple<E>> {
    if Joined(x, i) && near(CoupleAt(x, i)) then [CoupleAt(x, i)] else []
  }

  // The old positions whose couple is picked out and has this image.
  ghost function Where<E, T>(x: Comparison<E>, near: Couple<E> -> bool, f: Couple<E> -> T, y: T, k: nat): set<nat> {
    set i: nat | i < k && Picked(x, near, f, y, i)
  }

  ghost predicate Picked<E, T>(x: Comparison<E>, near: Couple<E> -> bool, f: Couple<E> -> T, y: T, i: nat) {
    Joined(x, i) && near(CoupleAt(x, i)) && f(CoupleAt(x, i)) == y
  }

  lemma {:induction false} MappedOneMore<S, T>(f: S -> T, s: seq<S>, c: S, y: T)
    ensures multiset(MapSeq(f, s + [c]))[y] == multiset(MapSeq(f, s))[y] + if f(c) == y then 1 else 0
  {
    assert MapSeq(f, s + [c]) == MapSeq(f, s) + [f(c)];
  }

  lemma {:induction false} ChosenCount<E, T>(x: Comparison<E>, near: Couple<E> -> bool, f: Couple<E> -> T, y: T, k: nat)
    ensures multiset(MapSeq(f, Chosen(x, near, k)))[y] == |Where(x, near, f, y, k)|
  {
    if k == 0 {
      assert Where(x, near, f, y, 0) == {};
    } else {
      ChosenCount(x, near, f, y, k - 1);
      WhereOneMore(x, near, f, y, k);
      var s := Chosen(x, near, k - 1);
      if Joined(x, k - 1) && near(CoupleAt(x, k - 1)) {
        MappedOneMore(f, s, CoupleAt(x, k - 1), y);
      } else {
        assert s + [] == s;
      }
    }
  }

  lemma {:induction false} WhereOneMore<E, T>(x: Comparison<E>, near: Couple<E> -> bool, f: Couple<E> -> T, y: T, k: nat)
    requires k > 0
    ensures |Where(x, near, f, y, k)| == |Where(x, near, f, y, k - 1)| + if Picked(x, near, f, y, k - 1) then 1 else 0
  {
    assert Where(x, near, f, y, k) == Where(x, near, f, y, k - 1) + if Picked(x, near, f, y, k - 1) then {k - 1} else {};
  }

  ghost function Near<E>(x: Comparison<E>, near: Couple<E> -> bool): seq<Couple<E>> { Chosen(x, near, |x.before|) }

  function OldOf<E>(): Couple<E> -> E { (c: Couple<E>) => c.0 }

  function NewOf<E>(): Couple<E> -> E { (c: Couple<E>) => c.1 }

  function Itself<E>(): Couple<E> -> Couple<E> { (c: Couple<E>) => c }

  // How many old elements like `a` are in couples picked out, and how many new ones.
  ghost function OldsIn<E>(x: Comparison<E>, near: Couple<E> -> bool, a: E): nat { multiset(MapSeq(OldOf(), Near(x, near)))[a] }

  ghost function NewsIn<E>(x: Comparison<E>, near: Couple<E> -> bool, b: E): nat { multiset(MapSeq(NewOf(), Near(x, near)))[b] }

  // How often a couple is made at all.
  ghost function Number<E>(x: Comparison<E>, c: Couple<E>): nat {
    |set i: nat | i < |x.before| && Joined(x, i) && CoupleAt(x, i) == c|
  }

  lemma {:induction false} NumberIn<E>(x: Comparison<E>, near: Couple<E> -> bool, c: Couple<E>)
    ensures multiset(Near(x, near))[c] == if near(c) then Number(x, c) else 0
  {
    ChosenCount(x, near, Itself(), c, |x.before|);
    assert MapSeq(Itself(), Near(x, near)) == Near(x, near);
    var at := Where(x, near, Itself(), c, |x.before|);
    if near(c) {
      assert at == set i: nat | i < |x.before| && Joined(x, i) && CoupleAt(x, i) == c;
    } else {
      assert at == {};
    }
  }

  // ------------------------------------------------------------------ saturation

  ghost predicate OldTaken<E>(x: Comparison<E>, near: Couple<E> -> bool, i: nat) { Joined(x, i) && near(CoupleAt(x, i)) }

  ghost predicate NewTaken<E>(x: Comparison<E>, near: Couple<E> -> bool, j: nat) {
    exists i: nat :: Joined(x, i) && x.m[i] == j && near(CoupleAt(x, i))
  }

  // Of two elements like these, one is always in a couple picked out.
  ghost predicate Excludes<E>(x: Comparison<E>, near: Couple<E> -> bool, c: Couple<E>) {
    forall i: nat, j: nat :: i < |x.before| && j < |x.after| && x.before[i] == c.0 && x.after[j] == c.1 ==>
      OldTaken(x, near, i) || NewTaken(x, near, j)
  }

  lemma {:induction false} OldsCount<E>(x: Comparison<E>, near: Couple<E> -> bool, a: E)
    ensures OldsIn(x, near, a) <= multiset(x.before)[a]
    ensures OldsIn(x, near, a) == multiset(x.before)[a]
            <==> forall i: nat :: i < |x.before| && x.before[i] == a ==> OldTaken(x, near, i)
  {
    ChosenCount(x, near, OldOf(), a, |x.before|);
    PositionsCount(x.before, a);
    var taken, all := Where(x, near, OldOf(), a, |x.before|), PositionsOf(x.before, a);
    SubsetSize(taken, all);
    assert taken == all <==> forall i: nat :: i < |x.before| && x.before[i] == a ==> OldTaken(x, near, i) by {
      assert forall i: nat :: i in taken <==> i in all && OldTaken(x, near, i);
    }
  }

  ghost function NewPositions<E>(x: Comparison<E>, near: Couple<E> -> bool, b: E): set<nat> {
    set i | i in Where(x, near, NewOf(), b, |x.before|) :: x.m[i]
  }

  lemma {:induction false} NewPositionsTaken<E>(x: Comparison<E>, near: Couple<E> -> bool, b: E, j: nat)
    ensures j in NewPositions(x, near, b) <==> j in PositionsOf(x.after, b) && NewTaken(x, near, j)
  {
    if j in PositionsOf(x.after, b) && NewTaken(x, near, j) {
      var i: nat :| Joined(x, i) && x.m[i] == j && near(CoupleAt(x, i));
      assert i in Where(x, near, NewOf(), b, |x.before|);
    }
  }

  lemma {:induction false} NewsCount<E>(x: Comparison<E>, near: Couple<E> -> bool, b: E)
    requires Injective(x.m)
    ensures NewsIn(x, near, b) <= multiset(x.after)[b]
    ensures NewsIn(x, near, b) == multiset(x.after)[b]
            <==> forall j: nat :: j < |x.after| && x.after[j] == b ==> NewTaken(x, near, j)
  {
    ChosenCount(x, near, NewOf(), b, |x.before|);
    PositionsCount(x.after, b);
    ImageSize(x.m, Where(x, near, NewOf(), b, |x.before|));
    var taken, all := NewPositions(x, near, b), PositionsOf(x.after, b);
    forall j: nat ensures j in taken <==> j in all && NewTaken(x, near, j) {
      NewPositionsTaken(x, near, b, j);
    }
    SubsetSize(taken, all);
    assert taken == all <==> forall j: nat :: j in all ==> NewTaken(x, near, j);
  }

  // Picked out couples exclude a free pair exactly when they use up one side.
  lemma {:induction false} Saturated<E>(x: Comparison<E>, near: Couple<E> -> bool, c: Couple<E>)
    requires Injective(x.m)
    ensures Excludes(x, near, c)
            <==> OldsIn(x, near, c.0) == multiset(x.before)[c.0] || NewsIn(x, near, c.1) == multiset(x.after)[c.1]
  {
    OldsCount(x, near, c.0);
    NewsCount(x, near, c.1);
  }

  // A couple and its copies, counted by either side, beside the strictly nearer ones.
  lemma {:induction false} BesidesCount<E, T>(x: Comparison<E>, d: Measure<E>, c: Couple<E>, f: Couple<E> -> T)
    ensures multiset(MapSeq(f, Near(x, Besides(d, c))))[f(c)] == multiset(MapSeq(f, Near(x, Under(d, d.apart(c)))))[f(c)] + Number(x, c)
  {
    var n, besides, under := |x.before|, Besides(d, c), Under(d, d.apart(c));
    var same := set i: nat | i < n && Joined(x, i) && CoupleAt(x, i) == c;
    ChosenCount(x, besides, f, f(c), n);
    ChosenCount(x, under, f, f(c), n);
    assert Where(x, besides, f, f(c), n) == Where(x, under, f, f(c), n) + same;
  }

  lemma {:induction false} BesidesCounts<E>(x: Comparison<E>, d: Measure<E>, c: Couple<E>)
    ensures OldsIn(x, Besides(d, c), c.0) == OldsIn(x, Under(d, d.apart(c)), c.0) + Number(x, c)
    ensures NewsIn(x, Besides(d, c), c.1) == NewsIn(x, Under(d, d.apart(c)), c.1) + Number(x, c)
  {
    BesidesCount(x, d, c, OldOf());
    BesidesCount(x, d, c, NewOf());
  }

  // ------------------------------------------------------- comparing two listings

  // The same elements on both sides, in any order.
  ghost predicate SameModels<E>(x: Comparison<E>, y: Comparison<E>) {
    multiset(x.before) == multiset(y.before) && multiset(x.after) == multiset(y.after)
  }

  // No tie with another element had a say in how often this couple is made.
  ghost predicate Firm<E>(x: Comparison<E>, d: Measure<E>, c: Couple<E>) { Excludes(x, Besides(d, c), c) }

  lemma {:induction false} FewerMapped<S, T>(f: S -> T, s: seq<S>, t: seq<S>, c: S)
    requires multiset(s) <= multiset(t) && multiset(s)[c] < multiset(t)[c]
    ensures multiset(MapSeq(f, s))[f(c)] < multiset(MapSeq(f, t))[f(c)]
  {
    if s == [] {
      assert c in t;
      var k :| 0 <= k < |t| && t[k] == c;
      assert MapSeq(f, t)[k] == f(c);
    } else {
      assert s[0] in multiset(s) && s[0] in multiset(t);
      var k :| 0 <= k < |t| && t[k] == s[0];
      StillFewer(s, t, k, c);
      FewerMapped(f, Without(s, 0), Without(t, k), c);
      MapWithout(f, s, 0);
      MapWithout(f, t, k);
    }
  }

  lemma {:induction false} StillFewer<S>(s: seq<S>, t: seq<S>, k: nat, c: S)
    requires multiset(s) <= multiset(t) && multiset(s)[c] < multiset(t)[c]
    requires s != [] && k < |t| && t[k] == s[0]
    ensures multiset(Without(s, 0)) <= multiset(Without(t, k)) && multiset(Without(s, 0))[c] < multiset(Without(t, k))[c]
  {
    RemoveAt(s, 0);
    RemoveAt(t, k);
  }

  // A firm couple is made at least as often as in any other listing.
  lemma {:induction false} NoMore<E(!new)>(x: Comparison<E>, y: Comparison<E>, d: Measure<E>, c: Couple<E>)
    requires SameModels(x, y) && Injective(x.m) && Injective(y.m) && Firm(x, d, c)
    requires multiset(Near(x, Under(d, d.apart(c)))) == multiset(Near(y, Under(d, d.apart(c))))
    ensures Number(y, c) <= Number(x, c)
  {
    var under := Under(d, d.apart(c));
    Saturated(x, Besides(d, c), c);
    OldsCount(y, Besides(d, c), c.0);
    NewsCount(y, Besides(d, c), c.1);
    BesidesCounts(x, d, c);
    BesidesCounts(y, d, c);
    PermutedMap(OldOf(), Near(x, under), Near(y, under));
    PermutedMap(NewOf(), Near(x, under), Near(y, under));
  }

  lemma {:induction false} UnlikeIsNotMade<E(!new)>(x: Comparison<E>, d: Measure<E>, c: Couple<E>)
    requires Stable(x, d) && !d.alike(c)
    ensures Number(x, c) == 0
  {
    assert (set i: nat | i < |x.before| && Joined(x, i) && CoupleAt(x, i) == c) == {};
  }

  ghost predicate FirmAt<E(!new)>(x: Comparison<E>, d: Measure<E>, g: real) {
    forall c :: d.alike(c) && d.apart(c) == g ==> Firm(x, d, c)
  }

  lemma {:induction false} NoMoreUpTo<E(!new)>(x: Comparison<E>, y: Comparison<E>, d: Measure<E>, g: real)
    requires SameModels(x, y) && Stable(x, d) && Stable(y, d) && FirmAt(x, d, g)
    requires multiset(Near(x, Under(d, g))) == multiset(Near(y, Under(d, g)))
    ensures multiset(Near(y, UpTo(d, g))) <= multiset(Near(x, UpTo(d, g)))
  {
    forall c: Couple<E> ensures multiset(Near(y, UpTo(d, g)))[c] <= multiset(Near(x, UpTo(d, g)))[c] {
      NumberIn(x, UpTo(d, g), c);
      NumberIn(y, UpTo(d, g), c);
      NumberIn(x, Under(d, g), c);
      NumberIn(y, Under(d, g), c);
      if d.apart(c) == g {
        if d.alike(c) {
          NoMore(x, y, d, c);
        } else {
          UnlikeIsNotMade(y, d, c);
        }
      }
    }
  }

  // Where all couples at one distance are firm and nearer ones agree, so do these.
  lemma {:induction false} SameAt<E(!new)>(x: Comparison<E>, y: Comparison<E>, d: Measure<E>, c: Couple<E>)
    requires SameModels(x, y) && Stable(x, d) && Stable(y, d) && FirmAt(x, d, d.apart(c))
    requires multiset(Near(x, Under(d, d.apart(c)))) == multiset(Near(y, Under(d, d.apart(c))))
    ensures Number(x, c) == Number(y, c)
  {
    var upTo := UpTo(d, d.apart(c));
    if d.alike(c) {
      NoMore(x, y, d, c);
      if Number(y, c) < Number(x, c) {
        NoMoreUpTo(x, y, d, d.apart(c));
        NumberIn(x, upTo, c);
        NumberIn(y, upTo, c);
        FewerMapped(OldOf(), Near(y, upTo), Near(x, upTo), c);
        FewerMapped(NewOf(), Near(y, upTo), Near(x, upTo), c);
        OldsCount(x, upTo, c.0);
        NewsCount(x, upTo, c.1);
        Saturated(y, upTo, c);
      }
    } else {
      UnlikeIsNotMade(x, d, c);
      UnlikeIsNotMade(y, d, c);
    }
  }

  // ------------------------------------------------------- distance by distance

  // Every distance between two elements of the models.
  ghost function Distances<E>(x: Comparison<E>, d: Measure<E>): set<real> {
    set i: nat, j: nat | i < |x.before| && j < |x.after| :: d.apart((x.before[i], x.after[j]))
  }

  ghost function Nearer<E>(x: Comparison<E>, d: Measure<E>, g: real): set<real> { set h | h in Distances(x, d) && h < g }

  lemma {:induction false} FewerNearer<E>(x: Comparison<E>, d: Measure<E>, h: real, g: real)
    requires h in Distances(x, d) && h < g
    ensures |Nearer(x, d, h)| < |Nearer(x, d, g)|
  {
    SubsetSize(Nearer(x, d, h), Nearer(x, d, g));
    assert h in Nearer(x, d, g) && h !in Nearer(x, d, h);
  }

  // A couple made in either listing is of elements the models hold.
  lemma {:induction false} MadeHasDistance<E>(x: Comparison<E>, y: Comparison<E>, d: Measure<E>, c: Couple<E>)
    requires SameModels(x, y) && Number(y, c) > 0
    ensures d.apart(c) in Distances(x, d)
  {
    var at := set i: nat | i < |y.before| && Joined(y, i) && CoupleAt(y, i) == c;
    assert at != {};
    var i: nat :| i in at;
    assert c.0 in multiset(y.before) && c.1 in multiset(y.after);
    var k :| 0 <= k < |x.before| && x.before[k] == c.0;
    var l :| 0 <= l < |x.after| && x.after[l] == c.1;
  }

  ghost predicate FirmBelow<E(!new)>(x: Comparison<E>, d: Measure<E>, g: real) {
    forall c :: d.alike(c) && d.apart(c) < g ==> Firm(x, d, c)
  }

  // If every nearer couple is firm, nearer couples are made equally often in any listing.
  lemma {:induction false} SameBelow<E(!new)>(x: Comparison<E>, y: Comparison<E>, d: Measure<E>, g: real)
    requires SameModels(x, y) && Stable(x, d) && Stable(y, d) && FirmBelow(x, d, g)
    ensures multiset(Near(x, Under(d, g))) == multiset(Near(y, Under(d, g)))
    decreases |Nearer(x, d, g)|
  {
    forall c: Couple<E> ensures multiset(Near(x, Under(d, g)))[c] == multiset(Near(y, Under(d, g)))[c] {
      NumberIn(x, Under(d, g), c);
      NumberIn(y, Under(d, g), c);
      if d.apart(c) < g && (Number(x, c) > 0 || Number(y, c) > 0) {
        if Number(x, c) > 0 { MadeHasDistance(x, x, d, c); } else { MadeHasDistance(x, y, d, c); }
        FewerNearer(x, d, d.apart(c), g);
        SameBelow(x, y, d, d.apart(c));
        SameAt(x, y, d, c);
      }
    }
  }

  // And so are all within a limit, if all these are firm.
  lemma {:induction false} SameUpTo<E(!new)>(x: Comparison<E>, y: Comparison<E>, d: Measure<E>, g: real)
    requires SameModels(x, y) && Stable(x, d) && Stable(y, d) && FirmBelow(x, d, g) && FirmAt(x, d, g)
    ensures multiset(Near(x, UpTo(d, g))) == multiset(Near(y, UpTo(d, g)))
  {
    SameBelow(x, y, d, g);
    forall c: Couple<E> ensures multiset(Near(x, UpTo(d, g)))[c] == multiset(Near(y, UpTo(d, g)))[c] {
      NumberIn(x, UpTo(d, g), c);
      NumberIn(y, UpTo(d, g), c);
      NumberIn(x, Under(d, g), c);
      NumberIn(y, Under(d, g), c);
      if d.apart(c) == g {
        SameAt(x, y, d, c);
      }
    }
  }

  // A couple that is not firm, when all nearer ones are, is made more often in a listing
  // where it is.
  lemma {:induction false} MoreWhereFirm<E(!new)>(x: Comparison<E>, y: Comparison<E>, d: Measure<E>, c: Couple<E>)
    requires SameModels(x, y) && Stable(x, d) && Stable(y, d) && FirmBelow(x, d, d.apart(c))
    requires !Firm(x, d, c) && Firm(y, d, c)
    ensures Number(x, c) < Number(y, c)
  {
    var under := Under(d, d.apart(c));
    SameBelow(x, y, d, d.apart(c));
    Saturated(x, Besides(d, c), c);
    Saturated(y, Besides(d, c), c);
    OldsCount(x, Besides(d, c), c.0);
    NewsCount(x, Besides(d, c), c.1);
    BesidesCounts(x, d, c);
    BesidesCounts(y, d, c);
    PermutedMap(OldOf(), Near(x, under), Near(y, under));
    PermutedMap(NewOf(), Near(x, under), Near(y, under));
  }

  // The nearest of the couples that are not firm.
  lemma {:induction false} NearestLoose<E(!new)>(x: Comparison<E>, d: Measure<E>, c: Couple<E>) returns (e: Couple<E>)
    requires d.alike(c) && !Firm(x, d, c)
    ensures d.alike(e) && !Firm(x, d, e) && d.apart(e) <= d.apart(c) && FirmBelow(x, d, d.apart(e))
    decreases |Nearer(x, d, d.apart(c))|
  {
    if FirmBelow(x, d, d.apart(c)) {
      e := c;
    } else {
      var f :| d.alike(f) && d.apart(f) < d.apart(c) && !Firm(x, d, f);
      var i: nat, j: nat :| i < |x.before| && j < |x.after| && x.before[i] == f.0 && x.after[j] == f.1;
      assert d.apart((x.before[i], x.after[j])) in Distances(x, d);
      FewerNearer(x, d, d.apart(f), d.apart(c));
      e := NearestLoose(x, d, f);
    }
  }
}
