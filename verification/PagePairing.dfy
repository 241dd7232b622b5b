/** Which page of the old document each page of the new one is compared with. */
module PagePairing {
  import opened Wrappers
  import opened Indexing
  import opened Sorting
  import Lcs

  // Stands in for an absent page number in the sort key.
  const NO_PAGE := 1_000_000

  // (old page, new page); a missing side is a deleted or an added page.
  type Entry = (Option<nat>, Option<nat>)

  function NewKey(x: Entry): nat { if x.1.Some? then x.1.value else NO_PAGE }

  function OldKey(x: Entry): nat { if x.0.Some? then x.0.value else NO_PAGE }

  predicate KeyOrder(x: Entry, y: Entry) {
    NewKey(x) < NewKey(y) || (NewKey(x) == NewKey(y) && OldKey(x) <= OldKey(y))
  }

  function Zip(left: seq<nat>, right: seq<nat>): (p: Pairs)
    ensures |p| == if |left| <= |right| then |left| else |right|
    ensures forall k :: 0 <= k < |p| ==> p[k] == (left[k], right[k])
  {
    seq(if |left| <= |right| then |left| else |right|, k requires 0 <= k < |left| && k < |right| => (left[k], right[k]))
  }

  // Aligned pages, then the leftovers of both sides paired off in document order.
  function Corresponding<F(==)>(before: seq<F>, after: seq<F>): Pairs {
    var p := Lcs.Aligned(before, after);
    p + Zip(Others(|before|, ToSet(Firsts(p))), Others(|after|, ToSet(Seconds(p))))
  }

  function Kept(p: Pairs): (e: seq<Entry>)
    ensures |e| == |p| && forall k :: 0 <= k < |p| ==> e[k] == (Some(p[k].0), Some(p[k].1))
  {
    seq(|p|, k requires 0 <= k < |p| => (Some(p[k].0), Some(p[k].1)))
  }

  function DeletedPages(at: seq<nat>): (e: seq<Entry>)
    ensures |e| == |at| && forall k :: 0 <= k < |at| ==> e[k] == (Some(at[k]), None)
  {
    seq(|at|, k requires 0 <= k < |at| => (Some(at[k]), None))
  }

  function AddedPages(at: seq<nat>): (e: seq<Entry>)
    ensures |e| == |at| && forall k :: 0 <= k < |at| ==> e[k] == (None, Some(at[k]))
  {
    seq(|at|, k requires 0 <= k < |at| => (None, Some(at[k])))
  }

  function Entries(n: nat, m: nat, p: Pairs): seq<Entry> {
    Kept(p) + DeletedPages(Others(n, ToSet(Firsts(p)))) + AddedPages(Others(m, ToSet(Seconds(p))))
  }

  function Ordered(n: nat, m: nat, p: Pairs): seq<Entry> {
    Sort(Entries(n, m, p), KeyOrder)
  }

  function Correspondence<F(==)>(before: seq<F>, after: seq<F>): seq<Entry> {
    Ordered(|before|, |after|, Corresponding(before, after))
  }

  // The procedure, over the per-page fingerprints.
  method PairPages<F(==)>(before: seq<F>, after: seq<F>) returns (out: seq<Entry>)
    ensures out == Correspondence(before, after)
  {
    var pairs := Lcs.LcsPairs(before, after);
    var matchedBefore, matchedAfter := ToSet(Firsts(pairs)), ToSet(Seconds(pairs));
    var left := Unpaired(|before|, matchedBefore);
    var right := Unpaired(|after|, matchedAfter);
    pairs, matchedBefore, matchedAfter := AddZipped(pairs, left, right);
    var deleted := Unpaired(|before|, matchedBefore);
    var added := Unpaired(|after|, matchedAfter);
    out := Sort(Kept(pairs) + DeletedPages(deleted) + AddedPages(added), KeyOrder);
  }

  method AddZipped(aligned: Pairs, left: seq<nat>, right: seq<nat>)
    returns (pairs: Pairs, matchedBefore: set<nat>, matchedAfter: set<nat>)
    ensures pairs == aligned + Zip(left, right)
    ensures matchedBefore == ToSet(Firsts(pairs)) && matchedAfter == ToSet(Seconds(pairs))
  {
    pairs, matchedBefore, matchedAfter := aligned, ToSet(Firsts(aligned)), ToSet(Seconds(aligned));
    var k := 0;
    while k < |left| && k < |right|
      invariant k <= |Zip(left, right)|
      invariant pairs == aligned + Zip(left, right)[..k]
      invariant matchedBefore == ToSet(Firsts(pairs)) && matchedAfter == ToSet(Seconds(pairs))
    {
      var x := (left[k], right[k]);
      assert Firsts(pairs + [x]) == Firsts(pairs) + [x.0] && Seconds(pairs + [x]) == Seconds(pairs) + [x.1];
      pairs := pairs + [x];
      matchedBefore, matchedAfter := matchedBefore + {x.0}, matchedAfter + {x.1};
      k := k + 1;
    }
  }

  method Unpaired(n: nat, taken: set<nat>) returns (rest: seq<nat>)
    ensures rest == Others(n, taken)
  {
    rest := [];
    for i := 0 to n
      invariant rest == Others(i, taken)
    {
      if i !in taken {
        rest := rest + [i];
      }
    }
  }

  // ------------------------------------------------------------------- shape

  lemma {:induction false} ZipIsOneToOne(left: seq<nat>, right: seq<nat>)
    requires NoDuplicates(left) && NoDuplicates(right)
    ensures OneToOne(Zip(left, right))
    ensures forall x :: x in Firsts(Zip(left, right)) ==> x in left
    ensures forall x :: x in Seconds(Zip(left, right)) ==> x in right
  {
  }

  // One to one, and one side is used up completely.
  ghost predicate Full(n: nat, m: nat, p: Pairs) {
    OneToOne(p) && InRange(p, n, m) && |p| == if n <= m then n else m
  }

  lemma {:induction false} CorrespondingIsFull<F>(before: seq<F>, after: seq<F>)
    ensures Full(|before|, |after|, Corresponding(before, after))
  {
    Lcs.AlignedIsValid(before, after);
    ZippingFillsUp(|before|, |after|, Lcs.Aligned(before, after));
  }

  lemma {:induction false} ZippingFillsUp(n: nat, m: nat, p: Pairs)
    requires OneToOne(p) && InRange(p, n, m)
    ensures Full(n, m, p + Zip(Others(n, ToSet(Firsts(p))), Others(m, ToSet(Seconds(p)))))
  {
    var left, right := Others(n, ToSet(Firsts(p))), Others(m, ToSet(Seconds(p)));
    Partition(n, Firsts(p));
    Partition(m, Seconds(p));
    ZipIsOneToOne(left, right);
    ConcatIsOneToOne(p, Zip(left, right));
  }

  ghost predicate Ascending(s: seq<nat>) {
    forall i, j :: 0 <= i < j < |s| ==> s[i] <= s[j]
  }

  lemma {:induction false} HeadIsLeast(s: seq<nat>, x: nat)
    requires Ascending(s) && x in s
    ensures s[0] <= x
  {
  }

  lemma {:induction false} SameMembers<T>(s: seq<T>, t: seq<T>)
    requires multiset(s) == multiset(t)
    ensures |s| == |t| && forall x :: x in s <==> x in t
  {
    assert |multiset(s)| == |multiset(t)|;
    forall x ensures x in s <==> x in t {
      assert x in multiset(s) <==> x in multiset(t);
    }
  }

  // Two ascending lists of the same numbers are the same list.
  lemma {:induction false} AscendingIsUnique(s: seq<nat>, t: seq<nat>)
    requires multiset(s) == multiset(t) && Ascending(s) && Ascending(t)
    ensures s == t
  {
    SameMembers(s, t);
    if s != [] {
      LeastsAgree(s, t);
      TailsAgree(s, t);
      TailAscends(s);
      TailAscends(t);
      AscendingIsUnique(s[1..], t[1..]);
      assert s == [s[0]] + s[1..] && t == [t[0]] + t[1..];
    }
  }

  lemma {:induction false} LeastsAgree(s: seq<nat>, t: seq<nat>)
    requires s != [] && t != [] && Ascending(s) && Ascending(t)
    requires s[0] in t && t[0] in s
    ensures s[0] == t[0]
  {
    HeadIsLeast(s, t[0]);
    HeadIsLeast(t, s[0]);
  }

  lemma {:induction false} TailsAgree<T>(s: seq<T>, t: seq<T>)
    requires s != [] && t != [] && s[0] == t[0] && multiset(s) == multiset(t)
    ensures multiset(s[1..]) == multiset(t[1..])
  {
    assert s == [s[0]] + s[1..] && t == [t[0]] + t[1..];
    assert multiset(s[1..]) == multiset(s) - multiset{s[0]};
    assert multiset(t[1..]) == multiset(t) - multiset{t[0]};
  }

  lemma {:induction false} TailAscends(s: seq<nat>)
    requires s != [] && Ascending(s)
    ensures Ascending(s[1..])
  {
  }

  lemma {:induction false} KeyOrderIsTotal()
    ensures TotalPreorder(KeyOrder)
  {
  }

  // How many old pages are left without a partner.
  function Surplus(n: nat, m: nat): nat { if n <= m then 0 else n - m }

  // The new-page keys of the unsorted entries: every new page once, and one
  // stand-in for each deleted page.
  lemma {:induction false} EntryKeys(n: nat, m: nat, p: Pairs)
    requires Full(n, m, p)
    ensures multiset(MapSeq(NewKey, Entries(n, m, p))) == multiset(Range(m) + Repeated(NO_PAGE, Surplus(n, m)))
  {
    var gone, come := Others(n, ToSet(Firsts(p))), Others(m, ToSet(Seconds(p)));
    var pad := Repeated(NO_PAGE, |gone|);
    Partition(n, Firsts(p));
    Partition(m, Seconds(p));
    KeysOfEntries(n, m, p);
    ThreeParts(Seconds(p), pad, come, Range(m));
    assert |gone| == Surplus(n, m);
  }

  lemma {:induction false} KeysOfEntries(n: nat, m: nat, p: Pairs)
    ensures MapSeq(NewKey, Entries(n, m, p))
            == Seconds(p) + Repeated(NO_PAGE, |Others(n, ToSet(Firsts(p)))|) + Others(m, ToSet(Seconds(p)))
  {
  }

  lemma {:induction false} ThreeParts(a: seq<nat>, pad: seq<nat>, b: seq<nat>, whole: seq<nat>)
    requires multiset(a) + multiset(b) == multiset(whole)
    ensures multiset(a + pad + b) == multiset(whole + pad)
  {
    assert multiset(a + pad + b) == multiset(a) + multiset(pad) + multiset(b);
  }

  lemma {:induction false} OrderedKeysAscend(n: nat, m: nat, p: Pairs)
    ensures Ascending(MapSeq(NewKey, Ordered(n, m, p)))
  {
    var s := Ordered(n, m, p);
    KeyOrderIsTotal();
    SortOrders(Entries(n, m, p), KeyOrder);
    forall i, j | 0 <= i < j < |s| ensures NewKey(s[i]) <= NewKey(s[j]) {
      assert KeyOrder(s[i], s[j]);
    }
  }

  // New page j is entry j; the deleted pages follow.
  lemma {:induction false} NewPagesInOrder(n: nat, m: nat, p: Pairs)
    requires (m <= NO_PAGE || n <= m) && Full(n, m, p)
    ensures MapSeq(NewKey, Ordered(n, m, p)) == Range(m) + Repeated(NO_PAGE, Surplus(n, m))
  {
    EntryKeys(n, m, p);
    PermutedMap(NewKey, Entries(n, m, p), Ordered(n, m, p));
    OrderedKeysAscend(n, m, p);
    PaddedAscends(m, Surplus(n, m));
    AscendingIsUnique(MapSeq(NewKey, Ordered(n, m, p)), Range(m) + Repeated(NO_PAGE, Surplus(n, m)));
  }

  lemma {:induction false} PaddedAscends(m: nat, extra: nat)
    requires m <= NO_PAGE || extra == 0
    ensures Ascending(Range(m) + Repeated(NO_PAGE, extra))
  {
  }

  // An entry of the correspondence, before sorting or after.
  ghost predicate ValidEntry(n: nat, m: nat, p: Pairs, x: Entry) {
    match x
    case (Some(i), Some(j)) => (i, j) in p
    case (Some(i), None) => i < n && i !in Firsts(p)
    case (None, Some(j)) => j < m && j !in Seconds(p)
    case (None, None) => false
  }

  lemma {:induction false} EveryEntryIsValid(n: nat, m: nat, p: Pairs, k: nat)
    requires k < |Ordered(n, m, p)|
    ensures ValidEntry(n, m, p, Ordered(n, m, p)[k])
  {
    SortedElement(Entries(n, m, p), KeyOrder, k);
    var l :| 0 <= l < |Entries(n, m, p)| && Entries(n, m, p)[l] == Ordered(n, m, p)[k];
    EntryIsValid(n, m, p, l);
  }

  lemma {:induction false} EntryIsValid(n: nat, m: nat, p: Pairs, l: nat)
    requires l < |Entries(n, m, p)|
    ensures ValidEntry(n, m, p, Entries(n, m, p)[l])
  {
    var gone, come := Others(n, ToSet(Firsts(p))), Others(m, ToSet(Seconds(p)));
    if l < |p| {
      assert p[l] in p;
    } else if l < |p| + |gone| {
      assert gone[l - |p|] in gone;
    } else {
      assert come[l - |p| - |gone|] in come;
    }
  }

  function Somes(s: seq<nat>): seq<Option<nat>> { MapSeq((x: nat) => Some(x), s) }

  lemma {:induction false} SomesOfTail(s: seq<nat>)
    requires s != []
    ensures Somes(s) == [Some(s[0])] + Somes(s[1..])
  {
  }

  lemma {:induction false} SomeCount(s: seq<nat>, i: nat)
    ensures multiset(Somes(s))[Some(i)] == multiset(s)[i]
  {
    if s != [] {
      assert s == [s[0]] + s[1..];
      SomesOfTail(s);
      ConcatCount([s[0]], s[1..], i);
      ConcatCount([Some(s[0])], Somes(s[1..]), Some(i));
      SomeCount(s[1..], i);
    }
  }

  function Old(x: Entry): Option<nat> { x.0 }

  // Every old page appears in exactly one entry.
  lemma {:induction false} OldPageOnce(n: nat, m: nat, p: Pairs, i: nat)
    requires Full(n, m, p) && i < n
    ensures multiset(MapSeq(Old, Ordered(n, m, p)))[Some(i)] == 1
  {
    PermutedMap(Old, Entries(n, m, p), Ordered(n, m, p));
    OldEntryOnce(n, m, p, i);
  }

  lemma {:induction false} OldEntryOnce(n: nat, m: nat, p: Pairs, i: nat)
    requires Full(n, m, p) && i < n
    ensures multiset(MapSeq(Old, Entries(n, m, p)))[Some(i)] == 1
  {
    var gone, come := Others(n, ToSet(Firsts(p))), Others(m, ToSet(Seconds(p)));
    OldSides(n, m, p, i);
    SomeCount(Firsts(p) + gone, i);
    ConcatCount(Firsts(p), gone, i);
    Partition(n, Firsts(p));
    ConcatCount(Range(n), [], i);
    CountInDistinct(Range(n), i);
    assert Range(n)[i] == i;
  }

  lemma {:induction false} OldSides(n: nat, m: nat, p: Pairs, i: nat)
    ensures multiset(MapSeq(Old, Entries(n, m, p)))[Some(i)]
            == multiset(Somes(Firsts(p) + Others(n, ToSet(Firsts(p)))))[Some(i)]
  {
    var gone, come := Others(n, ToSet(Firsts(p))), Others(m, ToSet(Seconds(p)));
    var somes := Somes(Firsts(p) + gone);
    var nones := MapSeq(Old, AddedPages(come));
    assert MapSeq(Old, Entries(n, m, p)) == somes + nones;
    ConcatCount(somes, nones, Some(i));
    NoSome(nones, i);
  }

  lemma {:induction false} ConcatCount<T>(s: seq<T>, t: seq<T>, x: T)
    ensures multiset(s + t)[x] == multiset(s)[x] + multiset(t)[x]
  {
  }

  lemma {:induction false} NoSome(s: seq<Option<nat>>, i: nat)
    requires forall k :: 0 <= k < |s| ==> s[k].None?
    ensures multiset(s)[Some(i)] == 0
  {
    assert Some(i) !in s;
  }

  lemma {:induction false} DeletedAscend(n: nat, m: nat, p: Pairs, k: nat, l: nat)
    requires Full(n, m, p) && k < l < |Ordered(n, m, p)|
    requires var x, y := Ordered(n, m, p)[k], Ordered(n, m, p)[l]; x.1.None? && y.1.None? && x.0.Some? && y.0.Some?
    ensures Ordered(n, m, p)[k].0.value < Ordered(n, m, p)[l].0.value
  {
    var out := Ordered(n, m, p);
    KeyOrderIsTotal();
    SortOrders(Entries(n, m, p), KeyOrder);
    assert KeyOrder(out[k], out[l]);
    if out[k].0 == out[l].0 {
      EveryEntryIsValid(n, m, p, k);
      OldPageOnce(n, m, p, out[k].0.value);
      TwoPositions(MapSeq(Old, out), k, l);
    }
  }

  // The shorter side has no leftovers.
  lemma {:induction false} ShorterSideIsUsedUp(n: nat, m: nat, p: Pairs)
    requires Full(n, m, p)
    ensures n <= m ==> Others(n, ToSet(Firsts(p))) == []
    ensures m <= n ==> Others(m, ToSet(Seconds(p))) == []
  {
    Partition(n, Firsts(p));
    Partition(m, Seconds(p));
  }

  lemma {:induction false} NeverBoth(n: nat, m: nat, p: Pairs, k: nat)
    requires Full(n, m, p) && k < |Ordered(n, m, p)|
    ensures n <= m ==> Ordered(n, m, p)[k].1.Some?
    ensures m <= n ==> Ordered(n, m, p)[k].0.Some?
  {
    EveryEntryIsValid(n, m, p, k);
    ShorterSideIsUsedUp(n, m, p);
    var x := Ordered(n, m, p)[k];
    if x.1.None? {
      assert x.0.value in Others(n, ToSet(Firsts(p)));
    } else if x.0.None? {
      assert x.1.value in Others(m, ToSet(Seconds(p)));
    }
  }

  // The shape of a correspondence. There is one entry for each page of the longer
  // document; entry j is new page j; after the new pages come the deleted ones in
  // ascending order; every old page appears once; and one document's leftovers are
  // always used up, so a page is never deleted in one entry and added in another.
  ghost predicate Shapely(n: nat, m: nat, out: seq<Entry>) {
    && |out| == m + Surplus(n, m)
    && (forall j: nat :: j < m ==> out[j].1 == Some(j))
    && (forall k :: m <= k < |out| ==> out[k].1.None? && out[k].0.Some?)
    && (forall k, l :: m <= k < l < |out| ==> out[k].0.value < out[l].0.value)
    && (forall i: nat :: i < n ==> multiset(MapSeq(Old, out))[Some(i)] == 1)
    && (forall k :: 0 <= k < |out| ==> (n <= m ==> out[k].1.Some?) && (m <= n ==> out[k].0.Some?))
  }

  // A correspondence has that shape exactly when no new page's number is beyond the
  // stand-in, or no page is deleted.
  lemma {:induction false} CorrespondenceShape<F>(before: seq<F>, after: seq<F>)
    ensures Shapely(|before|, |after|, Correspondence(before, after)) <==> |after| <= NO_PAGE + 1 || |before| <= |after|
  {
    var n, m, p := |before|, |after|, Corresponding(before, after);
    CorrespondingIsFull(before, after);
    if m <= NO_PAGE || n <= m {
      NewPagesFirst(n, m, p);
      OrderedShape(n, m, p);
    } else if m == NO_PAGE + 1 {
      PairedByPosition(before, after);
      EdgePagesFirst(n, m, p);
      OrderedShape(n, m, p);
    } else {
      ShapeFailsBeyond(before, after);
    }
  }

  // The new pages in order, then entries without one.
  ghost predicate NewFirst(m: nat, out: seq<Entry>) {
    forall k :: 0 <= k < |out| ==> out[k].1 == if k < m then Some(k) else None
  }

  lemma {:induction false} NewPagesFirst(n: nat, m: nat, p: Pairs)
    requires (m <= NO_PAGE || n <= m) && Full(n, m, p)
    ensures |Ordered(n, m, p)| == m + Surplus(n, m) && NewFirst(m, Ordered(n, m, p))
  {
    var out := Ordered(n, m, p);
    NewPagesInOrder(n, m, p);
    var keys := MapSeq(NewKey, out);
    forall k | 0 <= k < |out| ensures out[k].1 == if k < m then Some(k) else None {
      assert keys[k] == NewKey(out[k]);
      EveryEntryIsValid(n, m, p, k);
      NeverBoth(n, m, p, k);
      EntryInRange(n, m, p, out[k]);
    }
  }

  // With more than a million new pages and more old ones the table is over its cap, so
  // pages are paired by position.
  lemma {:induction false} PairedByPosition<F>(before: seq<F>, after: seq<F>)
    requires |before| > |after| > NO_PAGE
    ensures Corresponding(before, after) == Zip(Range(|before|), Range(|after|))
  {
    var n, m := |before|, |after|;
    assert n * m >= NO_PAGE * NO_PAGE;
    assert Lcs.Aligned(before, after) == [];
    assert ToSet(Firsts([])) == {} && ToSet(Seconds([])) == {};
    NothingTaken(n);
    NothingTaken(m);
  }

  // The entries are then in order as they stand, the last new page's number being the
  // stand-in itself.
  lemma {:induction false} EdgePagesFirst(n: nat, m: nat, p: Pairs)
    requires n > m == NO_PAGE + 1 && Full(n, m, p) && p == Zip(Range(n), Range(m))
    ensures |Ordered(n, m, p)| == m + Surplus(n, m) && NewFirst(m, Ordered(n, m, p))
  {
    var gone := Others(n, ToSet(Firsts(p)));
    ShorterSideIsUsedUp(n, m, p);
    Partition(n, Firsts(p));
    forall i: nat | i < m ensures i in Firsts(p) {
      assert Firsts(p)[i] == i;
    }
    forall k | 0 <= k < |gone| ensures gone[k] >= m {
      assert gone[k] in gone;
    }
    InOrderAlready(m, p, gone);
    assert Entries(n, m, p) == Kept(p) + DeletedPages(gone);
    SortIsStableOnSorted(Entries(n, m, p), KeyOrder);
  }

  lemma {:induction false} InOrderAlready(m: nat, p: Pairs, gone: seq<nat>)
    requires m == NO_PAGE + 1 && |p| == m && forall k :: 0 <= k < m ==> p[k] == (k, k)
    requires (forall k :: 0 <= k < |gone| ==> gone[k] >= m) && forall k, l :: 0 <= k < l < |gone| ==> gone[k] < gone[l]
    ensures Sorted(Kept(p) + DeletedPages(gone), KeyOrder)
  {
    var e := Kept(p) + DeletedPages(gone);
    assert forall k :: 0 <= k < |e| ==> e[k] == if k < m then (Some(k), Some(k)) else (Some(gone[k - m]), None);
  }

  lemma {:induction false} OrderedShape(n: nat, m: nat, p: Pairs)
    requires Full(n, m, p) && |Ordered(n, m, p)| == m + Surplus(n, m) && NewFirst(m, Ordered(n, m, p))
    ensures Shapely(n, m, Ordered(n, m, p))
  {
    var out := Ordered(n, m, p);
    forall k | 0 <= k < |out|
      ensures k >= m ==> out[k].0.Some?
      ensures (n <= m ==> out[k].1.Some?) && (m <= n ==> out[k].0.Some?)
    {
      EveryEntryIsValid(n, m, p, k);
      NeverBoth(n, m, p, k);
    }
    forall k, l | m <= k < l < |out| ensures out[k].0.value < out[l].0.value {
      DeletedAscend(n, m, p, k, l);
    }
    forall i: nat | i < n ensures multiset(MapSeq(Old, out))[Some(i)] == 1 {
      OldPageOnce(n, m, p, i);
    }
  }

  lemma {:induction false} EntryInRange(n: nat, m: nat, p: Pairs, x: Entry)
    requires InRange(p, n, m) && ValidEntry(n, m, p, x)
    ensures (x.0.Some? ==> x.0.value < n) && (x.1.Some? ==> x.1.value < m)
  {
  }

  // Beyond the stand-in number deleted pages sort in among the new ones, and the
  // entries behind them are off.
  lemma {:induction false} ShapeFailsBeyond<F>(before: seq<F>, after: seq<F>)
    requires |before| > |after| > NO_PAGE + 1
    ensures |Correspondence(before, after)| == |before|
    ensures Correspondence(before, after)[NO_PAGE + 1].1 != Some(NO_PAGE + 1)
  {
    var n, m, p := |before|, |after|, Corresponding(before, after);
    CorrespondingIsFull(before, after);
    KeysBeyond(n, m, p);
    var keys := MapSeq(NewKey, Ordered(n, m, p));
    assert keys[NO_PAGE + 1] == NO_PAGE;
  }

  // All of 0, 1, ..., m - 1 with `pad` put in after the first `k`.
  function Spliced(m: nat, k: nat, pad: seq<nat>): seq<nat>
    requires k <= m
  {
    Range(m)[..k] + pad + Range(m)[k..]
  }

  lemma {:induction false} SplicedMultiset(m: nat, k: nat, pad: seq<nat>)
    requires k <= m
    ensures multiset(Spliced(m, k, pad)) == multiset(Range(m) + pad)
  {
    assert Range(m) == Range(m)[..k] + Range(m)[k..];
    ThreeParts(Range(m)[..k], pad, Range(m)[k..], Range(m));
  }

  lemma {:induction false} SplicedAscends(m: nat, k: nat, pad: seq<nat>)
    requires 0 < k <= m && forall i :: 0 <= i < |pad| ==> pad[i] == k - 1
    ensures Ascending(Spliced(m, k, pad))
  {
    var s := Spliced(m, k, pad);
    forall i | 0 <= i < |s| ensures s[i] == if i < k then i else if i < k + |pad| then k - 1 else i - |pad| {
    }
  }

  lemma {:induction false} KeysBeyond(n: nat, m: nat, p: Pairs)
    requires n > m > NO_PAGE + 1 && Full(n, m, p)
    ensures MapSeq(NewKey, Ordered(n, m, p)) == Spliced(m, NO_PAGE + 1, Repeated(NO_PAGE, n - m))
  {
    EntryKeys(n, m, p);
    PermutedMap(NewKey, Entries(n, m, p), Ordered(n, m, p));
    OrderedKeysAscend(n, m, p);
    SplicedMultiset(m, NO_PAGE + 1, Repeated(NO_PAGE, n - m));
    SplicedAscends(m, NO_PAGE + 1, Repeated(NO_PAGE, n - m));
    AscendingIsUnique(MapSeq(NewKey, Ordered(n, m, p)), Spliced(m, NO_PAGE + 1, Repeated(NO_PAGE, n - m)));
  }
}
