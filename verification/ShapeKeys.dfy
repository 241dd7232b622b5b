/** What an equal shape key says about two meshes, and what the tolerance is, in terms of
    vertices alone. */
module ShapeKeys {
  import opened Vocabulary
  import opened Indexing
  import opened Reals
  import opened Rounding
  import opened Model3D
  import opened GeometryMatch
  import opened GeometryTheorems

  // ------------------------------------------------------------------- centroids

  // `c` balances the vertices: on each axis the distances to it add up to nothing.
  ghost predicate Balances(v: seq<real>, c: Vec)
    requires |v| % 3 == 0
  {
    forall axis: nat :: axis < 3 ==> BalancesAlong(v, c, axis)
  }

  ghost predicate BalancesAlong(v: seq<real>, c: Vec, axis: nat)
    requires |v| % 3 == 0 && axis < 3
  {
    AxisSum(Moved(v, (-c.0, -c.1, -c.2)), axis) == 0.0
  }

  lemma {:induction false} CentroidBalances(e: Element)
    requires Triples(e) && e.verts != []
    ensures Balances(e.verts, Centroid(e))
  {
    var n, c := |e.verts| / 3, Centroid(e);
    forall axis: nat | axis < 3 ensures BalancesAlong(e.verts, c, axis) {
      MovedSum(e.verts, (-c.0, -c.1, -c.2), axis, n);
      MeanTimes(AxisSum(e.verts, axis), n);
      TimesNegated(n, Along(c, axis));
    }
  }

  lemma {:induction false} MeanTimes(sum: real, n: nat)
    requires n > 0
    ensures Times(n, Mean(sum, n)) == sum
  {
    TimesIsProduct(n, Mean(sum, n));
    assert sum / n as real * n as real == sum;
  }

  lemma {:induction false} TimesNegated(n: nat, x: real)
    ensures Times(n, -x) == -Times(n, x)
  {
    if n > 0 {
      TimesNegated(n - 1, x);
    }
  }

  // No other point balances them.
  lemma {:induction false} BalanceIsUnique(v: seq<real>, c: Vec, d: Vec)
    requires |v| % 3 == 0 && v != [] && Balances(v, c) && Balances(v, d)
    ensures c == d
  {
    SameBalance(v, c, d, 0);
    SameBalance(v, c, d, 1);
    SameBalance(v, c, d, 2);
  }

  lemma {:induction false} SameBalance(v: seq<real>, c: Vec, d: Vec, axis: nat)
    requires |v| % 3 == 0 && v != [] && Balances(v, c) && Balances(v, d) && axis < 3
    ensures Along(c, axis) == Along(d, axis)
  {
    var n := |v| / 3;
    assert BalancesAlong(v, c, axis) && BalancesAlong(v, d, axis);
    MovedSum(v, (-c.0, -c.1, -c.2), axis, n);
    MovedSum(v, (-d.0, -d.1, -d.2), axis, n);
    SameMultiple(n, -Along(c, axis), -Along(d, axis));
  }

  lemma {:induction false} SameMultiple(n: nat, x: real, y: real)
    requires n > 0 && Times(n, x) == Times(n, y)
    ensures x == y
  {
    TimesIsProduct(n, x);
    TimesIsProduct(n, y);
    assert n as real * (x - y) == 0.0;
  }

  // ------------------------------------------------------------------ shape keys

  // How far a coordinate lies from the centroid on its axis.
  function Offset(e: Element, k: nat): real
    requires Triples(e) && k < |e.verts|
  {
    e.verts[k] - Along(Centroid(e), k % 3)
  }

  // The same mesh in two places, as far as a grid of a ten-thousandth tells: the same
  // faces over vertices that lie alike about their centroids.
  ghost predicate Translates(a: Element, b: Element)
    requires Triples(a) && Triples(b)
  {
    && |a.verts| == |b.verts| && (a.verts != [] ==> a.faces == b.faces)
    && forall k: nat :: k < |a.verts| ==> -0.0001 <= Offset(a, k) - Offset(b, k) <= 0.0001
  }

  lemma {:induction false} SameStep(x: real, y: real)
    requires RoundHalfEven(x / VERTEX_GRID) == RoundHalfEven(y / VERTEX_GRID)
    ensures -0.0001 <= x - y <= 0.0001
  {
    RoundError(x / VERTEX_GRID);
    RoundError(y / VERTEX_GRID);
    assert x == x / VERTEX_GRID * VERTEX_GRID && y == y / VERTEX_GRID * VERTEX_GRID;
  }

  // Equal keys mean translates.
  lemma {:induction false} EqualKeysAreTranslates(a: Element, b: Element)
    requires Triples(a) && Triples(b) && ShapeSignature(a) == ShapeSignature(b)
    ensures Translates(a, b)
  {
    if a.verts != [] && b.verts != [] {
      var s, t := ShapeSignature(a).relative, ShapeSignature(b).relative;
      assert |s| == |a.verts| && |t| == |b.verts|;
      forall k: nat | k < |a.verts| ensures -0.0001 <= Offset(a, k) - Offset(b, k) <= 0.0001 {
        assert s[k] == t[k];
        SameStep(Offset(a, k), Offset(b, k));
      }
    }
  }

  // And meshes that lie exactly alike about their centroids have equal keys; without
  // vertices, whatever their faces.
  lemma {:induction false} ExactTranslatesHaveEqualKeys(a: Element, b: Element)
    requires Triples(a) && Triples(b) && |a.verts| == |b.verts| && (a.verts != [] ==> a.faces == b.faces)
    requires forall k: nat :: k < |a.verts| ==> Offset(a, k) == Offset(b, k)
    ensures ShapeSignature(a) == ShapeSignature(b)
  {
    if a.verts != [] {
      assert ShapeSignature(a).relative == ShapeSignature(b).relative by {
        forall k: nat | k < |a.verts| ensures ShapeSignature(a).relative[k] == ShapeSignature(b).relative[k] {
          assert Offset(a, k) == Offset(b, k);
        }
      }
    }
  }

  // Whatever the matcher pairs is such a mesh in two places.
  lemma {:induction false} PairsAreTranslates(before: seq<Element>, after: seq<Element>, m: map<nat, nat>, i: nat)
    requires AllTriples(before) && AllTriples(after) && Pairing(before, after, m) && i in m
    ensures i < |before| && m[i] < |after| && Translates(before[i], after[m[i]])
  {
    PairingJoins(before, after, m);
    assert Shapes(before)[i] == Shapes(after)[m[i]];
    EqualKeysAreTranslates(before[i], after[m[i]]);
  }

  // What it reports unchanged is one, no farther off than the tolerance.
  ghost predicate StaysPut(tol2: real, d: ElementDelta) {
    d.state == Unchanged ==>
      && d.was.Some? && d.now.Some? && Triples(d.was.value) && Triples(d.now.value)
      && Translates(d.was.value, d.now.value) && Dist2(Centroid(d.was.value), Centroid(d.now.value)) <= tol2
  }

  lemma {:induction false} GatheredFrom<T>(f: nat -> seq<T>, k: nat, x: T)
    requires x in Gathered(f, k)
    ensures exists i: nat :: i < k && x in f(i)
  {
    if x in Gathered(f, k - 1) {
      GatheredFrom(f, k - 1, x);
    }
  }

  lemma {:induction false} RowsStayPut(before: seq<Element>, after: seq<Element>, m: map<nat, nat>, tol2: real, d: ElementDelta)
    requires AllTriples(before) && AllTriples(after) && Pairing(before, after, m)
    requires d in Rows(before, after, m, tol2, |before|)
    ensures StaysPut(tol2, d)
  {
    var f := (i: nat) => Row(before, after, m, tol2, i);
    RowsAreGathered(before, after, m, tol2, f, |before|);
    GatheredFrom(f, |before|, d);
    var i: nat :| i < |before| && d in f(i);
    RowStaysPut(before, after, m, tol2, i);
  }

  lemma {:induction false} RowStaysPut(before: seq<Element>, after: seq<Element>, m: map<nat, nat>, tol2: real, i: nat)
    requires AllTriples(before) && AllTriples(after) && Pairing(before, after, m) && i < |before|
    ensures forall d :: d in Row(before, after, m, tol2, i) ==> StaysPut(tol2, d)
  {
    if i in m {
      PairsAreTranslates(before, after, m, i);
    }
  }

  lemma {:induction false} UnchangedIsTranslate(before: seq<Element>, after: seq<Element>, m: map<nat, nat>, d: ElementDelta)
    requires AllTriples(before) && AllTriples(after) && Pairing(before, after, m)
    requires d in Deltas(before, after, m)
    ensures StaysPut(Tolerance2(before, after), d)
  {
    PairingJoins(before, after, m);
    ExtrasCount(before, after, m);
    if d in Rows(before, after, m, Tolerance2(before, after), |before|) {
      RowsStayPut(before, after, m, Tolerance2(before, after), d);
    }
  }

  // ------------------------------------------------------------------- tolerance

  lemma {:induction false} AxisValueAt(v: seq<real>, axis: nat, x: real)
    requires |v| % 3 == 0 && axis < 3
    ensures x in AxisValues(v, axis) <==> exists k :: 0 <= k < |v| && k % 3 == axis && v[k] == x
  {
    if v != [] {
      AxisValueAt(v[3..], axis, x);
      forall k | 3 <= k < |v| && k % 3 == axis && v[k] == x ensures x in AxisValues(v[3..], axis) {
        assert v[3..][k - 3] == x && (k - 3) % 3 == axis;
      }
      if x in AxisValues(v[3..], axis) {
        var k :| 0 <= k < |v[3..]| && k % 3 == axis && v[3..][k] == x;
        assert v[k + 3] == x && (k + 3) % 3 == axis;
      }
      if v[axis] == x {
        assert axis % 3 == axis;
      }
    }
  }

  // A coordinate some element has on this axis.
  ghost predicate HasCoordinate(es: seq<Element>, axis: nat, x: real) {
    exists i, k :: 0 <= i < |es| && 0 <= k < |es[i].verts| && k % 3 == axis && es[i].verts[k] == x
  }

  lemma {:induction false} CoordinateIsValue(es: seq<Element>, axis: nat, x: real)
    requires AllTriples(es) && axis < 3
    ensures HasCoordinate(es, axis, x) <==> x in ModelValues(es, axis)
  {
    ModelValueOwner(es, axis, x);
    if i, k :| 0 <= i < |es| && 0 <= k < |es[i].verts| && k % 3 == axis && es[i].verts[k] == x {
      AxisValueAt(es[i].verts, axis, x);
    }
    if i :| 0 <= i < |es| && x in AxisValues(es[i].verts, axis) {
      AxisValueAt(es[i].verts, axis, x);
    }
  }

  // `w` is the width of the model on this axis: no two coordinates are farther apart,
  // and some are as far; nothing at all is as wide as nothing.
  ghost predicate Spans(es: seq<Element>, axis: nat, w: real) {
    && (forall x, y :: HasCoordinate(es, axis, x) && HasCoordinate(es, axis, y) ==> x - y <= w)
    && (if exists x :: HasCoordinate(es, axis, x) then exists x, y :: HasCoordinate(es, axis, x) && HasCoordinate(es, axis, y) && x - y == w
        else w == 0.0)
  }

  lemma {:induction false} ExtentSpans(es: seq<Element>, axis: nat)
    requires AllTriples(es) && axis < 3
    ensures Spans(es, axis, Extent(ModelValues(es, axis)))
  {
    var vs := ModelValues(es, axis);
    forall x ensures HasCoordinate(es, axis, x) <==> x in vs {
      CoordinateIsValue(es, axis, x);
    }
    if vs != [] {
      assert HasCoordinate(es, axis, Highest(vs)) && HasCoordinate(es, axis, Lowest(vs));
    }
  }

  // The squared diagonal of a model with these widths.
  ghost predicate HasDiagonal2(es: seq<Element>, d2: real) {
    exists x, y, z :: Spans(es, 0, x) && Spans(es, 1, y) && Spans(es, 2, z) && d2 == x * x + y * y + z * z
  }

  lemma {:induction false} DiagonalOfWidths(es: seq<Element>)
    requires AllTriples(es)
    ensures HasDiagonal2(es, Diagonal2(es))
  {
    ExtentSpans(es, 0);
    ExtentSpans(es, 1);
    ExtentSpans(es, 2);
    FromWidths(es, Extent(ModelValues(es, 0)), Extent(ModelValues(es, 1)), Extent(ModelValues(es, 2)));
  }

  lemma {:induction false} FromWidths(es: seq<Element>, x: real, y: real, z: real)
    requires Spans(es, 0, x) && Spans(es, 1, y) && Spans(es, 2, z)
    ensures HasDiagonal2(es, Square(x) + Square(y) + Square(z))
  {
    assert Square(x) + Square(y) + Square(z) == x * x + y * y + z * z;
  }

  // Two hundredths of the larger model's diagonal, or of one unit where both are points.
  lemma {:induction false} ToleranceOfDiagonals(before: seq<Element>, after: seq<Element>)
    requires AllTriples(before) && AllTriples(after)
    ensures exists a, b :: HasDiagonal2(before, a) && HasDiagonal2(after, b)
              && var larger := if a >= b then a else b;
                 Tolerance2(before, after) == (if larger == 0.0 then 1.0 else larger) * 0.0004
  {
    DiagonalOfWidths(before);
    DiagonalOfWidths(after);
    var a, b := Diagonal2(before), Diagonal2(after);
    assert Square(GEOMETRY_PROXIMITY) == 0.0004;
    assert HasDiagonal2(before, a) && HasDiagonal2(after, b);
  }
}
