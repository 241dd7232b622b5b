/** Comparable elements, whatever format they came from, and their shape keys. */
module Model3D {
  import opened Reals
  import opened Rounding

  datatype Element = Element(
    stableId: string,
    localId: string,
    name: string,
    typeName: string,
    verts: seq<real>,
    faces: seq<int>)

  type Vec = (real, real, real)

  // Vertices come in flat x, y, z triples.
  predicate Triples(e: Element) { |e.verts| % 3 == 0 }

  function AxisSum(v: seq<real>, axis: nat): real
    requires |v| % 3 == 0 && axis < 3
  {
    if v == [] then 0.0 else v[axis] + AxisSum(v[3..], axis)
  }

  function Centroid(e: Element): Vec
    requires Triples(e)
  {
    if e.verts == [] then (0.0, 0.0, 0.0)
    else
      var n := |e.verts| / 3;
      (Mean(AxisSum(e.verts, 0), n), Mean(AxisSum(e.verts, 1), n), Mean(AxisSum(e.verts, 2), n))
  }

  // The position-independent shape key. The source hashes the rounded vertices and
  // the faces; a hash free of collisions tells apart exactly what they tell apart.
  datatype Shape = NoShape | Shape(relative: seq<int>, faces: seq<int>)

  const VERTEX_GRID := 0.0001

  function Along(c: Vec, axis: int): real { if axis == 0 then c.0 else if axis == 1 then c.1 else c.2 }

  function ShapeSignature(e: Element): Shape
    requires Triples(e)
  {
    if e.verts == [] then NoShape
    else
      var c := Centroid(e);
      Shape(seq(|e.verts|, k requires 0 <= k < |e.verts| => RoundHalfEven((e.verts[k] - Along(c, k % 3)) / VERTEX_GRID)), e.faces)
  }

  function Dist2(a: Vec, b: Vec): real {
    Square(a.0 - b.0) + Square(a.1 - b.1) + Square(a.2 - b.2)
  }

  lemma {:induction false} DistanceZero(a: Vec, b: Vec)
    ensures Dist2(a, b) >= 0.0
    ensures Dist2(a, b) == 0.0 <==> a == b
  {
    SquareIsNonNegative(a.0 - b.0);
    SquareIsNonNegative(a.1 - b.1);
    SquareIsNonNegative(a.2 - b.2);
  }

  // ------------------------------------------- moving a mesh keeps its shape key

  function Moved(v: seq<real>, t: Vec): (r: seq<real>)
    ensures |r| == |v| && forall k :: 0 <= k < |v| ==> r[k] == v[k] + Along(t, k % 3)
  {
    seq(|v|, k requires 0 <= k < |v| => v[k] + Along(t, k % 3))
  }

  lemma {:induction false} MovedSum(v: seq<real>, t: Vec, axis: nat, n: nat)
    requires |v| == 3 * n && axis < 3
    ensures AxisSum(Moved(v, t), axis) == AxisSum(v, axis) + Times(n, Along(t, axis))
  {
    if n > 0 {
      assert Moved(v, t)[3..] == Moved(v[3..], t);
      MovedSum(v[3..], t, axis, n - 1);
    }
  }

  lemma {:induction false} MovedCentroid(e: Element, t: Vec, axis: nat)
    requires Triples(e) && e.verts != [] && axis < 3
    ensures Along(Centroid(e.(verts := Moved(e.verts, t))), axis) == Along(Centroid(e), axis) + Along(t, axis)
  {
    var n := |e.verts| / 3;
    MovedSum(e.verts, t, axis, n);
    MeanOfShifted(AxisSum(e.verts, axis), n, Along(t, axis));
  }

  // The same mesh in another place has the same shape key.
  lemma {:induction false} ShapeIgnoresPlace(e: Element, t: Vec)
    requires Triples(e)
    ensures ShapeSignature(e.(verts := Moved(e.verts, t))) == ShapeSignature(e)
  {
    if e.verts != [] {
      var e' := e.(verts := Moved(e.verts, t));
      var c, c' := Centroid(e), Centroid(e');
      forall k | 0 <= k < |e.verts|
        ensures e'.verts[k] - Along(c', k % 3) == e.verts[k] - Along(c, k % 3)
      {
        MovedCentroid(e, t, k % 3);
      }
      assert ShapeSignature(e').relative == ShapeSignature(e).relative;
    }
  }

  // ---------------------------------------------------------- model extent

  // Every coordinate of the model on one axis.
  function AxisValues(v: seq<real>, axis: nat): seq<real>
    requires |v| % 3 == 0 && axis < 3
  {
    if v == [] then [] else [v[axis]] + AxisValues(v[3..], axis)
  }

  predicate AllTriples(es: seq<Element>) {
    forall k :: 0 <= k < |es| ==> Triples(es[k])
  }

  function ModelValues(es: seq<Element>, axis: nat): seq<real>
    requires AllTriples(es) && axis < 3
  {
    if es == [] then [] else AxisValues(es[0].verts, axis) + ModelValues(es[1..], axis)
  }

  function Lowest(s: seq<real>): (r: real)
    requires s != []
    ensures r in s && forall x :: x in s ==> r <= x
  {
    if |s| == 1 then s[0]
    else
      assert s == [s[0]] + s[1..];
      var r := Lowest(s[1..]);
      if s[0] <= r then s[0] else r
  }

  function Highest(s: seq<real>): (r: real)
    requires s != []
    ensures r in s && forall x :: x in s ==> x <= r
  {
    if |s| == 1 then s[0]
    else
      assert s == [s[0]] + s[1..];
      var r := Highest(s[1..]);
      if s[0] >= r then s[0] else r
  }

  function Extent(s: seq<real>): real { if s == [] then 0.0 else Highest(s) - Lowest(s) }

  // The bounding box's diagonal, squared; zero for a model without vertices.
  function Diagonal2(es: seq<Element>): real
    requires AllTriples(es)
  {
    Square(Extent(ModelValues(es, 0))) + Square(Extent(ModelValues(es, 1))) + Square(Extent(ModelValues(es, 2)))
  }

  lemma {:induction false} ExtentByMembers(s: seq<real>, t: seq<real>)
    requires forall x :: x in s <==> x in t
    ensures Extent(s) == Extent(t)
  {
    if s != [] {
      var x := s[0];
      assert x in s;
      assert x in t;
    }
    if t != [] {
      var x := t[0];
      assert x in t;
      assert x in s;
    }
  }

  lemma {:induction false} ModelValueOwner(es: seq<Element>, axis: nat, x: real)
    requires AllTriples(es) && axis < 3
    ensures x in ModelValues(es, axis) <==> exists k :: 0 <= k < |es| && x in AxisValues(es[k].verts, axis)
  {
    if es != [] {
      ModelValueOwner(es[1..], axis, x);
      if x in ModelValues(es[1..], axis) {
        var k :| 0 <= k < |es[1..]| && x in AxisValues(es[1..][k].verts, axis);
        assert es[k + 1] == es[1..][k];
      }
      if k :| 0 <= k < |es| && x in AxisValues(es[k].verts, axis) {
        if k > 0 { assert es[1..][k - 1] == es[k]; }
      }
    }
  }
}
