/** Matching two models by shape: elements of equal shape are paired nearest first,
    and each pairing is judged by how far apart the two sit. */
module GeometryMatch {
  import opened Wrappers
  import opened Vocabulary
  import opened Reals
  import opened Model3D
  import opened GreedyMatching

  const GEOMETRY_PROXIMITY := 0.02

  datatype Change = NoChange | GeometryChange | PropertyChange

  // `changed` names the properties whose values differ.
  datatype ElementDelta = ElementDelta(state: DiffState, was: Option<Element>, now: Option<Element>, change: Change, changed: seq<string>)

  datatype ModelDelta = ModelDelta(deltas: seq<ElementDelta>, matched: nat)

  function Shapes(es: seq<Element>): (s: seq<Shape>)
    requires AllTriples(es)
    ensures |s| == |es| && forall k :: 0 <= k < |es| ==> s[k] == ShapeSignature(es[k])
  {
    seq(|es|, k requires 0 <= k < |es| => ShapeSignature(es[k]))
  }

  // Squared separation allowed to a pair that counts as the same object.
  function Tolerance2(before: seq<Element>, after: seq<Element>): real
    requires AllTriples(before) && AllTriples(after)
  {
    var a, b := Diagonal2(before), Diagonal2(after);
    var scale2 := if b > a then b else a;
    Product(if scale2 == 0.0 then 1.0 else scale2, Square(GEOMETRY_PROXIMITY))
  }

  // ------------------------------------------------------------- candidates

  // A candidate pairs two elements of one shape and records their separation.
  ghost predicate IsCandidate(before: seq<Element>, after: seq<Element>, c: Candidate)
    requires AllTriples(before) && AllTriples(after)
  {
    && c.i < |before| && c.j < |after|
    && ShapeSignature(before[c.i]) == ShapeSignature(after[c.j])
    && c.gap == Dist2(Centroid(before[c.i]), Centroid(after[c.j]))
  }

  ghost predicate AllCandidates(before: seq<Element>, after: seq<Element>, cands: seq<Candidate>)
    requires AllTriples(before) && AllTriples(after)
  {
    forall c :: c in cands <==> IsCandidate(before, after, c)
  }

  method Collect(before: seq<Element>, after: seq<Element>) returns (cands: seq<Candidate>)
    requires AllTriples(before) && AllTriples(after)
    ensures AllCandidates(before, after, cands) && Functional(cands)
  {
    cands := [];
    for i := 0 to |before|
      invariant forall c :: c in cands <==> IsCandidate(before, after, c) && c.i < i
    {
      for j := 0 to |after|
        invariant forall c :: c in cands <==> IsCandidate(before, after, c) && (c.i < i || (c.i == i && c.j < j))
      {
        if ShapeSignature(after[j]) == ShapeSignature(before[i]) {
          cands := cands + [Candidate(Dist2(Centroid(before[i]), Centroid(after[j])), i, j)];
        }
      }
    }
  }

  // --------------------------------------------------------------- verdicts

  // What one old element contributes.
  function Row(before: seq<Element>, after: seq<Element>, m: map<nat, nat>, tol2: real, i: nat): seq<ElementDelta>
    requires AllTriples(before) && AllTriples(after)
  {
    if i >= |before| then []
    else if i !in m || m[i] >= |after| then [ElementDelta(Deleted, Some(before[i]), None, NoChange, [])]
    else Verdict(before[i], after[m[i]], tol2)
  }

  // A pairing judged by how far apart the two sit.
  function Verdict(o: Element, n: Element, tol2: real): seq<ElementDelta>
    requires Triples(o) && Triples(n)
  {
    if Dist2(Centroid(o), Centroid(n)) <= tol2 then [ElementDelta(Unchanged, Some(o), Some(n), NoChange, [])]
    else [ElementDelta(Deleted, Some(o), None, NoChange, []), ElementDelta(Added, None, Some(n), NoChange, [])]
  }

  // What a new element contributes on its own.
  function Extra(after: seq<Element>, used: set<nat>, j: nat): seq<ElementDelta> {
    if j >= |after| || j in used then [] else [ElementDelta(Added, None, Some(after[j]), NoChange, [])]
  }

  function Rows(before: seq<Element>, after: seq<Element>, m: map<nat, nat>, tol2: real, k: nat): seq<ElementDelta>
    requires AllTriples(before) && AllTriples(after)
  {
    if k == 0 then [] else Rows(before, after, m, tol2, k - 1) + Row(before, after, m, tol2, k - 1)
  }

  function Extras(after: seq<Element>, used: set<nat>, k: nat): seq<ElementDelta> {
    if k == 0 then [] else Extras(after, used, k - 1) + Extra(after, used, k - 1)
  }

  function Deltas(before: seq<Element>, after: seq<Element>, m: map<nat, nat>): seq<ElementDelta>
    requires AllTriples(before) && AllTriples(after)
  {
    Rows(before, after, m, Tolerance2(before, after), |before|) + Extras(after, m.Values, |after|)
  }

  // The pairing is greedy for the models' candidates.
  ghost predicate Pairing(before: seq<Element>, after: seq<Element>, m: map<nat, nat>)
    requires AllTriples(before) && AllTriples(after)
  {
    exists cands :: AllCandidates(before, after, cands) && Greedy(cands, m)
  }

  // The procedure; the pairing it settled on is returned beside the verdicts.
  method MatchByGeometry(before: seq<Element>, after: seq<Element>) returns (delta: ModelDelta, paired: map<nat, nat>)
    requires AllTriples(before) && AllTriples(after)
    ensures Pairing(before, after, paired)
    ensures delta.deltas == Deltas(before, after, paired)
    ensures delta.matched == |PairedClasses(Shapes(before), paired, |before|)|
  {
    var tol2 := Tolerance2(before, after);
    var cands := Collect(before, after);
    var used;
    paired, used := Accept(cands);
    PairedInRange(before, after, cands, paired);
    var deltas, matched := Judge(before, after, paired, tol2);
    var rest := Remaining(after, used);
    delta := ModelDelta(deltas + rest, matched);
  }

  lemma {:induction false} PairedInRange(before: seq<Element>, after: seq<Element>, cands: seq<Candidate>, m: map<nat, nat>)
    requires AllTriples(before) && AllTriples(after) && AllCandidates(before, after, cands) && Greedy(cands, m)
    ensures JoinsClasses(Shapes(before), Shapes(after), m)
  {
    forall i | i in m
      ensures i < |before| && m[i] < |after| && Shapes(before)[i] == Shapes(after)[m[i]]
    {
      var c :| c in cands && c.i == i && Holds(m, c);
      assert IsCandidate(before, after, c);
    }
  }

  // One old element judged.
  method JudgeOne(before: seq<Element>, after: seq<Element>, paired: map<nat, nat>, tol2: real, i: nat) returns (row: seq<ElementDelta>)
    requires AllTriples(before) && AllTriples(after) && i < |before| && (i in paired ==> paired[i] < |after|)
    ensures row == Row(before, after, paired, tol2, i)
  {
    if i !in paired {
      return [ElementDelta(Deleted, Some(before[i]), None, NoChange, [])];
    }
    var o, n := before[i], after[paired[i]];
    if Dist2(Centroid(o), Centroid(n)) <= tol2 {
      return [ElementDelta(Unchanged, Some(o), Some(n), NoChange, [])];
    }
    row := [ElementDelta(Deleted, Some(o), None, NoChange, []), ElementDelta(Added, None, Some(n), NoChange, [])];
  }

  lemma {:induction false} PairedOneMore<C>(left: seq<C>, m: map<nat, nat>, k: nat)
    requires k < |left|
    ensures |PairedClasses(left, m, k + 1)| == |PairedClasses(left, m, k)| + if k in m then 1 else 0
  {
  }

  method Judge(before: seq<Element>, after: seq<Element>, paired: map<nat, nat>, tol2: real)
    returns (deltas: seq<ElementDelta>, matched: nat)
    requires AllTriples(before) && AllTriples(after) && JoinsClasses(Shapes(before), Shapes(after), paired)
    ensures deltas == Rows(before, after, paired, tol2, |before|)
    ensures matched == |PairedClasses(Shapes(before), paired, |before|)|
  {
    deltas, matched := [], 0;
    for i := 0 to |before|
      invariant deltas == Rows(before, after, paired, tol2, i)
      invariant matched == |PairedClasses(Shapes(before), paired, i)|
    {
      var row := JudgeOne(before, after, paired, tol2, i);
      PairedOneMore(Shapes(before), paired, i);
      deltas := deltas + row;
      if i in paired {
        matched := matched + 1;
      }
    }
  }

  method Remaining(after: seq<Element>, used: set<nat>) returns (deltas: seq<ElementDelta>)
    ensures deltas == Extras(after, used, |after|)
  {
    deltas := [];
    for j := 0 to |after|
      invariant deltas == Extras(after, used, j)
    {
      if j !in used {
        deltas := deltas + [ElementDelta(Added, None, Some(after[j]), NoChange, [])];
      }
    }
  }
}
