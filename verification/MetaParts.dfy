/** What the merged file and its object tree show of each delta, told from the delta. */
module MetaParts {
  import opened Wrappers
  import opened Vocabulary
  import opened Decimal
  import opened Model3D
  import opened GeometryMatch
  import opened MergedGlb
  import opened MetaModel

  // The element a delta is about: the new one where there is one.
  ghost predicate IsAbout(d: ElementDelta, e: Element) { d.now == Some(e) || (d.now.None? && d.was == Some(e)) }

  // A delta goes by its element's lasting id, else by the id within the file, else by its
  // number.
  lemma {:induction false} IdentityMeans(d: ElementDelta, index: nat, e: Element)
    requires IsAbout(d, e)
    ensures e.stableId != "" ==> ElementId(d, index) == e.stableId
    ensures e.stableId == "" && e.localId != "" ==> ElementId(d, index) == e.localId
    ensures e.stableId == "" && e.localId == "" ==> ElementId(d, index) == "e" + Dec(index)
  {
  }

  // What is painted as a difference: what came, what went, and what changed in shape; not
  // what stayed, and not what changed in its properties alone.
  lemma {:induction false} VisibleMeans(d: ElementDelta)
    ensures HasVisualDelta(d) <==> d.state == Added || d.state == Deleted || (d.state == Modified && d.change == GeometryChange)
    ensures !HasVisualDelta(d) ==> VisibleChange(d).None?
    ensures HasVisualDelta(d) ==> forall e :: IsAbout(d, e) ==> VisibleChange(d) == Some(e)
  {
  }

  // One appearance of a delta in the tree.
  ghost predicate Describes(part: MetaObject, d: ElementDelta, e: Element, eid: string, suffix: string, parent: string) {
    && part.Part? && part.id == eid + suffix && part.parent == parent
    && part.name == (if e.name == "" then eid else e.name) && part.typeName == (if e.typeName == "" then "Mesh" else e.typeName)
    && part.state == d.state && part.change == d.change && part.changed == d.changed
  }

  // Every delta appears under the old layer if it has an old side, then under the new one
  // if it has a new side, then under the differences if it is visible; and nowhere else.
  lemma {:induction false} PartsDescribe(d: ElementDelta, index: nat, e: Element)
    requires IsAbout(d, e)
    ensures var parts := Parts(d, index); var eid := ElementId(d, index);
            var n := if d.was.Some? then 1 else 0; var m := n + if d.now.Some? then 1 else 0;
            && |parts| == m + (if HasVisualDelta(d) then 1 else 0)
            && (d.was.Some? ==> Describes(parts[0], d, e, eid, "|old", "old"))
            && (d.now.Some? ==> Describes(parts[n], d, e, eid, "|new", "new"))
            && (HasVisualDelta(d) ==> Describes(parts[m], d, e, eid, "|diff", "difference"))
  {
  }

  // The tree begins with the project and its three layers.
  lemma {:induction false} HeadsDescribe(project: string)
    ensures var h := Heads(project);
            && |h| == 4 && h[0] == Container(project, "Difference", None)
            && (forall k :: 1 <= k < 4 ==> h[k].Container? && h[k].above == Some(project) && h[k].name == h[k].id)
            && h[1].id == "old" && h[2].id == "new" && h[3].id == "difference"
  {
  }

  function Those(ds: seq<ElementDelta>, of: ElementDelta -> bool): set<nat> { set k: nat | k < |ds| && of(ds[k]) }

  lemma {:induction false} CountIsSize(ds: seq<ElementDelta>, of: ElementDelta -> bool)
    ensures Count(ds, of) == |Those(ds, of)|
  {
    if ds != [] {
      var n := |ds| - 1;
      CountIsSize(ds[..n], of);
      assert Those(ds, of) == Those(ds[..n], of) + if of(ds[n]) then {n} else {};
    } else {
      assert Those(ds, of) == {};
    }
  }

  // The summary counts the deltas of each state and of each kind of change.
  lemma {:induction false} SummaryCounts(ds: seq<ElementDelta>, tier: string, confidence: real)
    ensures var s := SummaryOf(ds, tier, confidence);
            && s.tier == tier && s.confidence == confidence
            && s.added == |set k: nat | k < |ds| && ds[k].state == Added|
            && s.deleted == |set k: nat | k < |ds| && ds[k].state == Deleted|
            && s.modified == |set k: nat | k < |ds| && ds[k].state == Modified|
            && s.still == |set k: nat | k < |ds| && ds[k].state == Unchanged|
            && s.geometryChanges == |set k: nat | k < |ds| && ds[k].change == GeometryChange|
            && s.propertyChanges == |set k: nat | k < |ds| && ds[k].change == PropertyChange|
  {
    InStateCount(ds, Added);
    InStateCount(ds, Deleted);
    InStateCount(ds, Modified);
    InStateCount(ds, Unchanged);
    OfChangeCount(ds, GeometryChange);
    OfChangeCount(ds, PropertyChange);
  }

  lemma {:induction false} InStateCount(ds: seq<ElementDelta>, state: DiffState)
    ensures Count(ds, InState(state)) == |set k: nat | k < |ds| && ds[k].state == state|
  {
    CountIsSize(ds, InState(state));
    assert Those(ds, InState(state)) == set k: nat | k < |ds| && ds[k].state == state;
  }

  lemma {:induction false} OfChangeCount(ds: seq<ElementDelta>, change: Change)
    ensures Count(ds, OfChange(change)) == |set k: nat | k < |ds| && ds[k].change == change|
  {
    CountIsSize(ds, OfChange(change));
    assert Those(ds, OfChange(change)) == set k: nat | k < |ds| && ds[k].change == change;
  }
}
