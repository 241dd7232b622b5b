/** The object tree that goes with the merged file: a project, its three layers, and
    an object for each appearance of an element. */
module MetaModel {
  import opened Wrappers
  import opened Vocabulary
  import opened Model3D
  import opened GeometryMatch
  import opened Gltf
  import opened MergedGlb
  import SceneStore

  datatype MetaObject =
    | Container(id: string, name: string, above: Option<string>)
    | Part(id: string, name: string, typeName: string, parent: string, state: DiffState, change: Change, changed: seq<string>)

  function Heads(project: string): seq<MetaObject> {
    [Container(project, "Difference", None), Container("old", "old", Some(project)),
     Container("new", "new", Some(project)), Container("difference", "difference", Some(project))]
  }

  function Or(s: string, fallback: string): string { if s != "" then s else fallback }

  function PartOf(d: ElementDelta, eid: string, suffix: string, parent: string): MetaObject {
    var name := match Subject(d) case Some(e) => e.name case None => "";
    var typeName := match Subject(d) case Some(e) => e.typeName case None => "";
    Part(eid + suffix, Or(name, eid), Or(typeName, "Mesh"), parent, d.state, d.change, d.changed)
  }

  function OldPart(d: ElementDelta, eid: string): seq<MetaObject> {
    if d.was.Some? then [PartOf(d, eid, "|old", "old")] else []
  }

  function NewPart(d: ElementDelta, eid: string): seq<MetaObject> {
    if d.now.Some? then [PartOf(d, eid, "|new", "new")] else []
  }

  function ChangePart(d: ElementDelta, eid: string): seq<MetaObject> {
    if HasVisualDelta(d) then [PartOf(d, eid, "|diff", "difference")] else []
  }

  function Parts(d: ElementDelta, index: nat): seq<MetaObject> {
    var eid := ElementId(d, index);
    OldPart(d, eid) + NewPart(d, eid) + ChangePart(d, eid)
  }

  function AllParts(ds: seq<ElementDelta>): seq<MetaObject> {
    if ds == [] then [] else AllParts(ds[..|ds| - 1]) + Parts(ds[|ds| - 1], |ds| - 1)
  }

  method LayerObjects(project: string) returns (objects: seq<MetaObject>)
    ensures objects == Heads(project)
  {
    objects := [Container(project, "Difference", None)];
    var groups := ["old", "new", "difference"];
    for g := 0 to |groups|
      invariant objects == Heads(project)[..g + 1]
    {
      objects := objects + [Container(groups[g], groups[g], Some(project))];
    }
  }

  method AddParts(objects: seq<MetaObject>, d: ElementDelta, index: nat) returns (more: seq<MetaObject>)
    ensures more == objects + Parts(d, index)
  {
    var eid := ElementId(d, index);
    more := objects;
    if d.was.Some? {
      more := more + [PartOf(d, eid, "|old", "old")];
    }
    if d.now.Some? {
      more := more + [PartOf(d, eid, "|new", "new")];
    }
    if HasVisualDelta(d) {
      more := more + [PartOf(d, eid, "|diff", "difference")];
    }
  }

  lemma {:induction false} AllPartsOneMore(ds: seq<ElementDelta>, i: nat)
    requires i < |ds|
    ensures AllParts(ds[..i + 1]) == AllParts(ds[..i]) + Parts(ds[i], i)
  {
    assert ds[..i + 1][..i] == ds[..i];
  }

  lemma {:induction false} PartsOfOneMore(heads: seq<MetaObject>, ds: seq<ElementDelta>, i: nat)
    requires i < |ds|
    ensures heads + AllParts(ds[..i + 1]) == heads + AllParts(ds[..i]) + Parts(ds[i], i)
  {
    AllPartsOneMore(ds, i);
    Associate(heads, AllParts(ds[..i]), Parts(ds[i], i));
  }

  lemma {:induction false} Associate(a: seq<MetaObject>, b: seq<MetaObject>, c: seq<MetaObject>)
    ensures a + (b + c) == a + b + c
  {
  }

  // How many deltas are of a kind.
  function Count(ds: seq<ElementDelta>, of: ElementDelta -> bool): nat {
    if ds == [] then 0 else Count(ds[..|ds| - 1], of) + if of(ds[|ds| - 1]) then 1 else 0
  }

  datatype Summary = Summary(
    tier: string,
    confidence: real,
    added: nat,
    deleted: nat,
    modified: nat,
    still: nat,
    geometryChanges: nat,
    propertyChanges: nat)

  datatype Metamodel = Metamodel(id: string, projectId: string, author: string, metaObjects: seq<MetaObject>, summary: Summary)

  function InState(state: DiffState): ElementDelta -> bool { (d: ElementDelta) => d.state == state }

  function OfChange(change: Change): ElementDelta -> bool { (d: ElementDelta) => d.change == change }

  function SummaryOf(ds: seq<ElementDelta>, tier: string, confidence: real): Summary {
    Summary(tier, confidence, Count(ds, InState(Added)), Count(ds, InState(Deleted)), Count(ds, InState(Modified)),
            Count(ds, InState(Unchanged)), Count(ds, OfChange(GeometryChange)), Count(ds, OfChange(PropertyChange)))
  }

  method CountOf(ds: seq<ElementDelta>, of: ElementDelta -> bool) returns (n: nat)
    ensures n == Count(ds, of)
  {
    n := 0;
    for i := 0 to |ds|
      invariant n == Count(ds[..i], of)
    {
      assert ds[..i + 1][..i] == ds[..i];
      if of(ds[i]) {
        n := n + 1;
      }
    }
    assert ds[..|ds|] == ds;
  }

  method Summarize(ds: seq<ElementDelta>, tier: string, confidence: real) returns (summary: Summary)
    ensures summary == SummaryOf(ds, tier, confidence)
  {
    var added := CountOf(ds, InState(Added));
    var deleted := CountOf(ds, InState(Deleted));
    var modified := CountOf(ds, InState(Modified));
    var still := CountOf(ds, InState(Unchanged));
    var geometryChanges := CountOf(ds, OfChange(GeometryChange));
    var propertyChanges := CountOf(ds, OfChange(PropertyChange));
    summary := Summary(tier, confidence, added, deleted, modified, still, geometryChanges, propertyChanges);
  }

  method BuildMetamodel(ds: seq<ElementDelta>, project: string, tier: string, confidence: real) returns (model: Metamodel)
    ensures model.metaObjects == Heads(project) + AllParts(ds)
    ensures model.summary == SummaryOf(ds, tier, confidence)
    ensures model.id == project && model.projectId == project && model.author == "difference_service"
  {
    var objects := LayerObjects(project);
    for i := 0 to |ds|
      invariant objects == Heads(project) + AllParts(ds[..i])
    {
      objects := AddParts(objects, ds[i], i);
      PartsOfOneMore(Heads(project), ds, i);
    }
    assert ds[..|ds|] == ds;
    var summary := Summarize(ds, tier, confidence);
    model := Metamodel(project, project, "difference_service", objects, summary);
  }

  // ------------------------------------------- the tree and the merged file agree

  // The group that lists a mesh's node.
  ghost predicate InGroup(l: Layers, k: nat, group: string) {
    || (group == "old" && k in l.older)
    || (group == "new" && k in l.newer)
    || (group == "difference" && k in l.changed)
  }

  // Node by node, the parts name the meshes and their groups.
  ghost predicate Mirrors(parts: seq<MetaObject>, l: Layers) {
    && |parts| == |l.stamps|
    && forall k :: 0 <= k < |parts| ==> parts[k].Part? && parts[k].id == l.stamps[k].name && InGroup(l, k, parts[k].parent)
  }

  predicate Meshed(e: Option<Element>) { e.Some? ==> HasMesh(e.value) }

  // Everything a delta shows has geometry.
  predicate AllMeshed(ds: seq<ElementDelta>) {
    forall k :: 0 <= k < |ds| ==> Meshed(ds[k].was) && Meshed(ds[k].now)
  }

  // A visible change always has an element to show.
  predicate Substantial(ds: seq<ElementDelta>) {
    forall k :: 0 <= k < |ds| ==> ds[k].was.Some? || ds[k].now.Some?
  }

  lemma {:induction false} MirrorsOld(parts: seq<MetaObject>, l: Layers, d: ElementDelta, eid: string)
    requires Mirrors(parts, l) && Meshed(d.was)
    ensures Mirrors(parts + OldPart(d, eid), WithOld(l, d, eid))
  {
  }

  lemma {:induction false} MirrorsNew(parts: seq<MetaObject>, l: Layers, d: ElementDelta, eid: string)
    requires Mirrors(parts, l) && Meshed(d.now)
    ensures Mirrors(parts + NewPart(d, eid), WithNew(l, d, eid))
  {
  }

  lemma {:induction false} MirrorsChange(parts: seq<MetaObject>, l: Layers, d: ElementDelta, eid: string)
    requires Mirrors(parts, l) && Meshed(d.was) && Meshed(d.now) && (d.was.Some? || d.now.Some?)
    ensures Mirrors(parts + ChangePart(d, eid), WithChange(l, d, eid))
  {
  }

  lemma {:induction false} PartsInOrder(parts: seq<MetaObject>, d: ElementDelta, index: nat)
    ensures var eid := ElementId(d, index);
            parts + Parts(d, index) == parts + OldPart(d, eid) + NewPart(d, eid) + ChangePart(d, eid)
  {
  }

  lemma {:induction false} PartsMirror(ds: seq<ElementDelta>)
    requires AllMeshed(ds) && Substantial(ds)
    ensures Mirrors(AllParts(ds), Planned(ds))
  {
    if ds != [] {
      var i := |ds| - 1;
      var l, d, eid, parts := Planned(ds[..i]), ds[i], ElementId(ds[i], i), AllParts(ds[..i]);
      PartsMirror(ds[..i]);
      PartsInOrder(parts, d, i);
      MirrorsOld(parts, l, d, eid);
      MirrorsNew(parts + OldPart(d, eid), WithOld(l, d, eid), d, eid);
      MirrorsChange(parts + OldPart(d, eid) + NewPart(d, eid), WithNew(WithOld(l, d, eid), d, eid), d, eid);
    }
  }

  lemma {:induction false} FewerStampsOfOne(l: Layers, d: ElementDelta, index: nat)
    requires d.was.Some? || d.now.Some?
    ensures var more := |WithDelta(l, d, index).stamps| - |l.stamps|;
            more <= |Parts(d, index)| && (more == |Parts(d, index)| ==> Meshed(d.was) && Meshed(d.now))
  {
  }

  lemma {:induction false} FewerStamps(ds: seq<ElementDelta>, k: nat)
    requires Substantial(ds) && k <= |ds|
    ensures |Planned(ds[..k]).stamps| <= |AllParts(ds[..k])|
    ensures |Planned(ds[..k]).stamps| == |AllParts(ds[..k])| ==> forall m :: 0 <= m < k ==> Meshed(ds[m].was) && Meshed(ds[m].now)
  {
    if k > 0 {
      FewerStamps(ds, k - 1);
      assert ds[..k][..k - 1] == ds[..k - 1];
      FewerStampsOfOne(Planned(ds[..k - 1]), ds[k - 1], k - 1);
    }
  }

  // A node of the merged document, the group node that lists it, and the object with
  // its name under that group.
  ghost predicate NodeMatchesPart(doc: Document, n: nat, k: nat, part: MetaObject) {
    && k < n && n + 2 < |doc.nodes| && part.Part? && doc.nodes[k].name == part.id
    && exists g :: n <= g < n + 3 && doc.nodes[g].name == part.parent && k in doc.nodes[g].children
  }

  ghost predicate Agree(doc: Document, n: nat, parts: seq<MetaObject>) {
    |parts| == n && forall k :: 0 <= k < n ==> NodeMatchesPart(doc, n, k, parts[k])
  }

  lemma {:induction false} GroupNodeOf(l: Layers, upAxis: string, write: FloatWriter, k: nat, part: MetaObject)
    requires StampsWritable(l.stamps) && k < |l.stamps| && part.Part? && part.id == l.stamps[k].name && InGroup(l, k, part.parent)
    ensures NodeMatchesPart(MergedDocument(l, upAxis, write), |l.stamps|, k, part)
  {
    var doc, n := MergedDocument(l, upAxis, write), |l.stamps|;
    NodeCount(l.stamps, write);
    SceneStore.SceneHolds(l.stamps, k, write);
    var g := if part.parent == "old" then n else if part.parent == "new" then n + 1 else n + 2;
    assert doc.nodes[g] == GroupNodes(l)[g - n];
  }

  // Mesh by mesh the merged file's names and groups are the metamodel's ids and
  // parents, exactly when everything to be shown has geometry.
  lemma {:induction false} MetamodelAgrees(ds: seq<ElementDelta>, upAxis: string, write: FloatWriter)
    requires Writable(ds) && Substantial(ds) && StampsWritable(Planned(ds).stamps)
    ensures Agree(MergedDocument(Planned(ds), upAxis, write), |Planned(ds).stamps|, AllParts(ds)) <==> AllMeshed(ds)
  {
    var l := Planned(ds);
    FewerStamps(ds, |ds|);
    assert ds[..|ds|] == ds;
    if AllMeshed(ds) {
      PartsMirror(ds);
      forall k | 0 <= k < |l.stamps| ensures NodeMatchesPart(MergedDocument(l, upAxis, write), |l.stamps|, k, AllParts(ds)[k]) {
        GroupNodeOf(l, upAxis, write, k, AllParts(ds)[k]);
      }
    }
  }
}
