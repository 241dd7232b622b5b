/** What a run reports and when it asks its plugin, told from the store's children alone. */
module PipelineOutcomes {
  import opened Wrappers
  import opened JsonText
  import opened Naming
  import opened Sorting
  import opened Renditions
  import opened Pipeline
  import opened PipelineTheorems

  // The first child of the key's marker name is filled and reads as this manifest.
  ghost predicate MarkerReads(f: Format, s: Store, key: string, m: Manifest) {
    exists i :: 0 <= i < |s.children| && s.children[i].name == ManifestName(key)
                && (forall j :: 0 <= j < i ==> s.children[j].name != ManifestName(key))
                && s.children[i].content.Some? && f.codec.decode(s.children[i].content.value) == Some(m)
  }

  // Every name the manifest promises is a child's.
  ghost predicate Holds(s: Store, m: Manifest) {
    forall name :: name in m.expected ==> exists i :: 0 <= i < |s.children| && s.children[i].name == name
  }

  lemma {:induction false} FirstIsEarliest(cs: seq<Child>, name: string, i: nat)
    requires i < |cs| && cs[i].name == name && forall j :: 0 <= j < i ==> cs[j].name != name
    ensures First(cs, name) == Some(cs[i])
  {
    if i > 0 {
      FirstIsEarliest(cs[1..], name, i - 1);
    }
  }

  lemma {:induction false} FirstAt(cs: seq<Child>, name: string) returns (i: nat)
    requires First(cs, name).Some?
    ensures i < |cs| && cs[i] == First(cs, name).value && cs[i].name == name && forall j :: 0 <= j < i ==> cs[j].name != name
  {
    if cs[0].name == name {
      i := 0;
    } else {
      i := FirstAt(cs[1..], name);
      i := i + 1;
    }
  }

  lemma {:induction false} ReadsExactly(f: Format, s: Store, key: string, m: Manifest)
    ensures ReadManifest(f, s, key) == Some(m) <==> MarkerReads(f, s, key, m)
  {
    if MarkerReads(f, s, key, m) {
      var i: nat :| i < |s.children| && s.children[i].name == ManifestName(key)
        && (forall j :: 0 <= j < i ==> s.children[j].name != ManifestName(key))
        && s.children[i].content.Some? && f.codec.decode(s.children[i].content.value) == Some(m);
      FirstIsEarliest(s.children, ManifestName(key), i);
    }
    if ReadManifest(f, s, key) == Some(m) {
      var i := FirstAt(s.children, ManifestName(key));
    }
  }

  lemma {:induction false} CompleteExactly(s: Store, m: Manifest)
    ensures IsComplete(s, m) <==> Holds(s, m)
  {
    if Holds(s, m) {
      forall i | 0 <= i < |m.expected| ensures m.expected[i] in Names(s.children) {
        assert m.expected[i] in m.expected;
      }
    }
  }

  // A result for the pair is stored whole.
  ghost predicate Stored(f: Format, s: Store, key: string) {
    exists m :: MarkerReads(f, s, key, m) && Holds(s, m)
  }

  lemma {:induction false} HitExactly(f: Format, s: Store, p: Pair)
    ensures Hit(f, s, p).Some? <==> Stored(f, s, PairKey(f.digest, p))
    ensures Hit(f, s, p).Some? ==> MarkerReads(f, s, PairKey(f.digest, p), Hit(f, s, p).value) && Holds(s, Hit(f, s, p).value)
  {
    var key := PairKey(f.digest, p);
    var read := ReadManifest(f, s, key);
    if read.Some? {
      ReadsExactly(f, s, key, read.value);
      CompleteExactly(s, read.value);
    }
    if Stored(f, s, key) {
      var m :| MarkerReads(f, s, key, m) && Holds(s, m);
      ReadsExactly(f, s, key, m);
      CompleteExactly(s, m);
    }
  }

  function PairOf(req: Request, plugin: Plugin): Pair
    requires req.resolution.Versions?
  {
    Pair(req.file, req.resolution.base, req.resolution.target, plugin.name, plugin.version)
  }

  // A plugin is asked exactly when the request names two versions it handles, both can be
  // read, and the result is wanted anew or is not stored whole.
  lemma {:induction false} AsksExactly(f: Format, s: Store, req: Request, plugin: Plugin?, stuck: set<nat>)
    ensures RunOn(f, s, req, plugin, stuck).asked
            <==> plugin != null && req.resolution.Versions? && req.sources.Readable?
                 && (req.force || !Stored(f, s, PairKey(f.digest, PairOf(req, plugin))))
  {
    if plugin != null && req.resolution.Versions? {
      HitExactly(f, s, PairOf(req, plugin));
    }
  }

  // What a run comes to: the first of these that applies.
  ghost function OutcomeOf(f: Format, s: Store, req: Request, plugin: Plugin?): Outcome {
    if req.resolution.FirstVersion? then NoPredecessor
    else if req.resolution.BadVersion? then Error
    else if plugin == null then Unsupported
    else if !req.force && Stored(f, s, PairKey(f.digest, PairOf(req, plugin))) then Cached
    else if req.sources.Oversized? then TooLarge
    else if req.sources.Unreadable? then Error
    else if plugin.answer.failed then Failed
    else Computed
  }

  lemma {:induction false} OutcomeExactly(f: Format, s: Store, req: Request, plugin: Plugin?, stuck: set<nat>)
    ensures RunOn(f, s, req, plugin, stuck).report.outcome == OutcomeOf(f, s, req, plugin)
    ensures var run := RunOn(f, s, req, plugin, stuck);
            !run.asked ==> run.store == s && (run.report.manifest.Some? <==> run.report.outcome.Cached?)
  {
    if plugin != null && req.resolution.Versions? {
      HitExactly(f, s, PairOf(req, plugin));
    }
  }

  // Whatever is reported as a result is in the store afterwards: the marker reads as it,
  // and every child it promises is there.
  lemma {:induction false} ResultIsThere(f: Format, s: Store, req: Request, plugin: Plugin?, stuck: set<nat>)
    requires Faithful(f.digest)
    requires plugin != null && req.resolution.Versions? ==> ReadsBack(f.codec, FromResult(f, PairOf(req, plugin), plugin.answer))
    requires RunOn(f, s, req, plugin, stuck).report.outcome in {Computed, Failed, Cached}
    ensures plugin != null && req.resolution.Versions?
    ensures var run := RunOn(f, s, req, plugin, stuck);
            && run.report.manifest.Some?
            && MarkerReads(f, run.store, PairKey(f.digest, PairOf(req, plugin)), run.report.manifest.value)
            && Holds(run.store, run.report.manifest.value)
  {
    var p := PairOf(req, plugin);
    HitExactly(f, s, p);
    CommitIsHit(f, s, p, plugin.answer, stuck);
    HitExactly(f, Committed(f, s, p, plugin.answer, stuck), p);
  }

  // What a manifest says of the result it was made from: the pair, how it went, and its
  // children by ascending number, each under its name and in its mode.
  lemma {:induction false} ManifestDescribes(f: Format, p: Pair, r: Result)
    ensures var m := FromResult(f, p, r); var kids := InOrder(r.kids);
            && m.pair == p && m.failed == r.failed && m.mode == r.mode && m.failure == r.failure
            && multiset(kids) == multiset(r.kids) && (forall i, j :: 0 <= i < j < |kids| ==> kids[i].index <= kids[j].index)
            && |m.expected| == |kids| == |m.units|
            && forall i :: 0 <= i < |kids| ==>
                 && m.expected[i] == "diff." + PairKey(f.digest, p) + "." + kids[i].kind + "." + Padded3(kids[i].index) + "." + kids[i].ext
                 && m.units[i] == (kids[i].index, kids[i].mode, kids[i].kind)
  {
    var byIndex := (a: Kid, b: Kid) => a.index <= b.index;
    SortOrders(r.kids, byIndex);
    var m, kids := FromResult(f, p, r), InOrder(r.kids);
    forall i | 0 <= i < |kids|
      ensures m.expected[i] == "diff." + PairKey(f.digest, p) + "." + kids[i].kind + "." + Padded3(kids[i].index) + "." + kids[i].ext
    {
      NameWritten(PairKey(f.digest, p), kids[i].kind, kids[i].index, kids[i].ext);
    }
  }

  lemma {:induction false} NameWritten(key: string, kind: string, index: nat, ext: string)
    ensures ChildName(key, kind, index, ext) == "diff." + key + "." + kind + "." + Padded3(index) + "." + ext
    ensures ManifestName(key) == "diff." + key + ".manifest.json"
    ensures |Padded3(index)| >= 3
  {
    assert "diff" + "." == "diff." && "." + ("manifest" + "." + "json") == ".manifest.json";
  }
}
