/** One run of the pipeline: look the result up, or compute, commit and prune. */
module Pipeline {
  import opened Wrappers
  import opened Bytes
  import opened Naming
  import opened Renditions

  datatype Outcome = Computed | Cached | Unsupported | NoPredecessor | TooLarge | Failed | Error

  datatype Report = Report(outcome: Outcome, manifest: Option<Manifest>)

  // Which two versions a request names, if it names two.
  datatype Resolution = Versions(base: string, target: string) | FirstVersion | BadVersion

  // What reading the two versions comes to.
  datatype Sources = Readable | Oversized | Unreadable

  datatype Request = Request(file: string, resolution: Resolution, sources: Sources, force: bool)

  // A plugin generation, and what it answers for the pair at hand.
  class Plugin {
    const name: string
    const version: nat
    const answer: Result
    var calls: nat

    constructor (name: string, version: nat, answer: Result)
      ensures this.name == name && this.version == version && this.answer == answer && calls == 0
    {
      this.name, this.version, this.answer, calls := name, version, answer, 0;
    }

    method Diff() returns (r: Result)
      modifies this
      ensures r == answer && calls == old(calls) + 1
    {
      calls := calls + 1;
      r := answer;
    }
  }

  // The keys of the same pair under every earlier version of its plugin.
  function Superseded(f: Format, p: Pair): set<string> {
    set v: nat | v < p.version :: PairKey(f.digest, p.(version := v))
  }

  function Committed(f: Format, s: Store, p: Pair, answer: Result, stuck: set<nat>): Store {
    Pruned(Written(f, s, p, answer), Superseded(f, p), stuck)
  }

  // The complete stored result for a pair, if there is one.
  function Hit(f: Format, s: Store, p: Pair): Option<Manifest> {
    match ReadManifest(f, s, PairKey(f.digest, p))
    case None => None
    case Some(m) => if IsComplete(s, m) then Some(m) else None
  }

  // What a run leaves in the store, what it reports, and whether it asked the plugin.
  datatype Run = Run(store: Store, report: Report, asked: bool)

  function RunOnPair(f: Format, s: Store, p: Pair, answer: Result, sources: Sources, force: bool, stuck: set<nat>): Run {
    if !force && Hit(f, s, p).Some? then Run(s, Report(Cached, Hit(f, s, p)), false)
    else
      match sources
      case Oversized => Run(s, Report(TooLarge, None), false)
      case Unreadable => Run(s, Report(Error, None), false)
      case Readable =>
        Run(Committed(f, s, p, answer, stuck), Report(if answer.failed then Failed else Computed, Some(FromResult(f, p, answer))), true)
  }

  function RunOn(f: Format, s: Store, req: Request, plugin: Plugin?, stuck: set<nat>): Run {
    match req.resolution
    case FirstVersion => Run(s, Report(NoPredecessor, None), false)
    case BadVersion => Run(s, Report(Error, None), false)
    case Versions(base, target) =>
      if plugin == null then Run(s, Report(Unsupported, None), false)
      else RunOnPair(f, s, Pair(req.file, base, target, plugin.name, plugin.version), plugin.answer, req.sources, req.force, stuck)
  }

  method RunPipeline(f: Format, engine: FileEngine, req: Request, plugin: Plugin?, stuck: set<nat>) returns (report: Report)
    requires Wellkept(engine.State())
    modifies engine, plugin
    ensures var run := RunOn(f, old(engine.State()), req, plugin, stuck);
            && engine.State() == run.store && report == run.report
            && (plugin != null ==> plugin.calls == old(plugin.calls) + (if run.asked then 1 else 0))
  {
    if req.resolution.FirstVersion? {
      return Report(NoPredecessor, None);
    }
    if req.resolution.BadVersion? {
      return Report(Error, None);
    }
    if plugin == null {
      return Report(Unsupported, None);
    }
    var p := Pair(req.file, req.resolution.base, req.resolution.target, plugin.name, plugin.version);
    if !req.force {
      var existing := ReadManifest(f, engine.State(), PairKey(f.digest, p));
      if existing.Some? && IsComplete(engine.State(), existing.value) {
        return Report(Cached, existing);
      }
    }
    if req.sources.Oversized? {
      return Report(TooLarge, None);
    }
    if req.sources.Unreadable? {
      return Report(Error, None);
    }
    var result := plugin.Diff();
    var manifest := Commit(f, engine, p, result, stuck);
    report := Report(if result.failed then Failed else Computed, Some(manifest));
  }

  method Commit(f: Format, engine: FileEngine, p: Pair, result: Result, stuck: set<nat>) returns (m: Manifest)
    requires Wellkept(engine.State())
    modifies engine
    ensures m == FromResult(f, p, result)
    ensures engine.State() == Committed(f, old(engine.State()), p, result, stuck)
  {
    WrittenIsWellkept(f, engine.State(), p, result);
    m := WriteResult(f, engine, p, result);
    if p.version <= 0 {
      NothingDropped(engine.children, stuck);
      assert Superseded(f, p) == {};
      return;
    }
    var removed := PruneKeys(engine, Superseded(f, p), stuck);
  }

  lemma {:induction false} TouchedIsWellkept(s: Store, name: string)
    requires Wellkept(s)
    ensures Wellkept(Touched(s, name))
  {
  }

  lemma {:induction false} PutIsWellkept(s: Store, uid: nat, content: seq<byte>)
    requires Wellkept(s)
    ensures Wellkept(Put(s, uid, content))
  {
  }

  lemma {:induction false} KidsAreWellkept(s: Store, existing: set<string>, key: string, kids: seq<Kid>)
    requires Wellkept(s)
    ensures Wellkept(WithKids(s, existing, key, kids))
  {
    if kids != [] {
      var last := kids[|kids| - 1];
      var t := WithKids(s, existing, key, kids[..|kids| - 1]);
      KidsAreWellkept(s, existing, key, kids[..|kids| - 1]);
      TouchedIsWellkept(t, KidName(key, last));
      PutIsWellkept(Touched(t, KidName(key, last)), t.nextUid, last.content);
    }
  }

  lemma {:induction false} WrittenIsWellkept(f: Format, s: Store, p: Pair, r: Result)
    requires Wellkept(s)
    ensures Wellkept(Written(f, s, p, r))
  {
    var key := PairKey(f.digest, p);
    var t := WithKids(s, Names(s.children), key, InOrder(r.kids));
    var name, content := ManifestName(key), f.codec.encode(FromResult(f, p, r));
    KidsAreWellkept(s, Names(s.children), key, InOrder(r.kids));
    TouchedIsWellkept(t, name);
    PutIsWellkept(Touched(t, name), t.nextUid, content);
    if First(t.children, name).Some? {
      PutIsWellkept(t, First(t.children, name).value.uid, content);
    }
  }
}
