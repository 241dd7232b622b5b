/** Many runners over one store, stopping anywhere: what a reader may rely on. */
module CommitProtocol {
  import opened Wrappers
  import opened Bytes
  import opened JsonText
  import opened Naming
  import opened Sorting
  import opened Renditions
  import opened Pipeline
  import opened PipelineTheorems

  // One runner's work: the pair it renders and what its plugin answered.
  datatype Job = Job(pair: Pair, result: Result)

  // Where a runner is between two calls of the file engine.
  datatype Stage =
    | Ready
    | Writing(existing: set<string>, next: nat)
    | Filling(existing: set<string>, next: nat, uid: nat)
    | Marking
    | Committing(uid: nat)
    | Listing
    | Pruning(listing: seq<Child>, next: nat)
    | Stopped

  datatype World = World(store: Store, stages: seq<Stage>)

  // A setting: how names and manifests are written, the runners' jobs, whether a content
  // child is made and filled in one step, and what the store holds at the start.
  datatype Setting = Setting(format: Format, jobs: seq<Job>, atomic: bool, start: Store)

  datatype Step =
    | Begin          // list what is there
    | BeginBlind     // the listing fails and reads as empty
    | Pass           // the next content child is already there
    | Make           // touch the next content child
    | Fill           // fill the child just made
    | MakeFull       // both at once
    | Look           // look for the marker
    | LookBlind      // that listing fails too: no marker is seen
    | Mark           // touch one
    | Commit         // fill the marker
    | List           // list what may be pruned
    | Prune          // remove the next superseded child, or pass over it
    | Leave          // pass over a child whose removal fails
    | Stop           // finish, hit the cache, or crash

  function KeyFor(c: Setting, r: nat): string
    requires r < |c.jobs|
  {
    PairKey(c.format.digest, c.jobs[r].pair)
  }

  function Kids(c: Setting, r: nat): seq<Kid>
    requires r < |c.jobs|
  {
    InOrder(c.jobs[r].result.kids)
  }

  function NameAt(c: Setting, r: nat, i: nat): string
    requires r < |c.jobs| && i < |Kids(c, r)|
  {
    KidName(KeyFor(c, r), Kids(c, r)[i])
  }

  function ManifestFor(c: Setting, r: nat): Manifest
    requires r < |c.jobs|
  {
    FromResult(c.format, c.jobs[r].pair, c.jobs[r].result)
  }

  // Whether a runner can take a step, given its stage.
  predicate Enabled(c: Setting, stage: Stage, r: nat, step: Step)
    requires r < |c.jobs|
  {
    match step
    case Begin => stage.Ready?
    case BeginBlind => stage.Ready?
    case Pass => stage.Writing? && stage.next < |Kids(c, r)| && NameAt(c, r, stage.next) in stage.existing
    case Make => stage.Writing? && stage.next < |Kids(c, r)| && NameAt(c, r, stage.next) !in stage.existing && !c.atomic
    case MakeFull => stage.Writing? && stage.next < |Kids(c, r)| && NameAt(c, r, stage.next) !in stage.existing && c.atomic
    case Fill => stage.Filling? && stage.next < |Kids(c, r)|
    case Look => stage.Writing? && stage.next == |Kids(c, r)|
    case LookBlind => stage.Writing? && stage.next == |Kids(c, r)|
    case Mark => stage.Marking?
    case Commit => stage.Committing?
    case List => stage.Listing?
    case Prune => stage.Pruning? && stage.next < |stage.listing|
    case Leave => stage.Pruning? && stage.next < |stage.listing|
    case Stop => true
  }

  function StoreAfter(c: Setting, s: Store, stage: Stage, r: nat, step: Step): Store
    requires r < |c.jobs| && Enabled(c, stage, r, step)
  {
    match step
    case Make => Touched(s, NameAt(c, r, stage.next))
    case MakeFull => Put(Touched(s, NameAt(c, r, stage.next)), s.nextUid, Kids(c, r)[stage.next].content)
    case Fill => Put(s, stage.uid, Kids(c, r)[stage.next].content)
    case Mark => Touched(s, ManifestName(KeyFor(c, r)))
    case Commit => Put(s, stage.uid, c.format.codec.encode(ManifestFor(c, r)))
    case Prune =>
      var e := stage.listing[stage.next];
      if Dropped(e, Superseded(c.format, c.jobs[r].pair), {}) then Removed(s, e.uid) else s
    case _ => s
  }

  function StageAfter(c: Setting, s: Store, stage: Stage, r: nat, step: Step): Stage
    requires r < |c.jobs| && Enabled(c, stage, r, step)
  {
    match step
    case Begin => Writing(Names(s.children), 0)
    case BeginBlind => Writing({}, 0)
    case Pass => Writing(stage.existing, stage.next + 1)
    case Make => Filling(stage.existing, stage.next, s.nextUid)
    case MakeFull => Writing(stage.existing, stage.next + 1)
    case Fill => Writing(stage.existing, stage.next + 1)
    case Look =>
      (match First(s.children, ManifestName(KeyFor(c, r)))
       case Some(e) => Committing(e.uid)
       case None => Marking)
    case LookBlind => Marking
    case Mark => Committing(s.nextUid)
    case Commit => Listing
    case List => Pruning(s.children, 0)
    case Prune => Pruning(stage.listing, stage.next + 1)
    case Leave => Pruning(stage.listing, stage.next + 1)
    case Stop => Stopped
  }

  ghost predicate Moves(c: Setting, w: World, r: nat, step: Step, w': World) {
    && r < |c.jobs| && |w.stages| == |c.jobs| && Enabled(c, w.stages[r], r, step)
    && w' == World(StoreAfter(c, w.store, w.stages[r], r, step), w.stages[r := StageAfter(c, w.store, w.stages[r], r, step)])
  }

  // ------------------------------------------------------------------ invariants

  // What is proved here is proved of one key at a time: whatever befalls other keys, and
  // whether or not a runner writes under this one.

  // A runner of a later version of the plugin would prune what is stored under this key.
  ghost predicate Overtaken(c: Setting, key: string) {
    exists r :: 0 <= r < |c.jobs| && key in Superseded(c.format, c.jobs[r].pair)
  }

  // No runner writes a child under this key.
  ghost predicate Childless(c: Setting, key: string) {
    forall r :: 0 <= r < |c.jobs| && KeyFor(c, r) == key ==> c.jobs[r].result.kids == []
  }

  ghost predicate Secure(c: Setting, key: string) { Overtaken(c, key) ==> Childless(c, key) }

  // A name that stays once it is there.
  ghost predicate Lasting(c: Setting, key: string, name: string) { KeyOf(name) == key && !Overtaken(c, key) }

  ghost predicate AllThere(s: Store, key: string, names: seq<string>) {
    forall i :: 0 <= i < |names| ==> KeyOf(names[i]) == key && names[i] in Names(s.children)
  }

  ghost predicate Honoured(c: Setting, s: Store, key: string, names: seq<string>) {
    AllThere(s, key, names) && (Overtaken(c, key) ==> names == [])
  }

  // If this child is the key's marker and reads as a manifest, what it promises is there;
  // and it promises nothing if the key is overtaken.
  ghost predicate Backed(c: Setting, s: Store, key: string, e: Child) {
    e.name == ManifestName(key) && e.content.Some? ==>
      var m := c.format.codec.decode(e.content.value); m.Some? ==> Honoured(c, s, key, m.value.expected)
  }

  ghost predicate AllBacked(c: Setting, s: Store, key: string) {
    forall i :: 0 <= i < |s.children| ==> Backed(c, s, key, s.children[i])
  }

  // A number keeps its name.
  ghost predicate NamedAs(s: Store, uid: nat, name: string) {
    uid < s.nextUid && forall i :: 0 <= i < |s.children| && s.children[i].uid == uid ==> s.children[i].name == name
  }

  // A runner of this key has its first n children in the store.
  ghost predicate WrittenUpTo(c: Setting, s: Store, key: string, r: nat, n: nat)
    requires r < |c.jobs|
  {
    n <= |Kids(c, r)| && (KeyFor(c, r) == key ==> forall i :: 0 <= i < n ==> NameAt(c, r, i) in Names(s.children))
  }

  ghost predicate StillThere(c: Setting, s: Store, key: string, names: set<string>) {
    forall name :: name in names && Lasting(c, key, name) ==> name in Names(s.children)
  }

  ghost predicate ListingOk(s: Store, listing: seq<Child>) {
    forall i :: 0 <= i < |listing| ==> NamedAs(s, listing[i].uid, listing[i].name)
  }

  ghost predicate StageOk(c: Setting, s: Store, key: string, stage: Stage, r: nat)
    requires r < |c.jobs|
  {
    match stage
    case Writing(existing, next) => StillThere(c, s, key, existing) && WrittenUpTo(c, s, key, r, next)
    case Filling(existing, next, uid) =>
      !c.atomic && StillThere(c, s, key, existing) && WrittenUpTo(c, s, key, r, next + 1) && NamedAs(s, uid, NameAt(c, r, next))
    case Marking => WrittenUpTo(c, s, key, r, |Kids(c, r)|)
    case Committing(uid) => WrittenUpTo(c, s, key, r, |Kids(c, r)|) && NamedAs(s, uid, ManifestName(KeyFor(c, r)))
    case Pruning(listing, next) => ListingOk(s, listing)
    case _ => true
  }

  // Between two stores: lasting names stay, numbers keep their names.
  ghost predicate Evolves(c: Setting, key: string, s: Store, t: Store) {
    && (forall name :: name in Names(s.children) && Lasting(c, key, name) ==> name in Names(t.children))
    && (forall uid, name :: NamedAs(s, uid, name) ==> NamedAs(t, uid, name))
  }

  lemma {:induction false} NoKidsInOrder(c: Setting, r: nat)
    requires r < |c.jobs|
    ensures Kids(c, r) == [] <==> c.jobs[r].result.kids == []
  {
    SameElements(c.jobs[r].result.kids, (a: Kid, b: Kid) => a.index <= b.index);
  }

  lemma {:induction false} KidIsOurs(c: Setting, r: nat, i: nat)
    requires Faithful(c.format.digest) && r < |c.jobs| && i < |Kids(c, r)|
    ensures KeyOf(NameAt(c, r, i)) == KeyFor(c, r)
  {
    var k := Kids(c, r)[i];
    KeyOfOurNames(KeyFor(c, r), k.kind, k.index, k.ext);
  }

  lemma {:induction false} KidLasts(c: Setting, key: string, r: nat, i: nat)
    requires Faithful(c.format.digest) && Secure(c, key) && r < |c.jobs| && KeyFor(c, r) == key && i < |Kids(c, r)|
    ensures Lasting(c, key, NameAt(c, r, i))
  {
    KidIsOurs(c, r, i);
    NoKidsInOrder(c, r);
  }

  lemma {:induction false} WrittenStays(c: Setting, key: string, s: Store, t: Store, r: nat, n: nat)
    requires Faithful(c.format.digest) && Secure(c, key) && Evolves(c, key, s, t) && r < |c.jobs| && WrittenUpTo(c, s, key, r, n)
    ensures WrittenUpTo(c, t, key, r, n)
  {
    if KeyFor(c, r) == key {
      forall i | 0 <= i < n ensures NameAt(c, r, i) in Names(t.children) {
        KidLasts(c, key, r, i);
      }
    }
  }

  lemma {:induction false} StageStays(c: Setting, key: string, s: Store, t: Store, stage: Stage, r: nat)
    requires Faithful(c.format.digest) && Secure(c, key) && Evolves(c, key, s, t) && r < |c.jobs| && StageOk(c, s, key, stage, r)
    ensures StageOk(c, t, key, stage, r)
  {
    match stage
    case Writing(existing, next) => WrittenStays(c, key, s, t, r, next);
    case Filling(existing, next, uid) => WrittenStays(c, key, s, t, r, next + 1);
    case Marking => WrittenStays(c, key, s, t, r, |Kids(c, r)|);
    case Committing(uid) => WrittenStays(c, key, s, t, r, |Kids(c, r)|);
    case _ =>
  }

  lemma {:induction false} BackedStays(c: Setting, key: string, s: Store, t: Store, e: Child)
    requires Evolves(c, key, s, t) && Backed(c, s, key, e)
    ensures Backed(c, t, key, e)
  {
  }

  // ------------------------------------------------------------ the store's steps

  lemma {:induction false} TouchEvolves(c: Setting, key: string, s: Store, name: string)
    ensures Evolves(c, key, s, Touched(s, name))
  {
    TouchedNames(s, name);
  }

  lemma {:induction false} PutEvolves(c: Setting, key: string, s: Store, uid: nat, content: seq<byte>)
    ensures Evolves(c, key, s, Put(s, uid, content))
  {
    PutNames(s, uid, content);
  }

  lemma {:induction false} OthersMembers(cs: seq<Child>, uid: nat)
    ensures forall e :: e in Others(cs, uid) <==> e in cs && e.uid != uid
  {
    if cs != [] {
      OthersMembers(cs[1..], uid);
      assert cs == [cs[0]] + cs[1..];
    }
  }

  lemma {:induction false} RemovalEvolves(c: Setting, key: string, s: Store, uid: nat, name: string)
    requires NamedAs(s, uid, name) && !Lasting(c, key, name)
    ensures Evolves(c, key, s, Removed(s, uid))
  {
    var t := Removed(s, uid);
    OthersMembers(s.children, uid);
    forall x | x in Names(s.children) && Lasting(c, key, x) ensures x in Names(t.children) {
      var i :| 0 <= i < |s.children| && s.children[i].name == x;
      assert s.children[i] in t.children;
    }
    forall u, n | NamedAs(s, u, n) ensures NamedAs(t, u, n) {
      forall i | 0 <= i < |t.children| && t.children[i].uid == u ensures t.children[i].name == n {
        assert t.children[i] in s.children;
      }
    }
  }

  lemma {:induction false} TouchBacked(c: Setting, key: string, s: Store, name: string)
    requires AllBacked(c, s, key)
    ensures AllBacked(c, Touched(s, name), key)
  {
    var t := Touched(s, name);
    TouchEvolves(c, key, s, name);
    forall i | 0 <= i < |t.children| ensures Backed(c, t, key, t.children[i]) {
      if i < |s.children| {
        BackedStays(c, key, s, t, s.children[i]);
      }
    }
  }

  // Filling is safe when what it makes of the child is backed.
  lemma {:induction false} PutBacked(c: Setting, key: string, s: Store, uid: nat, name: string, content: seq<byte>)
    requires AllBacked(c, s, key) && NamedAs(s, uid, name) && Backed(c, s, key, Child(uid, name, Some(content)))
    ensures AllBacked(c, Put(s, uid, content), key)
  {
    var t := Put(s, uid, content);
    PutEvolves(c, key, s, uid, content);
    forall i | 0 <= i < |t.children| ensures Backed(c, t, key, t.children[i]) {
      if s.children[i].uid == uid {
        assert t.children[i] == Child(uid, name, Some(content));
      }
      BackedStays(c, key, s, t, t.children[i]);
    }
  }

  lemma {:induction false} RemovalBacked(c: Setting, key: string, s: Store, uid: nat, name: string)
    requires AllBacked(c, s, key) && NamedAs(s, uid, name) && !Lasting(c, key, name)
    ensures AllBacked(c, Removed(s, uid), key)
  {
    var t := Removed(s, uid);
    RemovalEvolves(c, key, s, uid, name);
    OthersMembers(s.children, uid);
    forall i | 0 <= i < |t.children| ensures Backed(c, t, key, t.children[i]) {
      assert t.children[i] in s.children;
      BackedStays(c, key, s, t, t.children[i]);
    }
  }

  lemma {:induction false} OthersAreWellkept(cs: seq<Child>, n: nat, uid: nat)
    requires Wellkept(Store(cs, n))
    ensures Wellkept(Store(Others(cs, uid), n))
  {
    if cs != [] {
      OthersAreWellkept(cs[1..], n, uid);
      OthersMembers(cs[1..], uid);
      var rest := Others(cs[1..], uid);
      forall k | 0 <= k < |rest| ensures rest[k].uid != cs[0].uid {
        assert rest[k] in cs[1..];
      }
    }
  }

  // ------------------------------------------------------------- every step keeps it

  // Names that tell keys apart, and manifests of this key that can be read back.
  ghost predicate Legible(c: Setting, key: string) {
    && Faithful(c.format.digest) && Free('.', key)
    && forall r :: 0 <= r < |c.jobs| && KeyFor(c, r) == key ==> ReadsBack(c.format.codec, ManifestFor(c, r))
  }

  ghost predicate Proper(c: Setting, key: string) { Legible(c, key) && Secure(c, key) }

  ghost predicate StoreOk(c: Setting, s: Store, key: string) { Wellkept(s) && AllBacked(c, s, key) }

  // For bar-free pairs: a key is overtaken when a runner has the same pair under a later
  // version of the plugin.
  lemma {:induction false} OvertakenByVersion(c: Setting, p: Pair)
    requires Faithful(c.format.digest) && Plain(p)
    ensures Overtaken(c, PairKey(c.format.digest, p)) <==> exists r :: 0 <= r < |c.jobs| && Later(c.jobs[r].pair, p)
  {
    var key := PairKey(c.format.digest, p);
    forall r | 0 <= r < |c.jobs|
      ensures key in Superseded(c.format, c.jobs[r].pair) <==> Later(c.jobs[r].pair, p)
    {
      OnlyEarlierVersions(c.format, c.jobs[r].pair, p, "", 0, "", 0, None);
      KeyOfOurNames(key, "", 0, "");
    }
  }

  predicate Later(p: Pair, q: Pair) { q.version < p.version && q == p.(version := q.version) }

  lemma {:induction false} KidIsNoMarker(c: Setting, r: nat, i: nat, key: string)
    requires Faithful(c.format.digest) && r < |c.jobs| && i < |Kids(c, r)| && Free('.', key)
    ensures NameAt(c, r, i) != ManifestName(key)
  {
    var k := Kids(c, r)[i];
    ChildIsNotManifest(KeyFor(c, r), k.kind, k.index, k.ext, key);
  }

  lemma {:induction false} KidIsBacked(c: Setting, s: Store, key: string, r: nat, i: nat, uid: nat, content: Option<seq<byte>>)
    requires Faithful(c.format.digest) && r < |c.jobs| && i < |Kids(c, r)| && Free('.', key)
    ensures Backed(c, s, key, Child(uid, NameAt(c, r, i), content))
  {
    KidIsNoMarker(c, r, i, key);
  }

  lemma {:induction false} SameMarker(c: Setting, r: nat, key: string)
    requires Faithful(c.format.digest) && r < |c.jobs| && Free('.', key) && ManifestName(KeyFor(c, r)) == ManifestName(key)
    ensures KeyFor(c, r) == key
  {
    KeyOfOurNames(KeyFor(c, r), "", 0, "");
    KeyOfOurNames(key, "", 0, "");
  }

  lemma {:induction false} PromisesAreThere(c: Setting, s: Store, r: nat)
    requires Faithful(c.format.digest) && r < |c.jobs| && WrittenUpTo(c, s, KeyFor(c, r), r, |Kids(c, r)|)
    ensures AllThere(s, KeyFor(c, r), ManifestFor(c, r).expected)
  {
    var names := ManifestFor(c, r).expected;
    forall i | 0 <= i < |names| ensures KeyOf(names[i]) == KeyFor(c, r) && names[i] in Names(s.children) {
      KidIsOurs(c, r, i);
      assert names[i] == NameAt(c, r, i);
    }
  }

  // The marker is filled only when everything it promises is there.
  lemma {:induction false} MarkerIsBacked(c: Setting, s: Store, key: string, r: nat, uid: nat)
    requires Proper(c, key) && r < |c.jobs| && WrittenUpTo(c, s, key, r, |Kids(c, r)|)
    ensures Backed(c, s, key, Child(uid, ManifestName(KeyFor(c, r)), Some(c.format.codec.encode(ManifestFor(c, r)))))
  {
    if ManifestName(KeyFor(c, r)) == ManifestName(key) {
      SameMarker(c, r, key);
      ReadsBackPlain(c.format.codec, ManifestFor(c, r));
      PromisesAreThere(c, s, r);
      NoKidsInOrder(c, r);
      assert Honoured(c, s, key, ManifestFor(c, r).expected);
    }
  }

  lemma {:induction false} WrittenOneMore(c: Setting, key: string, s: Store, t: Store, r: nat, n: nat)
    requires Faithful(c.format.digest) && Secure(c, key) && r < |c.jobs| && n < |Kids(c, r)| && WrittenUpTo(c, s, key, r, n)
    requires Evolves(c, key, s, t) && (KeyFor(c, r) == key ==> NameAt(c, r, n) in Names(t.children))
    ensures WrittenUpTo(c, t, key, r, n + 1)
  {
    WrittenStays(c, key, s, t, r, n);
  }

  lemma {:induction false} StillThereStays(c: Setting, key: string, s: Store, t: Store, names: set<string>)
    requires Evolves(c, key, s, t) && StillThere(c, s, key, names)
    ensures StillThere(c, t, key, names)
  {
  }

  lemma {:induction false} NewlyNamed(s: Store, name: string)
    requires Wellkept(s)
    ensures NamedAs(Touched(s, name), s.nextUid, name) && Wellkept(Touched(s, name)) && name in Names(Touched(s, name).children)
  {
    TouchedNames(s, name);
  }

  lemma {:induction false} MakeKeeps(c: Setting, key: string, s: Store, stage: Stage, r: nat)
    requires Proper(c, key) && StoreOk(c, s, key) && r < |c.jobs| && Enabled(c, stage, r, Make) && StageOk(c, s, key, stage, r)
    ensures var t := StoreAfter(c, s, stage, r, Make);
            StoreOk(c, t, key) && Evolves(c, key, s, t) && StageOk(c, t, key, StageAfter(c, s, stage, r, Make), r)
  {
    var name, t := NameAt(c, r, stage.next), StoreAfter(c, s, stage, r, Make);
    TouchEvolves(c, key, s, name);
    TouchBacked(c, key, s, name);
    NewlyNamed(s, name);
    WrittenOneMore(c, key, s, t, r, stage.next);
    StillThereStays(c, key, s, t, stage.existing);
  }

  lemma {:induction false} FillKeeps(c: Setting, key: string, s: Store, stage: Stage, r: nat)
    requires Proper(c, key) && StoreOk(c, s, key) && r < |c.jobs| && Enabled(c, stage, r, Fill) && StageOk(c, s, key, stage, r)
    ensures var t := StoreAfter(c, s, stage, r, Fill);
            StoreOk(c, t, key) && Evolves(c, key, s, t) && StageOk(c, t, key, StageAfter(c, s, stage, r, Fill), r)
  {
    var content, t := Kids(c, r)[stage.next].content, StoreAfter(c, s, stage, r, Fill);
    KidIsBacked(c, s, key, r, stage.next, stage.uid, Some(content));
    PutBacked(c, key, s, stage.uid, NameAt(c, r, stage.next), content);
    PutEvolves(c, key, s, stage.uid, content);
    PutIsWellkept(s, stage.uid, content);
    WrittenStays(c, key, s, t, r, stage.next + 1);
    StillThereStays(c, key, s, t, stage.existing);
  }

  lemma {:induction false} EvolvesOn(c: Setting, key: string, s: Store, t: Store, u: Store)
    requires Evolves(c, key, s, t) && Evolves(c, key, t, u)
    ensures Evolves(c, key, s, u)
  {
  }

  lemma {:induction false} MakeFullKeeps(c: Setting, key: string, s: Store, stage: Stage, r: nat)
    requires Proper(c, key) && StoreOk(c, s, key) && r < |c.jobs| && Enabled(c, stage, r, MakeFull) && StageOk(c, s, key, stage, r)
    ensures var t := StoreAfter(c, s, stage, r, MakeFull);
            StoreOk(c, t, key) && Evolves(c, key, s, t) && StageOk(c, t, key, StageAfter(c, s, stage, r, MakeFull), r)
  {
    var name, content, t := NameAt(c, r, stage.next), Kids(c, r)[stage.next].content, StoreAfter(c, s, stage, r, MakeFull);
    var u := Touched(s, name);
    TouchEvolves(c, key, s, name);
    TouchBacked(c, key, s, name);
    NewlyNamed(s, name);
    KidIsBacked(c, u, key, r, stage.next, s.nextUid, Some(content));
    PutBacked(c, key, u, s.nextUid, name, content);
    PutEvolves(c, key, u, s.nextUid, content);
    PutNames(u, s.nextUid, content);
    PutIsWellkept(u, s.nextUid, content);
    EvolvesOn(c, key, s, u, t);
    WrittenOneMore(c, key, s, t, r, stage.next);
    StillThereStays(c, key, s, t, stage.existing);
  }

  lemma {:induction false} MarkKeeps(c: Setting, key: string, s: Store, stage: Stage, r: nat)
    requires Proper(c, key) && StoreOk(c, s, key) && r < |c.jobs| && Enabled(c, stage, r, Mark) && StageOk(c, s, key, stage, r)
    ensures var t := StoreAfter(c, s, stage, r, Mark);
            StoreOk(c, t, key) && Evolves(c, key, s, t) && StageOk(c, t, key, StageAfter(c, s, stage, r, Mark), r)
  {
    var name, t := ManifestName(KeyFor(c, r)), StoreAfter(c, s, stage, r, Mark);
    TouchEvolves(c, key, s, name);
    TouchBacked(c, key, s, name);
    NewlyNamed(s, name);
    WrittenStays(c, key, s, t, r, |Kids(c, r)|);
  }

  lemma {:induction false} CommitKeeps(c: Setting, key: string, s: Store, stage: Stage, r: nat)
    requires Proper(c, key) && StoreOk(c, s, key) && r < |c.jobs| && Enabled(c, stage, r, Step.Commit) && StageOk(c, s, key, stage, r)
    ensures var t := StoreAfter(c, s, stage, r, Step.Commit);
            StoreOk(c, t, key) && Evolves(c, key, s, t) && StageOk(c, t, key, StageAfter(c, s, stage, r, Step.Commit), r)
  {
    var content := c.format.codec.encode(ManifestFor(c, r));
    MarkerIsBacked(c, s, key, r, stage.uid);
    PutBacked(c, key, s, stage.uid, ManifestName(KeyFor(c, r)), content);
    PutEvolves(c, key, s, stage.uid, content);
    PutIsWellkept(s, stage.uid, content);
  }

  lemma {:induction false} PruneKeeps(c: Setting, key: string, s: Store, stage: Stage, r: nat)
    requires Proper(c, key) && StoreOk(c, s, key) && r < |c.jobs| && Enabled(c, stage, r, Prune) && StageOk(c, s, key, stage, r)
    ensures var t := StoreAfter(c, s, stage, r, Prune);
            StoreOk(c, t, key) && Evolves(c, key, s, t) && StageOk(c, t, key, StageAfter(c, s, stage, r, Prune), r)
  {
    var e := stage.listing[stage.next];
    if Dropped(e, Superseded(c.format, c.jobs[r].pair), {}) {
      assert !Lasting(c, key, e.name);
      RemovalEvolves(c, key, s, e.uid, e.name);
      RemovalBacked(c, key, s, e.uid, e.name);
      OthersAreWellkept(s.children, s.nextUid, e.uid);
    }
  }

  // A listed child's number has its name.
  lemma {:induction false} ListedIsNamed(s: Store, e: Child)
    requires Wellkept(s) && e in s.children
    ensures NamedAs(s, e.uid, e.name)
  {
    var k :| 0 <= k < |s.children| && s.children[k] == e;
    assert forall i :: 0 <= i < |s.children| && s.children[i].uid == e.uid ==> i == k;
  }

  lemma {:induction false} EvolvesStill(c: Setting, key: string, s: Store)
    ensures Evolves(c, key, s, s)
  {
  }

  lemma {:induction false} PassKeeps(c: Setting, key: string, s: Store, stage: Stage, r: nat)
    requires Proper(c, key) && r < |c.jobs| && Enabled(c, stage, r, Pass) && StageOk(c, s, key, stage, r)
    ensures StageOk(c, s, key, StageAfter(c, s, stage, r, Pass), r)
  {
    EvolvesStill(c, key, s);
    if KeyFor(c, r) == key {
      KidLasts(c, key, r, stage.next);
      WrittenOneMore(c, key, s, s, r, stage.next);
    }
  }

  lemma {:induction false} LookKeeps(c: Setting, key: string, s: Store, stage: Stage, r: nat)
    requires StoreOk(c, s, key) && r < |c.jobs| && Enabled(c, stage, r, Look) && StageOk(c, s, key, stage, r)
    ensures StageOk(c, s, key, StageAfter(c, s, stage, r, Look), r)
  {
    var e := First(s.children, ManifestName(KeyFor(c, r)));
    if e.Some? {
      ListedIsNamed(s, e.value);
    }
  }

  lemma {:induction false} ListKeeps(s: Store)
    requires Wellkept(s)
    ensures ListingOk(s, s.children)
  {
    forall i | 0 <= i < |s.children| ensures NamedAs(s, s.children[i].uid, s.children[i].name) {
      ListedIsNamed(s, s.children[i]);
    }
  }

  lemma {:induction false} StepKeeps(c: Setting, key: string, s: Store, stage: Stage, r: nat, step: Step)
    requires Proper(c, key) && StoreOk(c, s, key) && r < |c.jobs| && Enabled(c, stage, r, step) && StageOk(c, s, key, stage, r)
    ensures var t := StoreAfter(c, s, stage, r, step);
            StoreOk(c, t, key) && Evolves(c, key, s, t) && StageOk(c, t, key, StageAfter(c, s, stage, r, step), r)
  {
    match step
    case Make => MakeKeeps(c, key, s, stage, r);
    case MakeFull => MakeFullKeeps(c, key, s, stage, r);
    case Fill => FillKeeps(c, key, s, stage, r);
    case Mark => MarkKeeps(c, key, s, stage, r);
    case Commit => CommitKeeps(c, key, s, stage, r);
    case Prune => PruneKeeps(c, key, s, stage, r);
    case Pass =>
      EvolvesStill(c, key, s);
      PassKeeps(c, key, s, stage, r);
    case Look =>
      EvolvesStill(c, key, s);
      LookKeeps(c, key, s, stage, r);
    case _ =>
      EvolvesStill(c, key, s);
      ListKeeps(s);
  }

  ghost predicate Inv(c: Setting, key: string, w: World) {
    && |w.stages| == |c.jobs| && StoreOk(c, w.store, key)
    && forall r :: 0 <= r < |c.jobs| ==> StageOk(c, w.store, key, w.stages[r], r)
  }

  lemma {:induction false} MoveKeeps(c: Setting, key: string, w: World, r: nat, step: Step, w': World)
    requires Proper(c, key) && Inv(c, key, w) && Moves(c, w, r, step, w')
    ensures Inv(c, key, w')
  {
    StepKeeps(c, key, w.store, w.stages[r], r, step);
    forall q | 0 <= q < |c.jobs| ensures StageOk(c, w'.store, key, w'.stages[q], q) {
      if q != r {
        StageStays(c, key, w.store, w'.store, w.stages[q], q);
      }
    }
  }

  // ----------------------------------------------------------------- whole runs

  // Runners about to start.
  ghost predicate Start(c: Setting, w: World) {
    |w.stages| == |c.jobs| && (forall r :: 0 <= r < |c.jobs| ==> w.stages[r].Ready?) && w.store == c.start
  }

  ghost predicate Moved(c: Setting, w: World, w': World) { exists r, step :: Moves(c, w, r, step, w') }

  // A history: from a start, each world one step of one runner from the last.
  ghost predicate History(c: Setting, ws: seq<World>) {
    && ws != [] && Start(c, ws[0])
    && forall k :: 0 <= k < |ws| - 1 ==> Moved(c, ws[k], ws[k + 1])
  }

  lemma {:induction false} HistoryKeeps(c: Setting, key: string, ws: seq<World>, k: nat)
    requires Proper(c, key) && StoreOk(c, c.start, key) && History(c, ws) && k < |ws|
    ensures Inv(c, key, ws[k])
  {
    if k > 0 {
      HistoryKeeps(c, key, ws, k - 1);
      assert Moved(c, ws[k - 1], ws[k - 1 + 1]);
      var r: nat, step :| Moves(c, ws[k - 1], r, step, ws[k]);
      MoveKeeps(c, key, ws[k - 1], r, step, ws[k]);
    }
  }

  // What a reader of this key relies on: a manifest that can be read is complete.
  ghost predicate Safe(c: Setting, s: Store, key: string) {
    var m := ReadManifest(c.format, s, key); m.Some? ==> IsComplete(s, m.value)
  }

  lemma {:induction false} BackedIsSafe(c: Setting, s: Store, key: string)
    requires AllBacked(c, s, key)
    ensures Safe(c, s, key)
    ensures var m := ReadManifest(c.format, s, key); m.Some? ==> AllThere(s, key, m.value.expected)
  {
    var e := First(s.children, ManifestName(key));
    if e.Some? {
      assert Backed(c, s, key, e.value);
    }
  }

  // It may, at every moment of every history, under a key that is not overtaken, or that
  // no runner writes a child under: whoever wrote the manifest, wherever the others
  // stopped, and whatever becomes of other keys.
  lemma {:induction false} CommitSafety(c: Setting, key: string, ws: seq<World>, k: nat)
    requires Proper(c, key) && StoreOk(c, c.start, key) && History(c, ws) && k < |ws|
    ensures Safe(c, ws[k].store, key)
  {
    HistoryKeeps(c, key, ws, k);
    BackedIsSafe(c, ws[k].store, key);
  }

  // ------------------------------------------- children made and filled in one step

  // Bytes a runner has for a name.
  ghost predicate Given(c: Setting, name: string, content: seq<byte>) {
    exists r, i :: 0 <= r < |c.jobs| && 0 <= i < |Kids(c, r)| && NameAt(c, r, i) == name && Kids(c, r)[i].content == content
  }

  // Bytes a child of that name held at the start.
  ghost predicate Found(c: Setting, name: string, content: seq<byte>) {
    exists k :: 0 <= k < |c.start.children| && c.start.children[k].name == name && c.start.children[k].content == Some(content)
  }

  // A child of this key other than its marker is filled, by a runner or from the start.
  ghost predicate Wholesome(c: Setting, key: string, e: Child) {
    KeyOf(e.name) == key && e.name != ManifestName(key) ==>
      e.content.Some? && (Given(c, e.name, e.content.value) || Found(c, e.name, e.content.value))
  }

  ghost predicate AllWholesome(c: Setting, key: string, s: Store) {
    forall k :: 0 <= k < |s.children| ==> Wholesome(c, key, s.children[k])
  }

  // At the start, no child of this key but its marker is empty.
  ghost predicate StartsFilled(c: Setting, key: string) {
    forall k :: 0 <= k < |c.start.children| && KeyOf(c.start.children[k].name) == key && c.start.children[k].name != ManifestName(key)
      ==> c.start.children[k].content.Some?
  }

  lemma {:induction false} MarkerIsWholesome(c: Setting, key: string, r: nat, uid: nat, content: Option<seq<byte>>)
    requires Faithful(c.format.digest) && r < |c.jobs|
    ensures Wholesome(c, key, Child(uid, ManifestName(KeyFor(c, r)), content))
  {
    KeyOfOurNames(KeyFor(c, r), "", 0, "");
  }

  lemma {:induction false} TouchWholesome(c: Setting, key: string, s: Store, name: string)
    requires AllWholesome(c, key, s) && Wholesome(c, key, Child(s.nextUid, name, None))
    ensures AllWholesome(c, key, Touched(s, name))
  {
  }

  lemma {:induction false} PutWholesome(c: Setting, key: string, s: Store, uid: nat, name: string, content: seq<byte>)
    requires NamedAs(s, uid, name) && Wholesome(c, key, Child(uid, name, Some(content)))
    requires forall k :: 0 <= k < |s.children| && s.children[k].uid != uid ==> Wholesome(c, key, s.children[k])
    ensures AllWholesome(c, key, Put(s, uid, content))
  {
    var t := Put(s, uid, content);
    forall k | 0 <= k < |t.children| ensures Wholesome(c, key, t.children[k]) {
      if s.children[k].uid == uid {
        assert t.children[k] == Child(uid, name, Some(content));
      }
    }
  }

  lemma {:induction false} FullChildIsWholesome(c: Setting, key: string, r: nat, i: nat, uid: nat)
    requires r < |c.jobs| && i < |Kids(c, r)|
    ensures Wholesome(c, key, Child(uid, NameAt(c, r, i), Some(Kids(c, r)[i].content)))
  {
    assert Given(c, NameAt(c, r, i), Kids(c, r)[i].content);
  }

  lemma {:induction false} MakeFullWholesome(c: Setting, key: string, s: Store, r: nat, i: nat)
    requires Wellkept(s) && AllWholesome(c, key, s) && r < |c.jobs| && i < |Kids(c, r)|
    ensures AllWholesome(c, key, Put(Touched(s, NameAt(c, r, i)), s.nextUid, Kids(c, r)[i].content))
  {
    var name := NameAt(c, r, i);
    NewlyNamed(s, name);
    FullChildIsWholesome(c, key, r, i, s.nextUid);
    var t := Touched(s, name);
    assert forall k :: 0 <= k < |t.children| && t.children[k].uid != s.nextUid ==> t.children[k] == s.children[k];
    PutWholesome(c, key, t, s.nextUid, name, Kids(c, r)[i].content);
  }

  lemma {:induction false} RemovalWholesome(c: Setting, key: string, s: Store, uid: nat)
    requires AllWholesome(c, key, s)
    ensures AllWholesome(c, key, Removed(s, uid))
  {
    OthersMembers(s.children, uid);
    var t := Removed(s, uid);
    forall k | 0 <= k < |t.children| ensures Wholesome(c, key, t.children[k]) {
      assert t.children[k] in s.children;
    }
  }

  lemma {:induction false} StepWholesome(c: Setting, key: string, s: Store, stage: Stage, r: nat, step: Step)
    requires Faithful(c.format.digest) && c.atomic && Wellkept(s) && AllWholesome(c, key, s)
    requires r < |c.jobs| && Enabled(c, stage, r, step) && StageOk(c, s, key, stage, r)
    ensures AllWholesome(c, key, StoreAfter(c, s, stage, r, step))
  {
    match step
    case MakeFull => MakeFullWholesome(c, key, s, r, stage.next);
    case Mark =>
      MarkerIsWholesome(c, key, r, s.nextUid, None);
      TouchWholesome(c, key, s, ManifestName(KeyFor(c, r)));
    case Commit =>
      MarkerIsWholesome(c, key, r, stage.uid, Some(c.format.codec.encode(ManifestFor(c, r))));
      PutWholesome(c, key, s, stage.uid, ManifestName(KeyFor(c, r)), c.format.codec.encode(ManifestFor(c, r)));
    case Prune => RemovalWholesome(c, key, s, stage.listing[stage.next].uid);
    case _ =>
  }

  lemma {:induction false} MoveWholesome(c: Setting, key: string, w: World, w': World)
    requires Proper(c, key) && c.atomic && Inv(c, key, w) && AllWholesome(c, key, w.store) && Moved(c, w, w')
    ensures AllWholesome(c, key, w'.store)
  {
    var r: nat, step :| Moves(c, w, r, step, w');
    StepWholesome(c, key, w.store, w.stages[r], r, step);
  }

  lemma {:induction false} StartIsWholesome(c: Setting, key: string)
    requires StartsFilled(c, key)
    ensures AllWholesome(c, key, c.start)
  {
    forall k | 0 <= k < |c.start.children| && c.start.children[k].content.Some?
      ensures Found(c, c.start.children[k].name, c.start.children[k].content.value)
    {
    }
  }

  lemma {:induction false} HistoryWholesome(c: Setting, key: string, ws: seq<World>, k: nat)
    requires Proper(c, key) && c.atomic && StoreOk(c, c.start, key) && StartsFilled(c, key) && History(c, ws) && k < |ws|
    ensures AllWholesome(c, key, ws[k].store)
  {
    if k == 0 {
      StartIsWholesome(c, key);
    } else {
      HistoryWholesome(c, key, ws, k - 1);
      HistoryKeeps(c, key, ws, k - 1);
      assert Moved(c, ws[k - 1], ws[k - 1 + 1]);
      MoveWholesome(c, key, ws[k - 1], ws[k]);
    }
  }

  // Then, too, every child the manifest promises is there in full: it holds all the bytes
  // some runner had for it, or those it held at the start. Runners whose plugin answered
  // differently may disagree on which.
  lemma {:induction false} CommitSafetyInFull(c: Setting, key: string, ws: seq<World>, k: nat, name: string)
    requires Proper(c, key) && c.atomic && StoreOk(c, c.start, key) && StartsFilled(c, key) && History(c, ws) && k < |ws|
    requires name != ManifestName(key)
    ensures var m := ReadManifest(c.format, ws[k].store, key);
            m.Some? && name in m.value.expected ==>
              var e := First(ws[k].store.children, name);
              e.Some? && e.value.content.Some? && (Given(c, name, e.value.content.value) || Found(c, name, e.value.content.value))
  {
    HistoryKeeps(c, key, ws, k);
    BackedIsSafe(c, ws[k].store, key);
    HistoryWholesome(c, key, ws, k);
    var e := First(ws[k].store.children, name);
    if e.Some? {
      assert Wholesome(c, key, e.value);
    }
  }

  // These are the only bytes runners have for this name, and the start held no others.
  ghost predicate Settled(c: Setting, name: string, content: seq<byte>) {
    forall other :: Given(c, name, other) || Found(c, name, other) ==> other == content
  }

  // Where there is only one answer, that is what is there.
  lemma {:induction false} AgreedInFull(c: Setting, key: string, ws: seq<World>, k: nat, r: nat, i: nat)
    requires Proper(c, key) && c.atomic && StoreOk(c, c.start, key) && StartsFilled(c, key) && History(c, ws) && k < |ws|
    requires r < |c.jobs| && i < |Kids(c, r)| && Settled(c, NameAt(c, r, i), Kids(c, r)[i].content)
    ensures var m := ReadManifest(c.format, ws[k].store, key);
            m.Some? && NameAt(c, r, i) in m.value.expected ==>
              var e := First(ws[k].store.children, NameAt(c, r, i));
              e.Some? && e.value.content == Some(Kids(c, r)[i].content)
  {
    KidIsNoMarker(c, r, i, key);
    CommitSafetyInFull(c, key, ws, k, NameAt(c, r, i));
  }

  // A world some history reaches.
  ghost predicate Reached(c: Setting, w: World) {
    exists ws :: History(c, ws) && ws[|ws| - 1] == w
  }

  lemma {:induction false} ReachStart(c: Setting, w: World)
    requires Start(c, w)
    ensures Reached(c, w)
  {
    assert History(c, [w]);
  }

  lemma {:induction false} ReachNext(c: Setting, w: World, r: nat, step: Step, w': World)
    requires Reached(c, w) && Moves(c, w, r, step, w')
    ensures Reached(c, w')
  {
    var ws :| History(c, ws) && ws[|ws| - 1] == w;
    var more := ws + [w'];
    forall k | 0 <= k < |more| - 1 ensures Moved(c, more[k], more[k + 1]) {
      if k < |ws| - 1 {
        assert Moved(c, ws[k], ws[k + 1]);
      } else {
        assert Moved(c, w, w');
      }
    }
    assert History(c, more);
  }
}
