/** Results kept as hidden children of a file: content first, the manifest last. */
module Renditions {
  import opened Wrappers
  import opened Bytes
  import opened JsonText
  import opened Naming
  import opened Sorting

  // A hidden child: made empty under a name, filled afterwards.
  datatype Child = Child(uid: nat, name: string, content: Option<seq<byte>>)

  datatype Store = Store(children: seq<Child>, nextUid: nat)

  // Numbers are given out once.
  ghost predicate Wellkept(s: Store) {
    && (forall i :: 0 <= i < |s.children| ==> s.children[i].uid < s.nextUid)
    && (forall i, j :: 0 <= i < j < |s.children| ==> s.children[i].uid != s.children[j].uid)
  }

  function Names(cs: seq<Child>): set<string> { set i | 0 <= i < |cs| :: cs[i].name }

  // The first child of a name; names may repeat.
  function First(cs: seq<Child>, name: string): (r: Option<Child>)
    ensures r.Some? ==> r.value in cs && r.value.name == name
    ensures r.Some? <==> name in Names(cs)
  {
    if cs == [] then None
    else if cs[0].name == name then
      assert cs[0].name in Names(cs);
      Some(cs[0])
    else
      assert forall x :: x in Names(cs) && x != cs[0].name ==> x in Names(cs[1..]) by {
        forall x | x in Names(cs) && x != cs[0].name ensures x in Names(cs[1..]) {
          var i :| 0 <= i < |cs| && cs[i].name == x;
          assert cs[1..][i - 1].name == x;
        }
      }
      assert forall i :: 0 <= i < |cs| - 1 ==> cs[1..][i] == cs[i + 1];
      First(cs[1..], name)
  }

  // ------------------------------------------------------- the store's operations

  function Touched(s: Store, name: string): Store {
    Store(s.children + [Child(s.nextUid, name, None)], s.nextUid + 1)
  }

  function FilledIn(c: Child, uid: nat, content: seq<byte>): Child {
    if c.uid == uid then c.(content := Some(content)) else c
  }

  function Put(s: Store, uid: nat, content: seq<byte>): (t: Store)
    ensures t.nextUid == s.nextUid && |t.children| == |s.children|
    ensures forall i :: 0 <= i < |s.children| ==> t.children[i] == FilledIn(s.children[i], uid, content)
  {
    s.(children := seq(|s.children|, i requires 0 <= i < |s.children| => FilledIn(s.children[i], uid, content)))
  }

  function Others(cs: seq<Child>, uid: nat): seq<Child> {
    if cs == [] then []
    else if cs[0].uid == uid then Others(cs[1..], uid)
    else [cs[0]] + Others(cs[1..], uid)
  }

  function Removed(s: Store, uid: nat): Store { s.(children := Others(s.children, uid)) }

  // The file engine as this service sees it.
  class FileEngine {
    var children: seq<Child>
    var nextUid: nat

    function State(): Store
      reads this
    {
      Store(children, nextUid)
    }

    constructor (s: Store)
      ensures State() == s
    {
      children, nextUid := s.children, s.nextUid;
    }

    method Touch(name: string) returns (uid: nat)
      modifies this
      ensures State() == Touched(old(State()), name) && uid == old(nextUid)
    {
      uid := nextUid;
      children := children + [Child(uid, name, None)];
      nextUid := nextUid + 1;
    }

    method PutStream(uid: nat, content: seq<byte>)
      modifies this
      ensures State() == Put(old(State()), uid, content)
    {
      var before := children;
      children := seq(|before|, i requires 0 <= i < |before| => FilledIn(before[i], uid, content));
    }

    method Remove(uid: nat)
      modifies this
      ensures State() == Removed(old(State()), uid)
    {
      children := Others(children, uid);
    }
  }

  // ---------------------------------------------------------- results and manifests

  // One child of a plugin's result.
  datatype Kid = Kid(kind: string, index: nat, ext: string, mode: string, content: seq<byte>)

  datatype Result = Result(kids: seq<Kid>, failed: bool, mode: string, failure: Option<string>)

  datatype Manifest = Manifest(
    pair: Pair,
    failed: bool,
    mode: string,
    units: seq<(nat, string, string)>,
    expected: seq<string>,
    failure: Option<string>)

  // How names are digested and manifests written.
  datatype Format = Format(digest: Digest, codec: Codec<Manifest>)

  function InOrder(kids: seq<Kid>): seq<Kid> { Sort(kids, (a: Kid, b: Kid) => a.index <= b.index) }

  function KidName(key: string, k: Kid): string { ChildName(key, k.kind, k.index, k.ext) }

  function KidNames(key: string, kids: seq<Kid>): (r: seq<string>)
    ensures |r| == |kids| && forall i :: 0 <= i < |r| ==> r[i] == KidName(key, kids[i])
  {
    seq(|kids|, i requires 0 <= i < |kids| => KidName(key, kids[i]))
  }

  function Units(kids: seq<Kid>): seq<(nat, string, string)> {
    seq(|kids|, i requires 0 <= i < |kids| => (kids[i].index, kids[i].mode, kids[i].kind))
  }

  function FromResult(f: Format, p: Pair, r: Result): Manifest {
    var kids := InOrder(r.kids);
    Manifest(p, r.failed, r.mode, Units(kids), KidNames(PairKey(f.digest, p), kids), r.failure)
  }

  // -------------------------------------------------------------------- reading

  // A manifest that is missing, empty or unreadable counts as absent.
  function ReadManifest(f: Format, s: Store, key: string): Option<Manifest> {
    match First(s.children, ManifestName(key))
    case None => None
    case Some(c) => if c.content.None? then None else f.codec.decode(c.content.value)
  }

  predicate IsComplete(s: Store, m: Manifest) {
    forall i :: 0 <= i < |m.expected| ==> m.expected[i] in Names(s.children)
  }

  // -------------------------------------------------------------------- writing

  // A child already there under the name is taken as written.
  function WithKid(s: Store, existing: set<string>, name: string, content: seq<byte>): Store {
    if name in existing then s else Put(Touched(s, name), s.nextUid, content)
  }

  function WithKids(s: Store, existing: set<string>, key: string, kids: seq<Kid>): Store {
    if kids == [] then s
    else
      var last := kids[|kids| - 1];
      WithKid(WithKids(s, existing, key, kids[..|kids| - 1]), existing, KidName(key, last), last.content)
  }

  // The marker is overwritten where it stands.
  function WithMarker(s: Store, name: string, content: seq<byte>): Store {
    match First(s.children, name)
    case Some(c) => Put(s, c.uid, content)
    case None => Put(Touched(s, name), s.nextUid, content)
  }

  function Written(f: Format, s: Store, p: Pair, r: Result): Store {
    var key := PairKey(f.digest, p);
    WithMarker(WithKids(s, Names(s.children), key, InOrder(r.kids)), ManifestName(key), f.codec.encode(FromResult(f, p, r)))
  }

  // Content children first, then the manifest.
  method WriteResult(f: Format, engine: FileEngine, p: Pair, r: Result) returns (m: Manifest)
    modifies engine
    ensures m == FromResult(f, p, r)
    ensures engine.State() == Written(f, old(engine.State()), p, r)
  {
    m := FromResult(f, p, r);
    var key := PairKey(f.digest, p);
    WriteKids(engine, key, InOrder(r.kids));
    var mname := ManifestName(key);
    var found := First(engine.children, mname);
    var muid: nat;
    if found.Some? {
      muid := found.value.uid;
    } else {
      muid := engine.Touch(mname);
    }
    engine.PutStream(muid, f.codec.encode(m));
  }

  method WriteKids(engine: FileEngine, key: string, kids: seq<Kid>)
    modifies engine
    ensures engine.State() == WithKids(old(engine.State()), Names(old(engine.children)), key, kids)
  {
    var existing := Names(engine.children);
    for i := 0 to |kids|
      invariant engine.State() == WithKids(old(engine.State()), existing, key, kids[..i])
    {
      var name := KidName(key, kids[i]);
      assert kids[..i + 1][..i] == kids[..i];
      if name in existing {
        continue;
      }
      var uid := engine.Touch(name);
      engine.PutStream(uid, kids[i].content);
    }
    assert kids[..|kids|] == kids;
  }

  // -------------------------------------------------------------------- pruning

  predicate Dropped(c: Child, drop: set<string>, stuck: set<nat>) {
    IsDiffChild(c.name) && KeyOf(c.name) in drop && c.uid !in stuck
  }

  // What a prune leaves: everything but our children of the dropped keys, less those
  // whose removal fails.
  function Kept(cs: seq<Child>, drop: set<string>, stuck: set<nat>): seq<Child> {
    if cs == [] then []
    else
      var rest := Kept(cs[..|cs| - 1], drop, stuck);
      if Dropped(cs[|cs| - 1], drop, stuck) then rest else rest + [cs[|cs| - 1]]
  }

  function Pruned(s: Store, drop: set<string>, stuck: set<nat>): Store { s.(children := Kept(s.children, drop, stuck)) }

  lemma {:induction false} OthersConcat(a: seq<Child>, b: seq<Child>, uid: nat)
    ensures Others(a + b, uid) == Others(a, uid) + Others(b, uid)
  {
    if a == [] {
      assert a + b == b;
    } else {
      assert (a + b)[1..] == a[1..] + b;
      OthersConcat(a[1..], b, uid);
    }
  }

  lemma {:induction false} NothingToRemove(cs: seq<Child>, uid: nat)
    requires forall i :: 0 <= i < |cs| ==> cs[i].uid != uid
    ensures Others(cs, uid) == cs
  {
    if cs != [] {
      NothingToRemove(cs[1..], uid);
    }
  }

  lemma {:induction false} KeptMembers(cs: seq<Child>, drop: set<string>, stuck: set<nat>)
    ensures forall c :: c in Kept(cs, drop, stuck) <==> c in cs && !Dropped(c, drop, stuck)
  {
    if cs != [] {
      KeptMembers(cs[..|cs| - 1], drop, stuck);
      assert cs == cs[..|cs| - 1] + [cs[|cs| - 1]];
    }
  }

  // A listing pruned up to its `i`-th child.
  function Midway(cs: seq<Child>, i: nat, drop: set<string>, stuck: set<nat>): seq<Child>
    requires i <= |cs|
  {
    Kept(cs[..i], drop, stuck) + cs[i..]
  }

  lemma {:induction false} KeepNext(cs: seq<Child>, i: nat, drop: set<string>, stuck: set<nat>)
    requires i < |cs| && !Dropped(cs[i], drop, stuck)
    ensures Midway(cs, i + 1, drop, stuck) == Midway(cs, i, drop, stuck)
  {
    assert cs[..i + 1][..i] == cs[..i] && cs[i..] == [cs[i]] + cs[i + 1..];
  }

  lemma {:induction false} EarlierKept(s: Store, i: nat, drop: set<string>, stuck: set<nat>)
    requires Wellkept(s) && i < |s.children|
    ensures Others(Kept(s.children[..i], drop, stuck), s.children[i].uid) == Kept(s.children[..i], drop, stuck)
  {
    var front := Kept(s.children[..i], drop, stuck);
    KeptMembers(s.children[..i], drop, stuck);
    forall k | 0 <= k < |front| ensures front[k].uid != s.children[i].uid {
      assert front[k] in s.children[..i];
    }
    NothingToRemove(front, s.children[i].uid);
  }

  lemma {:induction false} LaterKept(s: Store, i: nat)
    requires Wellkept(s) && i < |s.children|
    ensures Others(s.children[i..], s.children[i].uid) == s.children[i + 1..]
  {
    var rest := s.children[i + 1..];
    assert s.children[i..][1..] == rest;
    NothingToRemove(rest, s.children[i].uid);
  }

  // Removing the next child of a listing leaves the rest of it alone.
  lemma {:induction false} RemoveNext(s: Store, i: nat, drop: set<string>, stuck: set<nat>)
    requires Wellkept(s) && i < |s.children| && Dropped(s.children[i], drop, stuck)
    ensures Others(Midway(s.children, i, drop, stuck), s.children[i].uid) == Midway(s.children, i + 1, drop, stuck)
  {
    var cs := s.children;
    EarlierKept(s, i, drop, stuck);
    LaterKept(s, i);
    OthersConcat(Kept(cs[..i], drop, stuck), cs[i..], cs[i].uid);
    assert cs[..i + 1][..i] == cs[..i];
  }

  function DroppedNames(cs: seq<Child>, drop: set<string>, stuck: set<nat>): seq<string> {
    if cs == [] then []
    else
      var rest := DroppedNames(cs[..|cs| - 1], drop, stuck);
      if Dropped(cs[|cs| - 1], drop, stuck) then rest + [cs[|cs| - 1].name] else rest
  }

  method PruneKeys(engine: FileEngine, drop: set<string>, stuck: set<nat>) returns (removed: seq<string>)
    requires Wellkept(engine.State())
    modifies engine
    ensures engine.State() == Pruned(old(engine.State()), drop, stuck)
    ensures removed == DroppedNames(old(engine.children), drop, stuck)
  {
    if drop == {} {
      NothingDropped(engine.children, stuck);
      return [];
    }
    removed := PruneListing(engine, engine.children, drop, stuck);
  }

  method PruneListing(engine: FileEngine, listing: seq<Child>, drop: set<string>, stuck: set<nat>) returns (removed: seq<string>)
    requires Wellkept(engine.State()) && listing == engine.children
    modifies engine
    ensures engine.State() == Pruned(old(engine.State()), drop, stuck)
    ensures removed == DroppedNames(listing, drop, stuck)
  {
    ghost var before := engine.State();
    removed := [];
    assert Midway(listing, 0, drop, stuck) == listing;
    for i := 0 to |listing|
      invariant engine.State() == before.(children := Midway(listing, i, drop, stuck))
      invariant removed == DroppedNames(listing[..i], drop, stuck)
    {
      assert listing[..i + 1][..i] == listing[..i];
      if Dropped(listing[i], drop, stuck) {
        RemoveNext(before, i, drop, stuck);
        engine.Remove(listing[i].uid);
        removed := removed + [listing[i].name];
      } else {
        KeepNext(listing, i, drop, stuck);
      }
    }
    assert listing[..|listing|] == listing;
    assert Midway(listing, |listing|, drop, stuck) == Kept(listing, drop, stuck);
  }

  lemma {:induction false} NothingDropped(cs: seq<Child>, stuck: set<nat>)
    ensures Kept(cs, {}, stuck) == cs && DroppedNames(cs, {}, stuck) == []
  {
    if cs != [] {
      NothingDropped(cs[..|cs| - 1], stuck);
    }
  }
}
