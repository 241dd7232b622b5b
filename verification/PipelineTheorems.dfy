/** What a committing run leaves behind: a result the next run finds, and every other
    comparison untouched. */
module PipelineTheorems {
  import opened Wrappers
  import opened Bytes
  import opened Decimal
  import opened JsonText
  import opened Naming
  import opened Renditions
  import opened Pipeline
  import Indexing

  // -------------------------------------------------- names through the operations

  lemma {:induction false} TouchedNames(s: Store, name: string)
    ensures Names(Touched(s, name).children) == Names(s.children) + {name}
  {
    var cs := Touched(s, name).children;
    assert cs[|s.children|].name == name;
    forall x | x in Names(s.children) ensures x in Names(cs) {
      var i :| 0 <= i < |s.children| && s.children[i].name == x;
      assert cs[i].name == x;
    }
  }

  lemma {:induction false} PutNames(s: Store, uid: nat, content: seq<byte>)
    ensures Names(Put(s, uid, content).children) == Names(s.children)
  {
    var cs := Put(s, uid, content).children;
    forall x | x in Names(s.children) ensures x in Names(cs) {
      var i :| 0 <= i < |s.children| && s.children[i].name == x;
      assert cs[i].name == x;
    }
  }

  function Set(names: seq<string>): set<string> { set i | 0 <= i < |names| :: names[i] }

  lemma {:induction false} SetOfOneMore(names: seq<string>, name: string)
    ensures Set(names + [name]) == Set(names) + {name}
  {
    var all := names + [name];
    assert all[|names|] == name;
    forall x | x in Set(names) ensures x in Set(all) {
      var i :| 0 <= i < |names| && names[i] == x;
      assert all[i] == x;
    }
  }

  lemma {:induction false} LastName(key: string, kids: seq<Kid>)
    requires kids != []
    ensures Set(KidNames(key, kids)) == Set(KidNames(key, kids[..|kids| - 1])) + {KidName(key, kids[|kids| - 1])}
  {
    var init, last := KidNames(key, kids[..|kids| - 1]), KidName(key, kids[|kids| - 1]);
    LastKidName(key, kids);
    SetOfOneMore(init, last);
  }

  lemma {:induction false} LastKidName(key: string, kids: seq<Kid>)
    requires kids != []
    ensures KidNames(key, kids) == KidNames(key, kids[..|kids| - 1]) + [KidName(key, kids[|kids| - 1])]
  {
    var name := (k: Kid) => KidName(key, k);
    AsImage(key, kids, name);
    AsImage(key, kids[..|kids| - 1], name);
    LastImage(name, kids);
  }

  lemma {:induction false} AsImage(key: string, kids: seq<Kid>, name: Kid -> string)
    requires forall k :: name(k) == KidName(key, k)
    ensures KidNames(key, kids) == Indexing.MapSeq(name, kids)
  {
  }

  lemma {:induction false} LastImage<S, T>(f: S -> T, s: seq<S>)
    requires s != []
    ensures Indexing.MapSeq(f, s) == Indexing.MapSeq(f, s[..|s| - 1]) + [f(s[|s| - 1])]
  {
  }

  lemma {:induction false} KidsNames(s: Store, existing: set<string>, key: string, kids: seq<Kid>)
    requires existing <= Names(s.children)
    ensures Names(WithKids(s, existing, key, kids).children) == Names(s.children) + Set(KidNames(key, kids))
  {
    if kids == [] {
      assert Set(KidNames(key, kids)) == {};
    } else {
      var init, last := kids[..|kids| - 1], kids[|kids| - 1];
      var t, name := WithKids(s, existing, key, init), KidName(key, last);
      KidsNames(s, existing, key, init);
      LastName(key, kids);
      TouchedNames(t, name);
      PutNames(Touched(t, name), t.nextUid, last.content);
    }
  }

  lemma {:induction false} MarkerNames(s: Store, name: string, content: seq<byte>)
    ensures Names(WithMarker(s, name, content).children) == Names(s.children) + {name}
  {
    TouchedNames(s, name);
    PutNames(Touched(s, name), s.nextUid, content);
    if First(s.children, name).Some? {
      PutNames(s, First(s.children, name).value.uid, content);
    }
  }

  // Everything a result promises is there once it is written.
  lemma {:induction false} WrittenNames(f: Format, s: Store, p: Pair, r: Result)
    ensures var key := PairKey(f.digest, p);
            Names(Written(f, s, p, r).children)
            == Names(s.children) + Set(KidNames(key, InOrder(r.kids))) + {ManifestName(key)}
  {
    var key := PairKey(f.digest, p);
    KidsNames(s, Names(s.children), key, InOrder(r.kids));
    MarkerNames(WithKids(s, Names(s.children), key, InOrder(r.kids)), ManifestName(key), f.codec.encode(FromResult(f, p, r)));
  }

  // ---------------------------------------------------------- the first of a name

  lemma {:induction false} FirstConcat(a: seq<Child>, b: seq<Child>, name: string)
    ensures First(a + b, name) == if First(a, name).Some? then First(a, name) else First(b, name)
  {
    if a == [] {
      assert a + b == b;
    } else {
      assert (a + b)[1..] == a[1..] + b;
      FirstConcat(a[1..], b, name);
    }
  }

  lemma {:induction false} FirstAfterPut(s: Store, uid: nat, content: seq<byte>, name: string)
    ensures First(Put(s, uid, content).children, name)
            == match First(s.children, name) case None => None case Some(c) => Some(FilledIn(c, uid, content))
    decreases |s.children|
  {
    if s.children != [] {
      var rest := s.(children := s.children[1..]);
      assert Put(s, uid, content).children[1..] == Put(rest, uid, content).children;
      FirstAfterPut(rest, uid, content, name);
    }
  }

  lemma {:induction false} FirstAfterTouch(s: Store, made: string, name: string)
    ensures First(Touched(s, made).children, name)
            == if First(s.children, name).Some? then First(s.children, name)
               else if made == name then Some(Child(s.nextUid, made, None)) else None
  {
    FirstConcat(s.children, [Child(s.nextUid, made, None)], name);
    assert [Child(s.nextUid, made, None)][1..] == [];
  }

  lemma {:induction false} MarkerIsFirst(s: Store, name: string, content: seq<byte>)
    ensures var c := First(WithMarker(s, name, content).children, name); c.Some? && c.value.content == Some(content)
  {
    match First(s.children, name)
    case Some(c) => FirstAfterPut(s, c.uid, content, name);
    case None =>
      FirstAfterTouch(s, name, name);
      FirstAfterPut(Touched(s, name), s.nextUid, content, name);
  }

  lemma {:induction false} FirstKept(cs: seq<Child>, drop: set<string>, stuck: set<nat>, name: string)
    requires KeyOf(name) !in drop
    ensures First(Kept(cs, drop, stuck), name) == First(cs, name)
  {
    if cs != [] {
      var init, last := cs[..|cs| - 1], cs[|cs| - 1];
      assert cs == init + [last];
      FirstKept(init, drop, stuck, name);
      FirstConcat(init, [last], name);
      FirstConcat(Kept(init, drop, stuck), [last], name);
      assert [last][1..] == [];
    }
  }

  lemma {:induction false} KeptNames(cs: seq<Child>, drop: set<string>, stuck: set<nat>, name: string)
    requires KeyOf(name) !in drop
    ensures name in Names(Kept(cs, drop, stuck)) <==> name in Names(cs)
  {
    FirstKept(cs, drop, stuck, name);
  }

  // ----------------------------------------------------------------- self-healing

  lemma {:induction false} CancelPrefix(a: string, b: string, c: string)
    requires a + b == a + c
    ensures b == c
  {
    assert (a + b)[|a|..] == b && (a + c)[|a|..] == c;
  }

  // A plugin's version is part of its key.
  lemma {:induction false} VersionsTellApart(digest: Digest, p: Pair, v: nat)
    requires Faithful(digest) && PairKey(digest, p.(version := v)) == PairKey(digest, p)
    ensures v == p.version
  {
    var front := p.file + "|" + p.base + "|" + p.target + "|" + p.plugin + "|";
    JoinFive(p.file, p.base, p.target, p.plugin, Dec(v));
    JoinFive(p.file, p.base, p.target, p.plugin, Dec(p.version));
    CancelPrefix(front, Dec(v), Dec(p.version));
    DecIsInjective(v, p.version);
  }

  lemma {:induction false} OwnKeyIsKept(f: Format, p: Pair)
    requires Faithful(f.digest)
    ensures PairKey(f.digest, p) !in Superseded(f, p)
  {
    forall v: nat | v < p.version ensures PairKey(f.digest, p.(version := v)) != PairKey(f.digest, p) {
      if PairKey(f.digest, p.(version := v)) == PairKey(f.digest, p) {
        VersionsTellApart(f.digest, p, v);
      }
    }
  }

  lemma {:induction false} CommitIsRead(f: Format, s: Store, p: Pair, r: Result, stuck: set<nat>)
    requires Faithful(f.digest) && ReadsBack(f.codec, FromResult(f, p, r))
    ensures ReadManifest(f, Committed(f, s, p, r, stuck), PairKey(f.digest, p)) == Some(FromResult(f, p, r))
  {
    var key, kids, m := PairKey(f.digest, p), InOrder(r.kids), FromResult(f, p, r);
    OwnKeyIsKept(f, p);
    KeyOfOurNames(key, "", 0, "");
    MarkerIsFirst(WithKids(s, Names(s.children), key, kids), ManifestName(key), f.codec.encode(m));
    FirstKept(Written(f, s, p, r).children, Superseded(f, p), stuck, ManifestName(key));
    ReadsBackPlain(f.codec, m);
  }

  lemma {:induction false} CommitIsComplete(f: Format, s: Store, p: Pair, r: Result, stuck: set<nat>)
    requires Faithful(f.digest)
    ensures IsComplete(Committed(f, s, p, r, stuck), FromResult(f, p, r))
  {
    var key, kids, t := PairKey(f.digest, p), InOrder(r.kids), Written(f, s, p, r);
    OwnKeyIsKept(f, p);
    WrittenNames(f, s, p, r);
    var expected := KidNames(key, kids);
    forall i | 0 <= i < |expected| ensures expected[i] in Names(Kept(t.children, Superseded(f, p), stuck)) {
      KeyOfOurNames(key, kids[i].kind, kids[i].index, kids[i].ext);
      assert expected[i] in Set(expected);
      KeptNames(t.children, Superseded(f, p), stuck, expected[i]);
    }
  }

  // A committed result is found again, whole.
  lemma {:induction false} CommitIsHit(f: Format, s: Store, p: Pair, r: Result, stuck: set<nat>)
    requires Faithful(f.digest) && ReadsBack(f.codec, FromResult(f, p, r))
    ensures Hit(f, Committed(f, s, p, r, stuck), p) == Some(FromResult(f, p, r))
  {
    CommitIsRead(f, s, p, r, stuck);
    CommitIsComplete(f, s, p, r, stuck);
  }

  lemma {:induction false} PairSettles(f: Format, s: Store, p: Pair, answer: Result, sources: Sources, sources': Sources, force: bool, stuck: set<nat>, stuck': set<nat>)
    requires Faithful(f.digest) && ReadsBack(f.codec, FromResult(f, p, answer))
    requires RunOnPair(f, s, p, answer, sources, force, stuck).report.outcome in {Computed, Failed, Cached}
    ensures var run := RunOnPair(f, s, p, answer, sources, force, stuck);
            RunOnPair(f, run.store, p, answer, sources', false, stuck') == Run(run.store, Report(Cached, run.report.manifest), false)
  {
    if force || Hit(f, s, p).None? {
      CommitIsHit(f, s, p, answer, stuck);
    }
  }

  // Whatever state the store was left in, once a run has committed or found a result
  // the same request finds it, changes nothing and asks no plugin.
  lemma {:induction false} RunSettles(f: Format, s: Store, req: Request, plugin: Plugin?, stuck: set<nat>, stuck': set<nat>, sources': Sources)
    requires Faithful(f.digest)
    requires plugin != null && req.resolution.Versions? ==>
               ReadsBack(f.codec, FromResult(f, Pair(req.file, req.resolution.base, req.resolution.target, plugin.name, plugin.version), plugin.answer))
    requires RunOn(f, s, req, plugin, stuck).report.outcome in {Computed, Failed, Cached}
    ensures var run := RunOn(f, s, req, plugin, stuck);
            RunOn(f, run.store, req.(force := false, sources := sources'), plugin, stuck')
            == Run(run.store, Report(Cached, run.report.manifest), false)
  {
    var p := Pair(req.file, req.resolution.base, req.resolution.target, plugin.name, plugin.version);
    PairSettles(f, s, p, plugin.answer, req.sources, sources', req.force, stuck, stuck');
  }

  // ------------------------------------------------------------------ prune frame

  lemma {:induction false} KidsKeepOthers(s: Store, existing: set<string>, key: string, kids: seq<Kid>, c: Child)
    requires Wellkept(s) && Free('.', key) && KeyOf(c.name) != key
    ensures c in WithKids(s, existing, key, kids).children <==> c in s.children
  {
    if kids != [] {
      var last := kids[|kids| - 1];
      var t := WithKids(s, existing, key, kids[..|kids| - 1]);
      KidsKeepOthers(s, existing, key, kids[..|kids| - 1], c);
      KidsAreWellkept(s, existing, key, kids[..|kids| - 1]);
      KeyOfOurNames(key, last.kind, last.index, last.ext);
      NewChildKeepsOthers(t, KidName(key, last), last.content, c);
    }
  }

  lemma {:induction false} NewChildKeepsOthers(s: Store, name: string, content: seq<byte>, c: Child)
    requires Wellkept(s) && c.name != name
    ensures c in Put(Touched(s, name), s.nextUid, content).children <==> c in s.children
  {
    var t := Put(Touched(s, name), s.nextUid, content).children;
    assert forall i :: 0 <= i < |s.children| ==> t[i] == s.children[i];
    assert t == s.children + [Child(s.nextUid, name, Some(content))];
  }

  lemma {:induction false} PutKeepsOthers(s: Store, d: Child, content: seq<byte>, c: Child)
    requires Wellkept(s) && d in s.children && c.name != d.name
    ensures c in Put(s, d.uid, content).children <==> c in s.children
  {
    var t := Put(s, d.uid, content).children;
    var k :| 0 <= k < |s.children| && s.children[k] == d;
    assert forall i :: 0 <= i < |s.children| && i != k ==> t[i] == s.children[i];
    if c in s.children {
      var i :| 0 <= i < |s.children| && s.children[i] == c;
      assert t[i] == c;
    }
  }

  lemma {:induction false} WriteKeepsOthers(f: Format, s: Store, p: Pair, r: Result, c: Child)
    requires Wellkept(s) && Faithful(f.digest) && KeyOf(c.name) != PairKey(f.digest, p)
    ensures c in Written(f, s, p, r).children <==> c in s.children
  {
    var key := PairKey(f.digest, p);
    var kids, name, content := InOrder(r.kids), ManifestName(key), f.codec.encode(FromResult(f, p, r));
    var t := WithKids(s, Names(s.children), key, kids);
    KidsKeepOthers(s, Names(s.children), key, kids, c);
    KidsAreWellkept(s, Names(s.children), key, kids);
    KeyOfOurNames(key, "", 0, "");
    match First(t.children, name)
    case Some(d) => PutKeepsOthers(t, d, content, c);
    case None => NewChildKeepsOthers(t, name, content, c);
  }

  // The child of an earlier generation of the same pair.
  ghost predicate Outdated(f: Format, p: Pair, c: Child) {
    IsDiffChild(c.name) && KeyOf(c.name) in Superseded(f, p)
  }

  // Outside its own key a committing run changes no child and adds none, and the only
  // ones it removes belong to the same pair under an earlier version of the plugin.
  lemma {:induction false} CommitKeepsOthers(f: Format, s: Store, p: Pair, r: Result, stuck: set<nat>, c: Child)
    requires Wellkept(s) && Faithful(f.digest) && KeyOf(c.name) != PairKey(f.digest, p)
    ensures c in Committed(f, s, p, r, stuck).children <==> c in s.children && (Outdated(f, p, c) ==> c.uid in stuck)
  {
    WriteKeepsOthers(f, s, p, r, c);
    KeptMembers(Written(f, s, p, r).children, Superseded(f, p), stuck);
  }

  // So the children of another comparison are outdated just when it is the same pair
  // under an earlier version: no other pair's, and no other service's, is ever lost.
  lemma {:induction false} OnlyEarlierVersions(f: Format, p: Pair, q: Pair, kind: string, index: nat, ext: string, uid: nat, content: Option<seq<byte>>)
    requires Faithful(f.digest) && (Plain(p) || Plain(q))
    ensures Outdated(f, p, Child(uid, ChildName(PairKey(f.digest, q), kind, index, ext), content))
            <==> q.version < p.version && q == p.(version := q.version)
    ensures Outdated(f, p, Child(uid, ManifestName(PairKey(f.digest, q)), content))
            <==> q.version < p.version && q == p.(version := q.version)
  {
    KeyOfOurNames(PairKey(f.digest, q), kind, index, ext);
    if PairKey(f.digest, q) in Superseded(f, p) {
      var v: nat :| v < p.version && PairKey(f.digest, q) == PairKey(f.digest, p.(version := v));
      if Plain(q) {
        KeysTellPairsApart(f.digest, q, p.(version := v));
      } else {
        KeysTellPairsApart(f.digest, p.(version := v), q);
      }
    }
  }

  // ------------------------------------------------------- what a write fills

  // A reader takes the first child of a name, and gets all of it.
  predicate Full(s: Store, name: string) {
    First(s.children, name).Some? && First(s.children, name).value.content.Some?
  }

  lemma {:induction false} KidKeepsFirst(s: Store, made: string, content: seq<byte>, name: string)
    requires Wellkept(s) && name in Names(s.children)
    ensures First(Put(Touched(s, made), s.nextUid, content).children, name) == First(s.children, name)
  {
    FirstAfterTouch(s, made, name);
    FirstAfterPut(Touched(s, made), s.nextUid, content, name);
    var c := First(s.children, name).value;
    assert c in s.children;
  }

  lemma {:induction false} KidsFill(s: Store, existing: set<string>, key: string, kids: seq<Kid>, name: string)
    requires Wellkept(s) && existing == Names(s.children)
    ensures name in existing ==> First(WithKids(s, existing, key, kids).children, name) == First(s.children, name)
    ensures name !in existing && name in Set(KidNames(key, kids)) ==> Full(WithKids(s, existing, key, kids), name)
  {
    if kids != [] {
      var init, last := kids[..|kids| - 1], kids[|kids| - 1];
      var t, made := WithKids(s, existing, key, init), KidName(key, last);
      KidsFill(s, existing, key, init, name);
      KidsAreWellkept(s, existing, key, init);
      KidsNames(s, existing, key, init);
      LastName(key, kids);
      if name in Names(t.children) {
        KidKeepsFirst(t, made, last.content, name);
      } else {
        FirstAfterTouch(t, made, name);
        FirstAfterPut(Touched(t, made), t.nextUid, last.content, name);
      }
    }
  }

  lemma {:induction false} MarkerKeepsFirst(s: Store, mname: string, content: seq<byte>, name: string)
    requires Wellkept(s) && name != mname && name in Names(s.children)
    ensures First(WithMarker(s, mname, content).children, name) == First(s.children, name)
  {
    match First(s.children, mname)
    case None => KidKeepsFirst(s, mname, content, name);
    case Some(d) =>
      FirstAfterPut(s, d.uid, content, name);
      var c := First(s.children, name).value;
      DifferentChildren(s, c, d);
  }

  lemma {:induction false} DifferentChildren(s: Store, c: Child, d: Child)
    requires Wellkept(s) && c in s.children && d in s.children && c.name != d.name
    ensures c.uid != d.uid
  {
    var i :| 0 <= i < |s.children| && s.children[i] == c;
    var k :| 0 <= k < |s.children| && s.children[k] == d;
  }

  // After a write every promised child is full, exactly when those that were already
  // there under the promised names were full: one left empty by a crash is passed over.
  lemma {:induction false} WriteFillsExactly(f: Format, s: Store, p: Pair, r: Result)
    requires Wellkept(s) && Faithful(f.digest)
    ensures var expected := FromResult(f, p, r).expected;
            (forall i :: 0 <= i < |expected| ==> Full(Written(f, s, p, r), expected[i]))
            <==> (forall i :: 0 <= i < |expected| && expected[i] in Names(s.children) ==> Full(s, expected[i]))
  {
    var expected := FromResult(f, p, r).expected;
    forall i | 0 <= i < |expected|
      ensures Full(Written(f, s, p, r), expected[i]) <==> (expected[i] in Names(s.children) ==> Full(s, expected[i]))
    {
      ExpectedFill(f, s, p, r, i);
    }
  }

  lemma {:induction false} ExpectedFill(f: Format, s: Store, p: Pair, r: Result, i: nat)
    requires Wellkept(s) && Faithful(f.digest) && i < |FromResult(f, p, r).expected|
    ensures var name := FromResult(f, p, r).expected[i];
            Full(Written(f, s, p, r), name) <==> (name in Names(s.children) ==> Full(s, name))
  {
    var key, kids := PairKey(f.digest, p), InOrder(r.kids);
    var name, existing := KidNames(key, kids)[i], Names(s.children);
    var t := WithKids(s, existing, key, kids);
    assert name in Set(KidNames(key, kids));
    KidsFill(s, existing, key, kids, name);
    KidsNames(s, existing, key, kids);
    KidsAreWellkept(s, existing, key, kids);
    ChildIsNotManifest(key, kids[i].kind, kids[i].index, kids[i].ext, key);
    MarkerKeepsFirst(t, ManifestName(key), f.codec.encode(FromResult(f, p, r)), name);
  }
}
