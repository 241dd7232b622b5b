/** Where results are stored: names computed from the identity of a comparison. */
module Naming {
  import opened Decimal

  // The identity of a comparison: a file, two of its versions, and the plugin
  // generation that compares them.
  datatype Pair = Pair(file: string, base: string, target: string, plugin: string, version: nat)

  // The digest names are built on, as an arbitrary function.
  type Digest = string -> string

  // ------------------------------------------------------------ splitting text

  predicate Free(sep: char, s: string) { forall k :: 0 <= k < |s| ==> s[k] != sep }

  predicate AllFree(sep: char, parts: seq<string>) {
    forall k :: 0 <= k < |parts| ==> Free(sep, parts[k])
  }

  function Split(s: string, sep: char): (parts: seq<string>)
    ensures parts != []
  {
    if s == "" then [""]
    else
      var rest := Split(s[1..], sep);
      if s[0] == sep then [""] + rest else [[s[0]] + rest[0]] + rest[1..]
  }

  function Join(parts: seq<string>, sep: char): string
    requires parts != []
  {
    if |parts| == 1 then parts[0] else parts[0] + [sep] + Join(parts[1..], sep)
  }

  lemma {:induction false} SplitFirst(a: string, b: string, sep: char)
    requires Free(sep, a)
    ensures Split(a + [sep] + b, sep) == [a] + Split(b, sep)
  {
    var s := a + [sep] + b;
    if a == "" {
      assert s[1..] == b;
    } else {
      assert s[1..] == a[1..] + [sep] + b;
      SplitFirst(a[1..], b, sep);
      assert [a[0]] + a[1..] == a;
    }
  }

  lemma {:induction false} SplitWhole(a: string, sep: char)
    requires Free(sep, a)
    ensures Split(a, sep) == [a]
  {
    if a != "" {
      SplitWhole(a[1..], sep);
      assert [a[0]] + a[1..] == a;
    }
  }

  // Parts free of the separator can be read back from the joined text.
  lemma {:induction false} SplitUndoesJoin(parts: seq<string>, sep: char)
    requires parts != [] && AllFree(sep, parts)
    ensures Split(Join(parts, sep), sep) == parts
  {
    if |parts| == 1 {
      SplitWhole(parts[0], sep);
    } else {
      SplitUndoesJoin(parts[1..], sep);
      SplitFirst(parts[0], Join(parts[1..], sep), sep);
    }
  }

  lemma {:induction false} PartsAdd(a: string, b: string, sep: char)
    ensures |Split(a + [sep] + b, sep)| == |Split(a, sep)| + |Split(b, sep)|
  {
    var s := a + [sep] + b;
    if a == "" {
      assert s[1..] == b;
    } else {
      assert s[1..] == a[1..] + [sep] + b;
      PartsAdd(a[1..], b, sep);
    }
  }

  lemma {:induction false} OnePartIsFree(s: string, sep: char)
    ensures |Split(s, sep)| == 1 <==> Free(sep, s)
  {
    if s != "" {
      OnePartIsFree(s[1..], sep);
      assert Free(sep, s) <==> s[0] != sep && Free(sep, s[1..]);
    }
  }

  // Joined text has at least as many parts as were joined, and no more only if none of
  // them holds the separator.
  lemma {:induction false} PartsOfJoin(parts: seq<string>, sep: char)
    requires parts != []
    ensures |Split(Join(parts, sep), sep)| >= |parts|
    ensures |Split(Join(parts, sep), sep)| == |parts| <==> AllFree(sep, parts)
  {
    OnePartIsFree(parts[0], sep);
    if |parts| > 1 {
      PartsOfJoin(parts[1..], sep);
      PartsAdd(parts[0], Join(parts[1..], sep), sep);
      assert AllFree(sep, parts) <==> Free(sep, parts[0]) && AllFree(sep, parts[1..]);
    }
  }

  // ----------------------------------------------------------------------- keys

  function Fields(p: Pair): seq<string> { [p.file, p.base, p.target, p.plugin, Dec(p.version)] }

  function PairKey(digest: Digest, p: Pair): string { digest(Join(Fields(p), '|')) }

  // A digest that tells texts apart and never writes a dot.
  ghost predicate Faithful(digest: Digest) {
    && (forall x, y :: digest(x) == digest(y) ==> x == y)
    && (forall x :: Free('.', digest(x)))
  }

  predicate Plain(p: Pair) {
    Free('|', p.file) && Free('|', p.base) && Free('|', p.target) && Free('|', p.plugin)
  }

  lemma {:induction false} FieldsArePlain(p: Pair)
    requires Plain(p)
    ensures AllFree('|', Fields(p))
  {
  }

  // A comparison with bar-free fields has its key to itself: the text the key is made of
  // has four bars, and any other comparison's has more or splits otherwise.
  lemma {:induction false} KeysTellPairsApart(digest: Digest, p: Pair, q: Pair)
    requires Faithful(digest) && Plain(p)
    ensures PairKey(digest, p) == PairKey(digest, q) <==> p == q
  {
    if PairKey(digest, p) == PairKey(digest, q) {
      FieldsArePlain(p);
      PartsOfJoin(Fields(p), '|');
      PartsOfJoin(Fields(q), '|');
      SplitUndoesJoin(Fields(p), '|');
      SplitUndoesJoin(Fields(q), '|');
      SameFields(p, q);
    }
  }

  lemma {:induction false} SameFields(p: Pair, q: Pair)
    requires Fields(p) == Fields(q)
    ensures p == q
  {
    assert Fields(p)[0] == Fields(q)[0] && Fields(p)[1] == Fields(q)[1] && Fields(p)[2] == Fields(q)[2];
    assert Fields(p)[3] == Fields(q)[3] && Fields(p)[4] == Fields(q)[4];
    DecIsInjective(p.version, q.version);
  }

  lemma {:induction false} Barred(sep: char, s: string) returns (a: string, b: string)
    requires !Free(sep, s)
    ensures s == a + [sep] + b
  {
    var k :| 0 <= k < |s| && s[k] == sep;
    a, b := s[..k], s[k + 1..];
  }

  lemma {:induction false} BarInFront(digest: Digest, p: Pair) returns (q: Pair)
    requires !Free('|', p.file) || !Free('|', p.base)
    ensures q != p && PairKey(digest, q) == PairKey(digest, p)
  {
    JoinFive(p.file, p.base, p.target, p.plugin, Dec(p.version));
    if !Free('|', p.file) {
      var a, b := Barred('|', p.file);
      q := Pair(a, b, p.base + "|" + p.target, p.plugin, p.version);
    } else {
      var a, b := Barred('|', p.base);
      q := Pair(p.file, a, b + "|" + p.target, p.plugin, p.version);
    }
    JoinFive(q.file, q.base, q.target, q.plugin, Dec(q.version));
    assert Join(Fields(q), '|') == Join(Fields(p), '|');
  }

  lemma {:induction false} BarBehind(digest: Digest, p: Pair) returns (q: Pair)
    requires !Free('|', p.target) || !Free('|', p.plugin)
    ensures q != p && PairKey(digest, q) == PairKey(digest, p)
  {
    JoinFive(p.file, p.base, p.target, p.plugin, Dec(p.version));
    if !Free('|', p.target) {
      var a, b := Barred('|', p.target);
      q := Pair(p.file + "|" + p.base, a, b, p.plugin, p.version);
    } else {
      var a, b := Barred('|', p.plugin);
      q := Pair(p.file + "|" + p.base, p.target, a, b, p.version);
    }
    JoinFive(q.file, q.base, q.target, q.plugin, Dec(q.version));
    assert Join(Fields(q), '|') == Join(Fields(p), '|');
  }

  // Where a field has a bar the same text reads as another comparison.
  lemma {:induction false} KeyIsShared(digest: Digest, p: Pair) returns (q: Pair)
    requires !Plain(p)
    ensures q != p && PairKey(digest, q) == PairKey(digest, p)
  {
    if Free('|', p.file) && Free('|', p.base) {
      q := BarBehind(digest, p);
    } else {
      q := BarInFront(digest, p);
    }
  }

  // A comparison shares its key with another exactly when one of its fields has a bar.
  lemma {:induction false} KeysAreSharedExactly(digest: Digest, p: Pair)
    requires Faithful(digest)
    ensures (exists q :: q != p && PairKey(digest, q) == PairKey(digest, p)) <==> !Plain(p)
  {
    if Plain(p) {
      forall q | PairKey(digest, q) == PairKey(digest, p) ensures q == p {
        KeysTellPairsApart(digest, p, q);
      }
    } else {
      var q := KeyIsShared(digest, p);
    }
  }

  lemma {:induction false} JoinFive(a: string, b: string, c: string, d: string, e: string)
    ensures Join([a, b, c, d, e], '|') == a + "|" + b + "|" + c + "|" + d + "|" + e
  {
    assert [a, b, c, d, e][1..] == [b, c, d, e] && [b, c, d, e][1..] == [c, d, e];
    assert [c, d, e][1..] == [d, e] && [d, e][1..] == [e];
    assert Join([d, e], '|') == d + "|" + e;
    assert Join([c, d, e], '|') == c + "|" + (d + "|" + e);
    assert Join([b, c, d, e], '|') == b + "|" + (c + "|" + (d + "|" + e));
  }

  // The key digests the file, its two versions, the plugin and its version, between bars.
  lemma {:induction false} KeyDigestsIdentity(digest: Digest, file: string, base: string, target: string, plugin: string, version: nat)
    ensures PairKey(digest, Pair(file, base, target, plugin, version))
            == digest(file + "|" + base + "|" + target + "|" + plugin + "|" + Dec(version))
  {
    JoinFive(file, base, target, plugin, Dec(version));
  }

  // ---------------------------------------------------------------------- names

  const PREFIX := "diff."

  // At least three digits.
  function Padded3(n: nat): string {
    var d := Dec(n);
    if |d| == 1 then "00" + d else if |d| == 2 then "0" + d else d
  }

  function ChildName(key: string, kind: string, index: nat, ext: string): string {
    "diff" + "." + key + "." + (kind + "." + (Padded3(index) + "." + ext))
  }

  function ManifestName(key: string): string {
    "diff" + "." + key + "." + ("manifest" + "." + "json")
  }

  predicate IsDiffChild(name: string) { PREFIX <= name }

  // The key inside one of our names, or nothing.
  function KeyOf(name: string): string {
    if !IsDiffChild(name) then ""
    else
      var parts := Split(name, '.');
      if |parts| > 2 then parts[1] else ""
  }

  lemma {:induction false} NameParts(key: string, rest: string)
    requires Free('.', key)
    ensures Split("diff" + "." + key + "." + rest, '.') == ["diff", key] + Split(rest, '.')
    ensures KeyOf("diff" + "." + key + "." + rest) == key && IsDiffChild("diff" + "." + key + "." + rest)
  {
    var name := "diff" + "." + key + "." + rest;
    assert name == "diff" + "." + (key + "." + rest);
    SplitFirst("diff", key + "." + rest, '.');
    SplitFirst(key, rest, '.');
    assert PREFIX <= name;
  }

  // Every name says which key it belongs to.
  lemma {:induction false} KeyOfOurNames(key: string, kind: string, index: nat, ext: string)
    requires Free('.', key)
    ensures KeyOf(ChildName(key, kind, index, ext)) == key && IsDiffChild(ChildName(key, kind, index, ext))
    ensures KeyOf(ManifestName(key)) == key && IsDiffChild(ManifestName(key))
  {
    NameParts(key, kind + "." + (Padded3(index) + "." + ext));
    NameParts(key, "manifest" + "." + "json");
  }

  // A child's name has a part more than its manifest's, whatever its kind.
  lemma {:induction false} ChildIsNotManifest(key: string, kind: string, index: nat, ext: string, key': string)
    requires Free('.', key) && Free('.', key')
    ensures ChildName(key, kind, index, ext) != ManifestName(key')
  {
    var rest := Padded3(index) + "." + ext;
    NameParts(key, kind + "." + rest);
    NameParts(key', "manifest" + "." + "json");
    PartsAdd(kind, rest, '.');
    PartsAdd(Padded3(index), ext, '.');
    SplitFirst("manifest", "json", '.');
    SplitWhole("json", '.');
  }

  // With plain kinds, children of one result are told apart by kind, number and
  // extension.
  lemma {:induction false} ChildNamesTellApart(key: string, kind: string, index: nat, ext: string, kind': string, index': nat, ext': string)
    requires Free('.', key) && Free('.', kind) && Free('.', kind') && Free('.', ext) && Free('.', ext')
    requires ChildName(key, kind, index, ext) == ChildName(key, kind', index', ext')
    ensures kind == kind' && index == index' && ext == ext'
  {
    ChildParts(key, kind, index, ext);
    ChildParts(key, kind', index', ext');
    var a, b := ["diff", key, kind, Padded3(index), ext], ["diff", key, kind', Padded3(index'), ext'];
    assert a[2] == b[2] && a[3] == b[3] && a[4] == b[4];
    PaddedValue(index);
    PaddedValue(index');
  }

  lemma {:induction false} ChildParts(key: string, kind: string, index: nat, ext: string)
    requires Free('.', key) && Free('.', kind) && Free('.', ext)
    ensures Split(ChildName(key, kind, index, ext), '.') == ["diff", key, kind, Padded3(index), ext]
  {
    NameParts(key, kind + "." + (Padded3(index) + "." + ext));
    SplitFirst(kind, Padded3(index) + "." + ext, '.');
    SplitFirst(Padded3(index), ext, '.');
    SplitWhole(ext, '.');
  }

  predicate AllDigits(s: string) { forall k :: 0 <= k < |s| ==> '0' <= s[k] <= '9' }

  lemma {:induction false} LeadingZero(s: string)
    requires AllDigits(s)
    ensures AllDigits("0" + s) && Value("0" + s) == Value(s)
  {
    if s != "" {
      LeadingZero(s[..|s| - 1]);
      assert ("0" + s)[..|s|] == "0" + s[..|s| - 1];
    } else {
      assert ("0" + s)[..0] == "";
    }
  }

  lemma {:induction false} PaddedValue(n: nat)
    ensures AllDigits(Padded3(n)) && Value(Padded3(n)) == n
  {
    ValueOfDec(n);
    LeadingZero(Dec(n));
    LeadingZero("0" + Dec(n));
    assert "0" + ("0" + Dec(n)) == "00" + Dec(n);
  }
}
