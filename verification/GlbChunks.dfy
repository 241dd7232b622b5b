/** Reading a container of any number of chunks, in any order and of any kind. */
module GlbChunks {
  import opened Wrappers
  import opened Bytes
  import opened GlbContainer

  datatype Piece = Piece(kind: seq<byte>, payload: seq<byte>)

  predicate Proper(p: Piece) { |p.kind| == 4 && |p.payload| < WORD }

  predicate AllProper(ps: seq<Piece>) { forall k :: 0 <= k < |ps| ==> Proper(ps[k]) }

  // The pieces one after the other.
  function Laid(ps: seq<Piece>): seq<byte>
    requires AllProper(ps)
  {
    if ps == [] then [] else Chunk(ps[0].kind, ps[0].payload) + Laid(ps[1..])
  }

  predicate IsJson(p: Piece) { p.kind == JSON_CHUNK }

  predicate IsBinary(p: Piece) { |p.kind| >= 3 && p.kind[0] == 0x42 && p.kind[1] == 0x49 && p.kind[2] == 0x4E }

  ghost predicate Spoilt<D(!new)>(ps: seq<Piece>, decode: seq<byte> -> Option<D>) {
    exists k :: 0 <= k < |ps| && IsJson(ps[k]) && decode(ps[k].payload).None?
  }

  // The last piece of a kind is at k.
  ghost predicate LastJson(ps: seq<Piece>, k: nat) {
    k < |ps| && IsJson(ps[k]) && forall m :: k < m < |ps| ==> !IsJson(ps[m])
  }

  ghost predicate LastBinary(ps: seq<Piece>, k: nat) {
    k < |ps| && IsBinary(ps[k]) && forall m :: k < m < |ps| ==> !IsBinary(ps[m])
  }

  ghost predicate NoJson(ps: seq<Piece>) { forall m :: 0 <= m < |ps| ==> !IsJson(ps[m]) }

  ghost predicate NoBinary(ps: seq<Piece>) { forall m :: 0 <= m < |ps| ==> !IsBinary(ps[m]) }

  // What reading comes to: nothing if a JSON chunk cannot be read, and otherwise the last
  // chunk of each kind, or what was there before if there is none.
  ghost predicate Yields<D(!new)>(ps: seq<Piece>, sofar: Contents<D>, decode: seq<byte> -> Option<D>, r: Contents<D>) {
    if Spoilt(ps, decode) then r == (None, [])
    else
      && (NoJson(ps) ==> r.0 == sofar.0)
      && (NoBinary(ps) ==> r.1 == sofar.1)
      && (forall k: nat :: LastJson(ps, k) ==> r.0 == decode(ps[k].payload))
      && (forall k: nat :: LastBinary(ps, k) ==> r.1 == ps[k].payload)
  }

  predicate Unreadable<D>(p: Piece, decode: seq<byte> -> Option<D>) { IsJson(p) && decode(p.payload).None? }

  function With<D>(p: Piece, sofar: Contents<D>, decode: seq<byte> -> Option<D>): Contents<D> {
    (if IsJson(p) then decode(p.payload) else sofar.0, if IsBinary(p) then p.payload else sofar.1)
  }

  lemma {:induction false} PieceIsThere(data: seq<byte>, offset: nat, p: Piece)
    requires Proper(p) && At(data, offset, Chunk(p.kind, p.payload))
    ensures offset + 8 + |p.payload| <= |data| && ChunkLength(data, offset) == |p.payload|
    ensures ChunkKind(data, offset) == p.kind && ChunkPayload(data, offset) == p.payload
  {
    AtPart(data, offset, ToLE(|p.payload|) + p.kind, p.payload);
    AtPart(data, offset, ToLE(|p.payload|), p.kind);
    WordRoundTrip(|p.payload|);
    assert Slice(data, offset + 8, offset + 8 + |p.payload|) == p.payload;
  }

  lemma {:induction false} PieceTaken<D>(p: Piece, sofar: Contents<D>, decode: seq<byte> -> Option<D>)
    requires Proper(p)
    ensures TakenIn(p.kind, p.payload, sofar, decode) == if Unreadable(p, decode) then None else Some(With(p, sofar, decode))
  {
    assert BIN_PREFIX <= p.kind <==> IsBinary(p);
  }

  // The pieces are what the reader finds from an offset on.
  ghost predicate Follow(data: seq<byte>, total: nat, offset: nat, ps: seq<Piece>)
    requires total <= |data|
    decreases |ps|
  {
    if ps == [] then offset == total
    else
      && offset + 8 <= total && Proper(ps[0]) && ChunkLength(data, offset) == |ps[0].payload|
      && ChunkKind(data, offset) == ps[0].kind && ChunkPayload(data, offset) == ps[0].payload
      && Follow(data, total, offset + 8 + |ps[0].payload|, ps[1..])
  }

  lemma {:induction false} YieldsOneMore<D(!new)>(ps: seq<Piece>, sofar: Contents<D>, decode: seq<byte> -> Option<D>, r: Contents<D>)
    requires ps != [] && AllProper(ps) && !Unreadable(ps[0], decode) && Yields(ps[1..], With(ps[0], sofar, decode), decode, r)
    ensures Yields(ps, sofar, decode, r)
  {
    var rest := ps[1..];
    assert forall k :: 0 <= k < |rest| ==> rest[k] == ps[k + 1];
    assert forall k :: 1 <= k < |ps| ==> ps[k] == rest[k - 1];
    if Spoilt(ps, decode) {
      var k :| 0 <= k < |ps| && IsJson(ps[k]) && decode(ps[k].payload).None?;
      assert IsJson(rest[k - 1]);
    } else {
      LastsOfRest(ps);
      forall k: nat | LastJson(ps, k) ensures r.0 == decode(ps[k].payload) {
        assert k > 0 ==> LastJson(rest, k - 1);
      }
      forall k: nat | LastBinary(ps, k) ensures r.1 == ps[k].payload {
        assert k > 0 ==> LastBinary(rest, k - 1);
      }
    }
  }

  lemma {:induction false} LastsOfRest(ps: seq<Piece>)
    requires ps != []
    ensures NoJson(ps) ==> !IsJson(ps[0]) && NoJson(ps[1..])
    ensures NoBinary(ps) ==> !IsBinary(ps[0]) && NoBinary(ps[1..])
    ensures forall k: nat :: LastJson(ps, k) ==> if k == 0 then IsJson(ps[0]) && NoJson(ps[1..]) else LastJson(ps[1..], k - 1)
    ensures forall k: nat :: LastBinary(ps, k) ==> if k == 0 then IsBinary(ps[0]) && NoBinary(ps[1..]) else LastBinary(ps[1..], k - 1)
  {
  }

  lemma {:induction false} NextPiece(data: seq<byte>, offset: nat, ps: seq<Piece>)
    requires AllProper(ps) && ps != [] && At(data, offset, Laid(ps))
    ensures AllProper(ps[1..]) && |Laid(ps)| == 8 + |ps[0].payload| + |Laid(ps[1..])|
    ensures At(data, offset, Chunk(ps[0].kind, ps[0].payload)) && At(data, offset + 8 + |ps[0].payload|, Laid(ps[1..]))
  {
    AtPart(data, offset, Chunk(ps[0].kind, ps[0].payload), Laid(ps[1..]));
  }

  // The pieces taken in one after the other.
  function Folded<D>(ps: seq<Piece>, sofar: Contents<D>, decode: seq<byte> -> Option<D>): Contents<D> {
    if ps == [] then sofar
    else if Unreadable(ps[0], decode) then (None, [])
    else Folded(ps[1..], With(ps[0], sofar, decode), decode)
  }

  lemma {:induction false} FoldYields<D(!new)>(ps: seq<Piece>, sofar: Contents<D>, decode: seq<byte> -> Option<D>)
    requires AllProper(ps)
    ensures Yields(ps, sofar, decode, Folded(ps, sofar, decode))
  {
    if ps != [] {
      if Unreadable(ps[0], decode) {
        assert Spoilt(ps, decode);
      } else {
        FoldYields(ps[1..], With(ps[0], sofar, decode), decode);
        YieldsOneMore(ps, sofar, decode, Folded(ps, sofar, decode));
      }
    }
  }

  lemma {:induction false} LaidFollow(data: seq<byte>, total: nat, offset: nat, ps: seq<Piece>)
    requires AllProper(ps) && At(data, offset, Laid(ps)) && offset + |Laid(ps)| == total <= |data|
    ensures Follow(data, total, offset, ps)
    decreases |ps|
  {
    if ps != [] {
      NextPiece(data, offset, ps);
      PieceIsThere(data, offset, ps[0]);
      LaidFollow(data, total, offset + 8 + |ps[0].payload|, ps[1..]);
    }
  }

  lemma {:induction false} OneRead<D>(data: seq<byte>, total: nat, offset: nat, sofar: Contents<D>, decode: seq<byte> -> Option<D>, ps: seq<Piece>)
    requires total <= |data| && ps != [] && Follow(data, total, offset, ps)
    ensures Chunks(data, total, offset, sofar, decode)
            == if Unreadable(ps[0], decode) then (None, [])
               else Chunks(data, total, offset + 8 + |ps[0].payload|, With(ps[0], sofar, decode), decode)
  {
    PieceTaken(ps[0], sofar, decode);
  }

  lemma {:induction false} PiecesRead<D>(data: seq<byte>, total: nat, offset: nat, sofar: Contents<D>, decode: seq<byte> -> Option<D>, ps: seq<Piece>)
    requires total <= |data| && Follow(data, total, offset, ps)
    ensures Chunks(data, total, offset, sofar, decode) == Folded(ps, sofar, decode)
    decreases |ps|
  {
    if ps != [] {
      OneRead(data, total, offset, sofar, decode, ps);
      if !Unreadable(ps[0], decode) {
        PiecesRead(data, total, offset + 8 + |ps[0].payload|, With(ps[0], sofar, decode), decode, ps[1..]);
      }
    }
  }

  function Container(version: word, ps: seq<Piece>, beyond: seq<byte>): seq<byte>
    requires AllProper(ps) && 12 + |Laid(ps)| < WORD
  {
    MAGIC + ToLE(version) + ToLE(12 + |Laid(ps)|) + Laid(ps) + beyond
  }

  // Whatever its version, and whatever bytes come after its stated length: a container
  // reads as its last JSON chunk and its last binary one, unless some JSON chunk cannot be
  // read.
  lemma {:induction false} ContainerRead<D(!new)>(version: word, ps: seq<Piece>, beyond: seq<byte>, decode: seq<byte> -> Option<D>)
    requires AllProper(ps) && 12 + |Laid(ps)| < WORD
    ensures Yields(ps, (None, []), decode, Split(Container(version, ps, beyond), decode))
  {
    var data, total := Container(version, ps, beyond), 12 + |Laid(ps)|;
    FiveLayout(MAGIC, ToLE(version), ToLE(total), Laid(ps), beyond);
    HeaderRead(data, total);
    LaidFollow(data, total, 12, ps);
    PiecesRead(data, total, 12, (None, []), decode, ps);
    FoldYields(ps, (None, []), decode);
  }
}
