/** The binary container (section 4.4 of the glTF 2.0 specification): a twelve-byte
    header, a JSON chunk padded with spaces and a binary chunk padded with zeros. The
    JSON text of a document is supplied by a codec; everything below it is bytes. */
module GlbContainer {
  import opened Wrappers
  import opened Bytes
  import opened JsonText

  const MAGIC: seq<byte> := [0x67, 0x6C, 0x54, 0x46]
  const JSON_CHUNK: seq<byte> := [0x4A, 0x53, 0x4F, 0x4E]
  const BIN_CHUNK: seq<byte> := [0x42, 0x49, 0x4E, 0x00]
  const BIN_PREFIX: seq<byte> := [0x42, 0x49, 0x4E]

  function Chunk(kind: seq<byte>, payload: seq<byte>): seq<byte>
    requires |payload| < WORD && |kind| == 4
  {
    ToLE(|payload|) + kind + payload
  }

  function TotalSize(json: seq<byte>, bin: seq<byte>): nat {
    28 + |Padded(json, SPACE)| + |Padded(bin, 0)|
  }

  function PackedGlb(json: seq<byte>, bin: seq<byte>): seq<byte>
    requires TotalSize(json, bin) < WORD
  {
    MAGIC + ToLE(2) + ToLE(TotalSize(json, bin)) + Chunk(JSON_CHUNK, Padded(json, SPACE)) + Chunk(BIN_CHUNK, Padded(bin, 0))
  }

  method PackGlb(json: seq<byte>, bin: seq<byte>) returns (glb: seq<byte>)
    requires TotalSize(json, bin) < WORD
    ensures glb == PackedGlb(json, bin)
  {
    var jsonChunk := Pad(json, SPACE);
    var binChunk := Pad(bin, 0);
    var total := 12 + 8 + |jsonChunk| + 8 + |binChunk|;
    glb := MAGIC;
    glb := glb + ToLE(2) + ToLE(total);
    glb := glb + (ToLE(|jsonChunk|) + JSON_CHUNK + jsonChunk);
    glb := glb + (ToLE(|binChunk|) + BIN_CHUNK + binChunk);
  }

  // ------------------------------------------------------------------- reading

  function Smaller(a: nat, b: nat): nat { if a <= b then a else b }

  // A slice cut off at the end of the data.
  function Slice(data: seq<byte>, from: nat, to: nat): seq<byte>
    requires from <= to
  {
    data[Smaller(from, |data|)..Smaller(to, |data|)]
  }

  type Contents<D> = (Option<D>, seq<byte>)

  function ChunkLength(data: seq<byte>, offset: nat): nat
    requires offset + 8 <= |data|
  {
    FromLE(data[offset..offset + 4])
  }

  function ChunkKind(data: seq<byte>, offset: nat): seq<byte>
    requires offset + 8 <= |data|
  {
    data[offset + 4..offset + 8]
  }

  function ChunkPayload(data: seq<byte>, offset: nat): seq<byte>
    requires offset + 8 <= |data|
  {
    Slice(data, offset + 8, offset + 8 + ChunkLength(data, offset))
  }

  // The contents once a chunk is taken in: the later of a kind wins, other kinds are
  // passed over, and JSON that cannot be read spoils the whole file.
  function TakenIn<D>(kind: seq<byte>, payload: seq<byte>, sofar: Contents<D>, decode: seq<byte> -> Option<D>): Option<Contents<D>> {
    if kind == JSON_CHUNK then
      var doc := decode(payload);
      if doc.None? then None else Some((doc, sofar.1))
    else if BIN_PREFIX <= kind then Some((sofar.0, payload))
    else Some(sofar)
  }

  // The chunks from `offset` on.
  function Chunks<D>(data: seq<byte>, total: nat, offset: nat, sofar: Contents<D>, decode: seq<byte> -> Option<D>): Contents<D>
    decreases |data| - offset
  {
    if offset + 8 > Smaller(total, |data|) then sofar
    else
      match TakenIn(ChunkKind(data, offset), ChunkPayload(data, offset), sofar, decode)
      case None => (None, [])
      case Some(more) => Chunks(data, total, offset + 8 + ChunkLength(data, offset), more, decode)
  }

  function Split<D>(data: seq<byte>, decode: seq<byte> -> Option<D>): Contents<D> {
    if |data| < 12 || data[..4] != MAGIC then (None, [])
    else Chunks(data, FromLE(data[8..12]), 12, (None, []), decode)
  }

  method SplitGlb<D>(data: seq<byte>, decode: seq<byte> -> Option<D>) returns (doc: Option<D>, binary: seq<byte>)
    ensures (doc, binary) == Split(data, decode)
  {
    if |data| < 12 || data[..4] != MAGIC {
      return None, [];
    }
    doc, binary := ReadChunks(data, FromLE(data[8..12]), decode);
  }

  method ReadChunks<D>(data: seq<byte>, total: nat, decode: seq<byte> -> Option<D>) returns (doc: Option<D>, binary: seq<byte>)
    ensures (doc, binary) == Chunks(data, total, 12, (None, []), decode)
  {
    doc, binary := None, [];
    var offset: nat := 12;
    while offset + 8 <= Smaller(total, |data|)
      invariant Chunks(data, total, offset, (doc, binary), decode) == Chunks(data, total, 12, (None, []), decode)
      decreases |data| - offset
    {
      var kind, payload := ChunkKind(data, offset), ChunkPayload(data, offset);
      if kind == JSON_CHUNK {
        var read := decode(payload);
        if read.None? {
          return None, [];
        }
        doc := read;
      } else if BIN_PREFIX <= kind {
        binary := payload;
      }
      offset := offset + 8 + ChunkLength(data, offset);
    }
  }

  // ------------------------------------------------------------------ round trip

  // Bytes found at a known place.
  ghost predicate At(data: seq<byte>, offset: nat, b: seq<byte>) {
    offset + |b| <= |data| && data[offset..offset + |b|] == b
  }

  lemma {:induction false} AtConcat(front: seq<byte>, b: seq<byte>, back: seq<byte>)
    ensures At(front + b + back, |front|, b)
  {
  }

  lemma {:induction false} AtPart(data: seq<byte>, offset: nat, b: seq<byte>, c: seq<byte>)
    requires At(data, offset, b + c)
    ensures At(data, offset, b) && At(data, offset + |b|, c)
  {
    var whole := data[offset..offset + |b + c|];
    assert whole[..|b|] == b && whole[|b|..] == c;
    assert data[offset..offset + |b|] == whole[..|b|];
    assert data[offset + |b|..offset + |b| + |c|] == whole[|b|..];
  }

  // Reading a chunk that is there.
  lemma {:induction false} ChunkRead<D>(data: seq<byte>, total: nat, offset: nat, sofar: Contents<D>, decode: seq<byte> -> Option<D>, kind: seq<byte>, payload: seq<byte>)
    requires |payload| < WORD && |kind| == 4 && At(data, offset, Chunk(kind, payload)) && total == |data|
    ensures kind == JSON_CHUNK && decode(payload).Some? ==>
              Chunks(data, total, offset, sofar, decode)
              == Chunks(data, total, offset + 8 + |payload|, (decode(payload), sofar.1), decode)
    ensures kind == BIN_CHUNK ==>
              Chunks(data, total, offset, sofar, decode)
              == Chunks(data, total, offset + 8 + |payload|, (sofar.0, payload), decode)
  {
    AtPart(data, offset, ToLE(|payload|) + kind, payload);
    AtPart(data, offset, ToLE(|payload|), kind);
    WordRoundTrip(|payload|);
    assert Slice(data, offset + 8, offset + 8 + |payload|) == payload;
  }

  lemma {:induction false} FivePieces(a: seq<byte>, b: seq<byte>, c: seq<byte>, d: seq<byte>, e: seq<byte>)
    ensures a + b + c + d + e == a + (b + c + d + e)
    ensures a + b + c + d + e == (a + b) + c + (d + e)
    ensures a + b + c + d + e == (a + b + c) + d + e
    ensures a + b + c + d + e == (a + b + c + d) + e + []
  {
  }

  lemma {:induction false} PackedLayout(json: seq<byte>, bin: seq<byte>)
    requires TotalSize(json, bin) < WORD
    ensures var glb, j, b := PackedGlb(json, bin), Padded(json, SPACE), Padded(bin, 0);
            && |glb| == TotalSize(json, bin)
            && At(glb, 0, MAGIC) && At(glb, 8, ToLE(TotalSize(json, bin)))
            && At(glb, 12, Chunk(JSON_CHUNK, j)) && At(glb, 20 + |j|, Chunk(BIN_CHUNK, b))
  {
    ChunkLayout(MAGIC, ToLE(2), ToLE(TotalSize(json, bin)), Padded(json, SPACE), Padded(bin, 0));
  }

  lemma {:induction false} ChunkLayout(a: seq<byte>, b: seq<byte>, c: seq<byte>, j: seq<byte>, bin: seq<byte>)
    requires |a| == 4 && |b| == 4 && |c| == 4 && |j| < WORD && |bin| < WORD
    ensures var glb := a + b + c + Chunk(JSON_CHUNK, j) + Chunk(BIN_CHUNK, bin);
            && |glb| == 28 + |j| + |bin|
            && At(glb, 0, a) && At(glb, 8, c) && At(glb, 12, Chunk(JSON_CHUNK, j)) && At(glb, 20 + |j|, Chunk(BIN_CHUNK, bin))
  {
    FiveLayout(a, b, c, Chunk(JSON_CHUNK, j), Chunk(BIN_CHUNK, bin));
    assert |Chunk(JSON_CHUNK, j)| == 8 + |j| && |Chunk(BIN_CHUNK, bin)| == 8 + |bin|;
  }

  lemma {:induction false} FiveLayout(a: seq<byte>, b: seq<byte>, c: seq<byte>, d: seq<byte>, e: seq<byte>)
    ensures At(a + b + c + d + e, 0, a)
    ensures At(a + b + c + d + e, |a| + |b|, c)
    ensures At(a + b + c + d + e, |a| + |b| + |c|, d)
    ensures At(a + b + c + d + e, |a| + |b| + |c| + |d|, e)
  {
    FivePieces(a, b, c, d, e);
    AtConcat([], a, b + c + d + e);
    assert [] + a == a;
    AtConcat(a + b, c, d + e);
    AtConcat(a + b + c, d, e);
    AtConcat(a + b + c + d, e, []);
  }

  lemma {:induction false} TwoChunksRead<D>(data: seq<byte>, j: seq<byte>, b: seq<byte>, doc: D, decode: seq<byte> -> Option<D>)
    requires |j| < WORD && |b| < WORD && |data| == 28 + |j| + |b|
    requires At(data, 12, Chunk(JSON_CHUNK, j)) && At(data, 20 + |j|, Chunk(BIN_CHUNK, b))
    requires decode(j) == Some(doc)
    ensures Chunks(data, |data|, 12, (None, []), decode) == (Some(doc), b)
  {
    ChunkRead(data, |data|, 12, (None, []), decode, JSON_CHUNK, j);
    ChunkRead(data, |data|, 20 + |j|, (Some(doc), []), decode, BIN_CHUNK, b);
  }

  lemma {:induction false} HeaderRead(data: seq<byte>, total: word)
    requires At(data, 0, MAGIC) && At(data, 8, ToLE(total))
    ensures |data| >= 12 && data[..4] == MAGIC && FromLE(data[8..12]) == total
  {
    WordRoundTrip(total);
    assert data[..4] == data[0..0 + |MAGIC|];
  }

  // Splitting what was packed gives back the document and the padded buffer.
  lemma {:induction false} SplitUndoesPack<D>(codec: Codec<D>, doc: D, bin: seq<byte>)
    requires ReadsBack(codec, doc) && TotalSize(codec.encode(doc), bin) < WORD
    ensures Split(PackedGlb(codec.encode(doc), bin), codec.decode) == (Some(doc), Padded(bin, 0))
  {
    var json := codec.encode(doc);
    PackedLayout(json, bin);
    HeaderRead(PackedGlb(json, bin), TotalSize(json, bin));
    assert codec.decode(Padded(json, SPACE)) == Some(doc);
    TwoChunksRead(PackedGlb(json, bin), Padded(json, SPACE), Padded(bin, 0), doc, codec.decode);
  }
}
