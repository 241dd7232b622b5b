/** What the loader makes of a file that is no container, and what it says went wrong. */
module LoaderReports {
  import opened Bytes
  import opened GlbContainer
  import opened GlbChunks
  import opened Gltf

  // A plain document reads as the container that holds it and nothing else.
  lemma {:induction false} PlainReadsAsContainer(l: Loader, json: seq<byte>, version: word)
    requires |json| + 20 < WORD && !(MAGIC <= json) && l.codec.decode(json).Some?
    ensures Parsed(l, json) == Parsed(l, Container(version, [Piece(JSON_CHUNK, json)], []))
  {
    var ps := [Piece(JSON_CHUNK, json)];
    assert Laid(ps) == Chunk(JSON_CHUNK, json) + Laid(ps[1..]) == Chunk(JSON_CHUNK, json);
    ContainerRead(version, ps, [], l.codec.decode);
    assert LastJson(ps, 0) && NoBinary(ps);
    assert !Spoilt(ps, l.codec.decode);
  }

  // Where it reads something, it complains exactly when it found no element; it does so of
  // an unreadable file exactly when there is no document in it, nor is it one.
  lemma {:induction false} ComplaintsExactly(l: Loader, data: seq<byte>)
    requires Parsed(l, data).Some?
    ensures var r := Parsed(l, data).value;
            && (r.problems == [] <==> r.elements != [])
            && (r.problems == [] || r.problems == ["no-geometry"] || r.problems == ["unreadable-gltf"])
            && (r.problems == ["unreadable-gltf"] <==> Split(data, l.codec.decode).0.None? && l.codec.decode(data).None?)
  {
  }
}
