/** How values are written as JSON text: an abstract encoding with its inverse. */
module JsonText {
  import opened Wrappers
  import opened Bytes
  import opened Indexing

  datatype Codec<!D> = Codec(encode: D -> seq<byte>, decode: seq<byte> -> Option<D>)

  const SPACE: byte := 0x20

  // Reading a value's text gives the value, whatever spaces trail it.
  ghost predicate ReadsBack<D>(codec: Codec<D>, d: D) {
    forall n: nat :: codec.decode(codec.encode(d) + Repeated(SPACE, n)) == Some(d)
  }

  lemma {:induction false} ReadsBackPlain<D>(codec: Codec<D>, d: D)
    requires ReadsBack(codec, d)
    ensures codec.decode(codec.encode(d)) == Some(d)
  {
    assert codec.encode(d) + Repeated(SPACE, 0) == codec.encode(d);
  }
}
