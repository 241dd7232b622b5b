/** Bytes, and the four-byte little-endian words of the binary container. */
module Bytes {
  import opened Indexing

  type byte = b: int | 0 <= b < 256

  const WORD := 0x1_0000_0000

  type word = w: int | 0 <= w < WORD

  function ToLE(w: word): (b: seq<byte>)
    ensures |b| == 4
  {
    [w % 256, w / 256 % 256, w / 65536 % 256, w / 16777216]
  }

  function FromLE(b: seq<byte>): word
    requires |b| == 4
  {
    b[0] as int + 256 * b[1] as int + 65536 * b[2] as int + 16777216 * b[3] as int
  }

  lemma {:induction false} WordRoundTrip(w: word)
    ensures FromLE(ToLE(w)) == w
  {
    var b := w / 256;
    var c := b / 256;
    assert w / 65536 == c && w / 16777216 == c / 256;
    assert w == 256 * b + w % 256 && b == 256 * c + b % 256 && c == 256 * (c / 256) + c % 256;
  }

  // Words one after the other.
  function Packed(ws: seq<word>): (b: seq<byte>)
    ensures |b| == 4 * |ws|
  {
    seq(4 * |ws|, k requires 0 <= k < 4 * |ws| => ToLE(ws[k / 4])[k % 4])
  }

  lemma {:induction false} PackedByte(ws: seq<word>, i: nat, r: nat)
    requires i < |ws| && r < 4
    ensures Packed(ws)[4 * i + r] == ToLE(ws[i])[r]
  {
    assert (4 * i + r) / 4 == i && (4 * i + r) % 4 == r;
  }

  lemma {:induction false} SlicedByte(ws: seq<word>, from: nat, to: nat, k: nat)
    requires from <= to <= |ws| && k < 4 * (to - from)
    ensures Packed(ws)[4 * from + k] == Packed(ws[from..to])[k]
  {
    var i, r := k / 4, k % 4;
    assert k == 4 * i + r && 4 * from + k == 4 * (from + i) + r;
    PackedByte(ws, from + i, r);
    PackedByte(ws[from..to], i, r);
  }

  lemma {:induction false} PackedSlice(ws: seq<word>, from: nat, to: nat)
    requires from <= to <= |ws|
    ensures Packed(ws)[4 * from..4 * to] == Packed(ws[from..to])
  {
    var part := Packed(ws)[4 * from..4 * to];
    forall k | 0 <= k < |part| ensures part[k] == Packed(ws[from..to])[k] {
      SlicedByte(ws, from, to, k);
    }
  }

  lemma {:induction false} PackedOne(w: word)
    ensures Packed([w]) == ToLE(w)
  {
    forall r | 0 <= r < 4 ensures Packed([w])[r] == ToLE(w)[r] {
      PackedByte([w], 0, r);
    }
  }

  // Padding to a multiple of four.
  function Missing(n: nat): nat { (4 - n % 4) % 4 }

  function Padded(b: seq<byte>, fill: byte): (r: seq<byte>)
    ensures |r| % 4 == 0 && b <= r
    ensures |b| % 4 == 0 ==> r == b
  {
    b + Repeated(fill, Missing(|b|))
  }

  method Pad(b: seq<byte>, fill: byte) returns (r: seq<byte>)
    ensures r == Padded(b, fill)
  {
    r := b;
    ghost var n := 0;
    while |r| % 4 != 0
      invariant n <= Missing(|b|) && r == b + Repeated(fill, n)
      decreases Missing(|b|) - n
    {
      r := r + [fill];
      n := n + 1;
    }
  }
}
