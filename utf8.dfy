/** UTF-8 decoding of the response body of stage 3 (src/stages/stage3.ts).
    `Decode` is what `Buffer.toString()` gives: the well-formed sequences of
    Table 3-7 of the Unicode Standard (section 3.9), with each maximal subpart
    of an ill-formed sequence, and each byte that can lead none, replaced by one
    U+FFFD. A stream of byte chunks becomes text in one of two ways: every chunk
    decoded on its own, as the 'data' handler does, or through a streaming
    decoder that holds back an incomplete final sequence until the next chunk,
    as a stream does once `setEncoding('utf8')` is called on it. */
module Utf8 {
  import opened Seqs

  type byte = b: int | 0 <= b < 256

  predicate IsCont(b: byte) {
    0x80 <= b <= 0xBF
  }

  /** How many bytes a sequence led by `b` has; 0 when `b` leads none. */
  function SeqLen(b: byte): nat {
    if b < 0x80 then 1
    else if 0xC2 <= b <= 0xDF then 2
    else if 0xE0 <= b <= 0xEF then 3
    else if 0xF0 <= b <= 0xF4 then 4
    else 0
  }

  /** Whether `b` may stand at position `k` (k >= 1) of a sequence led by `lead`:
      the second byte after E0, ED, F0 and F4 has a narrower range, which rules
      out overlong forms, surrogates and values above U+10FFFF. */
  predicate Fits(lead: byte, k: nat, b: byte) {
    if k == 1 && lead == 0xE0 then 0xA0 <= b <= 0xBF
    else if k == 1 && lead == 0xED then 0x80 <= b <= 0x9F
    else if k == 1 && lead == 0xF0 then 0x90 <= b <= 0xBF
    else if k == 1 && lead == 0xF4 then 0x80 <= b <= 0x8F
    else IsCont(b)
  }

  /** How far the sequence led by `s[0]`, `n` bytes long when whole, extends
      from position `k`: it stops at `n`, at the end of `s` or at the first byte
      that does not fit. */
  function Span(s: seq<byte>, k: nat, n: nat): (r: nat)
    requires 1 <= k <= n <= 4 && k <= |s|
    ensures k <= r <= n && r <= |s|
    ensures forall j :: k <= j < r ==> Fits(s[0], j, s[j])
    ensures r < n ==> r == |s| || !Fits(s[0], r, s[r])
    decreases n - k
  {
    if k == n || k == |s| || !Fits(s[0], k, s[k]) then k else Span(s, k + 1, n)
  }

  /** The length of the unit at the front of `s`: a whole sequence, the maximal
      subpart of an ill-formed one, or a single byte that leads none. */
  function UnitLen(s: seq<byte>): (k: nat)
    requires |s| > 0
    ensures 1 <= k <= |s|
  {
    var n := SeqLen(s[0]);
    if n <= 1 then 1 else Span(s, 1, n)
  }

  /** The unit at the front of `s` is a sequence cut short by the end of `s`:
      more bytes could still complete it. */
  predicate Open(s: seq<byte>)
    requires |s| > 0
  {
    SeqLen(s[0]) >= 2 && UnitLen(s) == |s| && |s| < SeqLen(s[0])
  }

  /** The character the unit at the front of `s` decodes to. */
  function UnitChar(s: seq<byte>): char
    requires |s| > 0
  {
    var n := SeqLen(s[0]);
    if n == 0 || UnitLen(s) < n then '\U{FFFD}'
    else if n == 1 then s[0] as char
    else
      var b0, b1: int := s[0], s[1];
      if n == 2 then ((b0 - 0xC0) * 0x40 + (b1 - 0x80)) as char
      else
        assert Fits(s[0], 1, s[1]) && Fits(s[0], 2, s[2]);
        var b2: int := s[2];
        if n == 3 then ((b0 - 0xE0) * 0x1000 + (b1 - 0x80) * 0x40 + (b2 - 0x80)) as char
        else
          assert Fits(s[0], 3, s[3]);
          var b3: int := s[3];
          ((b0 - 0xF0) * 0x40000 + (b1 - 0x80) * 0x1000 + (b2 - 0x80) * 0x40 + (b3 - 0x80)) as char
  }

  /** `Buffer.toString()`: unit after unit from the front. */
  function Decode(s: seq<byte>): string
    decreases |s|
  {
    if |s| == 0 then "" else [UnitChar(s)] + Decode(s[UnitLen(s)..])
  }

  /** No sequence is left open at the end of `s`. */
  predicate Closed(s: seq<byte>)
    decreases |s|
  {
    |s| == 0 || if UnitLen(s) < |s| then Closed(s[UnitLen(s)..]) else !Open(s)
  }

  // ---------------------------------------------------------------------------
  // Decoding a concatenation

  lemma {:induction false} SpanAppend(p: seq<byte>, z: seq<byte>, k: nat, n: nat)
    requires 1 <= k <= n <= 4 && k <= |p|
    requires Span(p, k, n) < |p| || Span(p, k, n) == n || |z| == 0 || !IsCont(z[0])
    ensures Span(p + z, k, n) == Span(p, k, n)
    decreases n - k
  {
    var s := p + z;
    assert s[0] == p[0];
    if k == n {
    } else if k == |p| {
      if |z| > 0 {
        assert s[k] == z[0];
      }
    } else {
      assert s[k] == p[k];
      if Fits(p[0], k, p[k]) {
        SpanAppend(p, z, k + 1, n);
      }
    }
  }

  /** Bytes appended after a unit that is not left open, or that start with a
      byte no sequence continues with, do not change that unit. */
  lemma UnitAppend(p: seq<byte>, z: seq<byte>)
    requires |p| > 0
    requires !Open(p) || |z| == 0 || !IsCont(z[0])
    ensures UnitLen(p + z) == UnitLen(p) && UnitChar(p + z) == UnitChar(p)
  {
    var s := p + z;
    assert s[0] == p[0];
    var n := SeqLen(p[0]);
    if n >= 2 {
      SpanAppend(p, z, 1, n);
      if UnitLen(p) == n {
        assert s[1] == p[1];
        if n >= 3 { assert s[2] == p[2]; }
        if n == 4 { assert s[3] == p[3]; }
      }
    }
  }

  /** The text of `p + z` is the text of `p` then that of `z` when `p` leaves no
      sequence open, or when `z` starts with a byte no sequence continues with. */
  lemma {:induction false} DecodeAppend(p: seq<byte>, z: seq<byte>)
    requires Closed(p) || (|z| > 0 && !IsCont(z[0]))
    ensures Decode(p + z) == Decode(p) + Decode(z)
    decreases |p|
  {
    if |p| == 0 {
      assert p + z == z;
    } else {
      var u := UnitLen(p);
      UnitAppend(p, z);
      var s := p + z;
      assert s[u..] == p[u..] + z;
      if u < |p| {
        DecodeAppend(p[u..], z);
        ConcatAssoc([UnitChar(p)], Decode(p[u..]), Decode(z));
      } else {
        assert p[u..] == [];
        assert s[u..] == z;
      }
    }
  }

  lemma {:induction false} ClosedAppend(a: seq<byte>, b: seq<byte>)
    requires Closed(a) && Closed(b)
    ensures Closed(a + b)
    decreases |a|
  {
    if |a| == 0 {
      assert a + b == b;
    } else if |b| == 0 {
      assert a + b == a;
    } else {
      var u := UnitLen(a);
      UnitAppend(a, b);
      assert (a + b)[u..] == a[u..] + b;
      if u < |a| {
        ClosedAppend(a[u..], b);
      } else {
        assert a[u..] == [];
        assert (a + b)[u..] == b;
      }
    }
  }

  // ---------------------------------------------------------------------------
  // The streaming decoder

  /** Where the sequence left open at the end of `w` starts, or `|w|` when none
      is: what comes before is decoded now, the rest (at most three bytes, one
      open sequence) is held back. */
  function Cut(w: seq<byte>): (c: nat)
    ensures c <= |w|
    ensures c == |w| ==> Closed(w)
    ensures c < |w| ==> Open(w[c..]) && |w| - c <= 3
    decreases |w|
  {
    if |w| == 0 then 0
    else if UnitLen(w) < |w| then
      var u := UnitLen(w);
      var c' := Cut(w[u..]);
      assert w[u + c'..] == w[u..][c'..];
      u + c'
    else if Open(w) then 0
    else |w|
  }

  /** One chunk through the streaming decoder: the text of the sequences now
      complete, and the bytes it holds back. */
  function Feed(pending: seq<byte>, chunk: seq<byte>): (r: (string, seq<byte>))
    ensures |r.1| <= 3 && (|r.1| == 0 || Open(r.1))
  {
    var w := pending + chunk;
    var c := Cut(w);
    (Decode(w[..c]), w[c..])
  }

  /** Feeding a chunk loses and invents nothing, whatever bytes come later. */
  lemma FeedSplit(pending: seq<byte>, chunk: seq<byte>, z: seq<byte>)
    ensures Feed(pending, chunk).0 + Decode(Feed(pending, chunk).1 + z) == Decode(pending + chunk + z)
  {
    var w := pending + chunk;
    var c := Cut(w);
    assert w[..c] + (w[c..] + z) == w + z;
    if c < |w| {
      assert (w[c..] + z)[0] == w[c];
    } else {
      assert w[..c] == w;
    }
    DecodeAppend(w[..c], w[c..] + z);
  }

  /** The 'data' events of a stream read with `setEncoding('utf8')`, one per
      chunk, and the bytes the decoder still holds after the last. */
  function DecodeChunks(chunks: seq<seq<byte>>): (r: (seq<string>, seq<byte>))
    ensures |r.0| == |chunks|
    ensures |r.1| <= 3 && (|r.1| == 0 || Open(r.1))
    decreases |chunks|
  {
    if |chunks| == 0 then ([], [])
    else
      var before := DecodeChunks(chunks[..|chunks| - 1]);
      var fed := Feed(before.1, chunks[|chunks| - 1]);
      (before.0 + [fed.0], fed.1)
  }

  lemma {:induction false} DecodeChunksExtends(chunks: seq<seq<byte>>, z: seq<byte>)
    ensures Flatten(DecodeChunks(chunks).0) + Decode(DecodeChunks(chunks).1 + z) == Decode(Flatten(chunks) + z)
    decreases |chunks|
  {
    if |chunks| == 0 {
      assert DecodeChunks(chunks).1 + z == z;
      assert Flatten(chunks) + z == z;
    } else {
      var init, last := chunks[..|chunks| - 1], chunks[|chunks| - 1];
      var before := DecodeChunks(init);
      var fed := Feed(before.1, last);
      assert DecodeChunks(chunks) == (before.0 + [fed.0], fed.1);
      DecodeChunksExtends(init, last + z);
      assert Decode(before.1 + (last + z)) == fed.0 + Decode(fed.1 + z) by {
        FeedSplit(before.1, last, z);
        ConcatAssoc(before.1, last, z);
      }
      assert Flatten(chunks) + z == Flatten(init) + (last + z) by {
        InitLast(chunks);
        FlattenSnoc(init, last);
        ConcatAssoc(Flatten(init), last, z);
      }
      assert Flatten(before.0 + [fed.0]) == Flatten(before.0) + fed.0 by {
        FlattenSnoc(before.0, fed.0);
      }
      Glue(Flatten(before.0), fed.0, Decode(fed.1 + z), Decode(before.1 + (last + z)),
           Decode(Flatten(init) + (last + z)));
    }
  }

  lemma Glue(done: string, out: string, later: string, held: string, whole: string)
    requires done + held == whole && out + later == held
    ensures (done + out) + later == whole
  {
    ConcatAssoc(done, out, later);
  }

  /** Read with `setEncoding('utf8')`, the text delivered, followed by the flush
      of what the decoder still holds, is the text of the whole byte stream,
      however it was cut into chunks. */
  lemma StreamDecodeExact(chunks: seq<seq<byte>>)
    ensures Flatten(DecodeChunks(chunks).0) + Decode(DecodeChunks(chunks).1) == Decode(Flatten(chunks))
  {
    DecodeChunksExtends(chunks, []);
    assert DecodeChunks(chunks).1 + [] == DecodeChunks(chunks).1;
    assert Flatten(chunks) + [] == Flatten(chunks);
  }

  /** What the decoder holds at the end flushes to at most one U+FFFD, so it
      completes no line. */
  lemma HeldFlush(held: seq<byte>)
    requires |held| == 0 || Open(held)
    ensures Decode(held) == "" || Decode(held) == "\U{FFFD}"
  {
    if |held| > 0 {
      assert held[UnitLen(held)..] == [];
    }
  }

  // ---------------------------------------------------------------------------
  // Chunk by chunk, as the 'data' handler does

  /** `chunk.toString()` on every chunk. */
  function DecodeEach(chunks: seq<seq<byte>>): (r: seq<string>)
    ensures |r| == |chunks|
    decreases |chunks|
  {
    if |chunks| == 0 then [] else DecodeEach(chunks[..|chunks| - 1]) + [Decode(chunks[|chunks| - 1])]
  }

  /** When no chunk ends inside a sequence, decoding chunk by chunk gives the
      text of the whole stream. */
  lemma {:induction false} DecodeEachAtBoundaries(chunks: seq<seq<byte>>)
    requires forall i :: 0 <= i < |chunks| ==> Closed(chunks[i])
    ensures Flatten(DecodeEach(chunks)) == Decode(Flatten(chunks))
    ensures Closed(Flatten(chunks))
    decreases |chunks|
  {
    if |chunks| > 0 {
      var init, last := chunks[..|chunks| - 1], chunks[|chunks| - 1];
      DecodeEachAtBoundaries(init);
      FlattenSnoc(DecodeEach(init), Decode(last));
      assert chunks == init + [last];
      FlattenSnoc(init, last);
      DecodeAppend(Flatten(init), last);
      ClosedAppend(Flatten(init), last);
    }
  }

  /** The four bytes of U+1F600 decode to it. */
  lemma DecodeEmoji()
    ensures Decode([0xF0, 0x9F, 0x98, 0x80]) == "\U{1F600}"
  {
    var whole: seq<byte> := [0xF0, 0x9F, 0x98, 0x80];
    assert Span(whole, 3, 4) == 4;
    assert UnitLen(whole) == 4 && whole[4..] == [];
  }

  /** Its first two bytes alone are one open sequence; its last two are two
      bytes that lead none. */
  lemma DecodeHalves()
    ensures Decode([0xF0, 0x9F]) == "\U{FFFD}"
    ensures Decode([0x98, 0x80]) == "\U{FFFD}\U{FFFD}"
    ensures Cut([0xF0, 0x9F]) == 0
  {
    var a: seq<byte> := [0xF0, 0x9F];
    var b: seq<byte> := [0x98, 0x80];
    assert Span(a, 2, 4) == 2;
    assert UnitLen(a) == 2 && a[2..] == [];
    assert UnitLen(b) == 1 && b[1..] == [0x80];
    assert UnitLen(b[1..]) == 1 && b[1..][1..] == [];
  }

  lemma CutEmoji()
    ensures Cut([0xF0, 0x9F, 0x98, 0x80]) == 4
  {
    var whole: seq<byte> := [0xF0, 0x9F, 0x98, 0x80];
    assert Span(whole, 3, 4) == 4;
    assert UnitLen(whole) == 4;
  }

  /** The streaming decoder holds the first half back and completes the emoji
      with the second. */
  lemma FeedHalves()
    ensures Feed([], [0xF0, 0x9F]) == ("", [0xF0, 0x9F])
    ensures Feed([0xF0, 0x9F], [0x98, 0x80]) == ("\U{1F600}", [])
  {
    var a: seq<byte> := [0xF0, 0x9F];
    var w: seq<byte> := [0xF0, 0x9F] + [0x98, 0x80];
    DecodeHalves();
    assert [] + a == a && a[..0] == [] && a[0..] == a;
    assert w == [0xF0, 0x9F, 0x98, 0x80];
    CutEmoji();
    DecodeEmoji();
    assert w[..4] == w && w[4..] == [];
  }

  lemma DecodeChunksSnoc(cs: seq<seq<byte>>, c: seq<byte>)
    ensures var before := DecodeChunks(cs);
            DecodeChunks(cs + [c]) == (before.0 + [Feed(before.1, c).0], Feed(before.1, c).1)
  {
    assert (cs + [c])[..|cs|] == cs;
  }

  lemma DecodeChunksHalves()
    ensures DecodeChunks([[0xF0, 0x9F], [0x98, 0x80]]).0 == ["", "\U{1F600}"]
  {
    var a: seq<byte> := [0xF0, 0x9F];
    var b: seq<byte> := [0x98, 0x80];
    FeedHalves();
    var none: seq<seq<byte>> := [];
    assert DecodeChunks(none) == ([], []);
    DecodeChunksSnoc(none, a);
    assert none + [a] == [a];
    var held: seq<byte> := [];
    assert DecodeChunks(none).1 == held;
    assert Feed(held, a) == ("", a);
    var noText: seq<string> := [];
    assert noText + [""] == [""];
    assert DecodeChunks([a]) == ([""], a);
    DecodeChunksSnoc([a], b);
    assert [a] + [b] == [a, b];
  }

  /** U+1F600 cut after its second byte: decoded chunk by chunk it becomes three
      U+FFFD, while the streaming decoder, like the whole stream, gives the emoji. */
  lemma SplitSequenceCorrupted()
    ensures Decode([0xF0, 0x9F] + [0x98, 0x80]) == "\U{1F600}"
    ensures Flatten(DecodeEach([[0xF0, 0x9F], [0x98, 0x80]])) == "\U{FFFD}\U{FFFD}\U{FFFD}"
    ensures Flatten(DecodeChunks([[0xF0, 0x9F], [0x98, 0x80]]).0) == "\U{1F600}"
  {
    var a: seq<byte> := [0xF0, 0x9F];
    var b: seq<byte> := [0x98, 0x80];
    var cs: seq<seq<byte>> := [a, b];
    assert a + b == [0xF0, 0x9F, 0x98, 0x80];
    DecodeEmoji();
    DecodeHalves();
    CutEmoji();
    assert cs[..1] == [a] && [a][..0] == [];
    assert DecodeEach(cs) == [Decode(a), Decode(b)];
    FlattenCons(Decode(a), [Decode(b)]);
    FlattenCons(Decode(b), []);
    DecodeChunksHalves();
    FlattenCons("", ["\U{1F600}"]);
    FlattenCons("\U{1F600}", []);
  }
}
