/** The NDJSON framing of the stage-3 stream handler (src/stages/stage3.ts):
    chunks are appended to a buffer and complete lines are cut off at '\n'. */
module Framing {
  import opened Strings
  import opened Seqs

  /** The text a list of lines stands for when each is followed by '\n'. */
  function Unlines(lines: seq<string>): string
    decreases |lines|
  {
    if |lines| == 0 then "" else lines[0] + "\n" + Unlines(lines[1..])
  }

  lemma {:induction false} UnlinesAppend(a: seq<string>, b: seq<string>)
    ensures Unlines(a + b) == Unlines(a) + Unlines(b)
    decreases |a|
  {
    if |a| > 0 {
      assert (a + b)[1..] == a[1..] + b;
      UnlinesAppend(a[1..], b);
    } else {
      assert a + b == b;
    }
  }

  lemma UnlinesCons(l: string, ls: seq<string>)
    ensures Unlines([l] + ls) == l + "\n" + Unlines(ls)
  {
    assert ([l] + ls)[1..] == ls;
  }

  lemma NoneContainsCons(l: string, ls: seq<string>, c: char)
    requires c !in l && NoneContains(ls, c)
    ensures NoneContains([l] + ls, c)
  {
    forall k | 0 <= k < |[l] + ls| ensures c !in ([l] + ls)[k] {
      if k > 0 { assert ([l] + ls)[k] == ls[k - 1]; }
    }
  }

  datatype Framed = Framed(lines: seq<string>, rest: string)

  /** Reference definition of the framing of a whole text: the complete lines,
      cut at each '\n', and the unterminated remainder. */
  function Frame(s: string): Framed
    decreases |s|
  {
    var i := FirstPos(s, '\n');
    if i == |s| then Framed([], s)
    else
      var f := Frame(s[i + 1..]);
      Framed([s[..i]] + f.lines, f.rest)
  }

  /** Framing loses and adds nothing: the lines, each with its '\n', then the rest,
      make up the text, and no line or rest contains '\n'. */
  lemma {:induction false} FrameSound(s: string)
    ensures Unlines(Frame(s).lines) + Frame(s).rest == s
    ensures '\n' !in Frame(s).rest && NoneContains(Frame(s).lines, '\n')
    decreases |s|
  {
    var i := FirstPos(s, '\n');
    if i < |s| {
      var f := Frame(s[i + 1..]);
      FrameSound(s[i + 1..]);
      assert Frame(s) == Framed([s[..i]] + f.lines, f.rest);
      SplitAround(s, i);
      UnlinesCons(s[..i], f.lines);
      NoneContainsCons(s[..i], f.lines, '\n');
    }
  }

  lemma FrameUnfold(s: string, i: nat)
    requires i == FirstPos(s, '\n') && i < |s|
    ensures Frame(s) == Framed([s[..i]] + Frame(s[i + 1..]).lines, Frame(s[i + 1..]).rest)
  {
  }

  /** The first '\n' of `l + "\n" + tail` is the one after `l`, when `l` has none. */
  lemma FirstNewline(l: string, tail: string)
    requires '\n' !in l
    ensures var s := l + "\n" + tail;
            FirstPos(s, '\n') == |l| && s[..|l|] == l && s[|l| + 1..] == tail
  {
    var s := l + "\n" + tail;
    assert s[|l|] == '\n';
    assert forall j :: 0 <= j < |l| ==> s[j] == l[j];
    assert s[..|l|] == l;
    assert s[|l| + 1..] == tail;
  }

  /** Framing a line, its '\n' and a tail puts the line in front of the tail's framing. */
  lemma FrameStep(l: string, tail: string)
    requires '\n' !in l
    ensures Frame(l + "\n" + tail) == Framed([l] + Frame(tail).lines, Frame(tail).rest)
  {
    var s := l + "\n" + tail;
    FirstNewline(l, tail);
    FrameUnfold(s, |l|);
  }

  /** Lines free of '\n' and a remainder free of '\n' are recovered from their text. */
  lemma {:induction false} FrameUnique(lines: seq<string>, rest: string)
    requires NoneContains(lines, '\n') && '\n' !in rest
    ensures Frame(Unlines(lines) + rest) == Framed(lines, rest)
    decreases |lines|
  {
    if |lines| == 0 {
      assert Unlines(lines) + rest == rest;
    } else {
      var l, ls := lines[0], lines[1..];
      assert NoneContains(ls, '\n');
      FrameUnique(ls, rest);
      assert '\n' !in l;
      FrameStep(l, Unlines(ls) + rest);
      ConcatAssoc(l + "\n", Unlines(ls), rest);
      HeadTail(lines);
    }
  }

  lemma NoneContainsAppend(a: seq<string>, b: seq<string>, c: char)
    requires NoneContains(a, c) && NoneContains(b, c)
    ensures NoneContains(a + b, c)
  {
    forall k | 0 <= k < |a + b| ensures c !in (a + b)[k] {
      if k >= |a| { assert (a + b)[k] == b[k - |a|]; } else { assert (a + b)[k] == a[k]; }
    }
  }

  /** Framing chunk by chunk gives the same lines as framing everything at once:
      lines already cut off and a '\n'-free buffer are a prefix of the whole. */
  lemma FrameExtends(lines: seq<string>, buffer: string, chunk: string)
    requires NoneContains(lines, '\n')
    ensures Frame(Unlines(lines) + buffer + chunk)
              == Framed(lines + Frame(buffer + chunk).lines, Frame(buffer + chunk).rest)
  {
    var f := Frame(buffer + chunk);
    var u := Unlines(lines);
    var all := lines + f.lines;
    FrameSound(buffer + chunk);
    UnlinesAppend(lines, f.lines);
    NoneContainsAppend(lines, f.lines, '\n');
    FrameUnique(all, f.rest);
    ConcatAssoc(u, buffer, chunk);
    ConcatAssoc(u, Unlines(f.lines), f.rest);
  }

  /** The per-DID line buffer of the stream handler. `received` and `emitted` are
      the whole stream so far and every line handed on so far. */
  class LineFramer {
    var buffer: string
    ghost var received: string
    ghost var emitted: seq<string>

    /** No loss and no duplication: the lines handed on, each with its '\n', then
        the buffer, are exactly what was received, and that split is the framing
        of the received text. */
    ghost predicate Valid()
      reads this
    {
      && received == Unlines(emitted) + buffer
      && '\n' !in buffer
      && NoneContains(emitted, '\n')
    }

    constructor()
      ensures Valid() && buffer == "" && received == "" && emitted == []
    {
      buffer := "";
      received := "";
      emitted := [];
    }

    /** The `data` handler: append the chunk, then cut and hand on complete lines
        until the buffer holds no '\n'. */
    method OnData(chunk: string) returns (lines: seq<string>)
      requires Valid()
      modifies this
      ensures Valid()
      ensures received == old(received) + chunk
      ensures emitted == old(emitted) + lines
      ensures Framed(lines, buffer) == Frame(old(buffer) + chunk)
      ensures Framed(emitted, buffer) == Frame(received)
    {
      ghost var start := buffer + chunk;
      ghost var whole := received + chunk;
      ghost var before := emitted;
      FrameExtends(before, buffer, chunk);
      ConcatAssoc(Unlines(before), buffer, chunk);
      assert Frame(whole) == Framed(before + Frame(start).lines, Frame(start).rest);
      buffer := buffer + chunk;
      lines := [];
      ConcatEmpty(Frame(buffer).lines);
      var boundary := FirstPos(buffer, '\n');
      while boundary != |buffer|
        invariant boundary == FirstPos(buffer, '\n')
        invariant Frame(start) == Framed(lines + Frame(buffer).lines, Frame(buffer).rest)
        decreases |buffer|
      {
        var line := buffer[..boundary];
        FrameUnfold(buffer, boundary);
        ConcatAssoc(lines, [line], Frame(buffer[boundary + 1..]).lines);
        buffer := buffer[boundary + 1..];
        lines := lines + [line];
        boundary := FirstPos(buffer, '\n');
      }
      ConcatEmpty(lines);
      assert Framed(lines, buffer) == Frame(start);
      received := whole;
      emitted := before + lines;
      FrameSound(whole);
    }
  }

  /** Whatever the chunking, the lines handed on are those of the concatenated stream. */
  lemma ChunkingIrrelevant(emitted: seq<string>, buffer: string, received: string)
    requires received == Unlines(emitted) + buffer
    requires '\n' !in buffer && NoneContains(emitted, '\n')
    ensures emitted == Frame(received).lines && buffer == Frame(received).rest
  {
    FrameUnique(emitted, buffer);
  }
}
