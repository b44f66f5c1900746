/** The JavaScript string operations the core relies on, over `seq<char>`
    (Dafny characters are Unicode scalar values). */
module Strings {
  import opened Wrappers
  import opened Seqs

  predicate IsPrefix(p: string, s: string) {
    |p| <= |s| && s[..|p|] == p
  }

  /** The first `c` of a + b, when a has none, is the first `c` of b. */
  lemma {:induction false} FirstPosPast(a: string, b: string, c: char)
    requires c !in a
    ensures FirstPos(a + b, c) == |a| + FirstPos(b, c)
    decreases |a|
  {
    if |a| > 0 {
      assert (a + b)[1..] == a[1..] + b;
      FirstPosPast(a[1..], b, c);
    } else {
      assert a + b == b;
    }
  }

  /** `s.indexOf(p)` for a substring: the first position where `p` occurs. */
  function IndexOf(s: string, p: string): (r: Option<nat>)
    ensures r.Some? ==> r.value + |p| <= |s| && s[r.value..r.value + |p|] == p
    decreases |s|
  {
    if IsPrefix(p, s) then Some(0)
    else if |s| == 0 then None
    else match IndexOf(s[1..], p)
      case None => None
      case Some(i) => Some(i + 1)
  }

  /** `s.includes(p)`. */
  predicate Contains(s: string, p: string) {
    IndexOf(s, p).Some?
  }

  /** `s.replace(pat, rep)` with a string pattern: only the first occurrence is replaced. */
  function ReplaceFirst(s: string, pat: string, rep: string): string {
    match IndexOf(s, pat)
    case None => s
    case Some(i) => s[..i] + rep + s[i + |pat|..]
  }

  /** When `s` starts with `pat`, the replacement happens at the very front and
      everything after the pattern is kept as it was. */
  lemma ReplaceFirstAtFront(s: string, pat: string, rep: string)
    requires IsPrefix(pat, s)
    ensures ReplaceFirst(s, pat, rep) == rep + s[|pat|..]
  {
    assert IndexOf(s, pat) == Some(0);
    assert s[..0] + rep == rep;
  }

  /** `s.split(c)` for a one-character separator. */
  function Split(s: string, c: char): (parts: seq<string>)
    ensures |parts| >= 1
    decreases |s|
  {
    var i := FirstPos(s, c);
    if i == |s| then [s] else [s[..i]] + Split(s[i + 1..], c)
  }

  /** `parts.join(c)` for a one-character separator. */
  function Join(parts: seq<string>, c: char): string
    decreases |parts|
  {
    if |parts| == 0 then ""
    else if |parts| == 1 then parts[0]
    else parts[0] + [c] + Join(parts[1..], c)
  }

  predicate NoneContains(parts: seq<string>, c: char) {
    forall k :: 0 <= k < |parts| ==> c !in parts[k]
  }

  /** No part produced by Split contains the separator. */
  lemma {:induction false} SplitPartsLackSeparator(s: string, c: char)
    ensures NoneContains(Split(s, c), c)
    decreases |s|
  {
    var i := FirstPos(s, c);
    if i < |s| {
      SplitPartsLackSeparator(s[i + 1..], c);
      var rest := Split(s[i + 1..], c);
      assert Split(s, c) == [s[..i]] + rest;
      forall k | 0 <= k < |Split(s, c)| ensures c !in Split(s, c)[k] {
        if k > 0 { assert Split(s, c)[k] == rest[k - 1]; }
      }
    }
  }

  /** Splitting undoes joining, when no part contains the separator. */
  lemma {:induction false} SplitJoin(parts: seq<string>, c: char)
    requires |parts| >= 1
    requires NoneContains(parts, c)
    ensures Split(Join(parts, c), c) == parts
    decreases |parts|
  {
    if |parts| == 1 {
      assert Join(parts, c) == parts[0];
      assert c !in parts[0];
    } else {
      var p0 := parts[0];
      var rest := Join(parts[1..], c);
      var s := p0 + [c] + rest;
      assert s == Join(parts, c);
      assert c !in p0;
      assert s[|p0|] == c;
      assert forall j :: 0 <= j < |p0| ==> s[j] == p0[j];
      assert FirstPos(s, c) == |p0|;
      assert s[..|p0|] == p0;
      assert s[|p0| + 1..] == rest;
      SplitJoin(parts[1..], c);
    }
  }

  lemma JoinCons(a: string, rest: seq<string>, c: char)
    requires |rest| >= 1
    ensures Join([a] + rest, c) == a + [c] + Join(rest, c)
  {
    assert ([a] + rest)[1..] == rest;
  }

  /** Joining undoes splitting. */
  lemma {:induction false} JoinSplit(s: string, c: char)
    ensures Join(Split(s, c), c) == s
    decreases |s|
  {
    var i := FirstPos(s, c);
    if i < |s| {
      JoinSplit(s[i + 1..], c);
      JoinSplitStep(s, c, i);
    } else {
      assert Split(s, c) == [s];
    }
  }

  lemma JoinSplitStep(s: string, c: char, i: nat)
    requires i == FirstPos(s, c) && i < |s|
    requires Join(Split(s[i + 1..], c), c) == s[i + 1..]
    ensures Join(Split(s, c), c) == s
  {
    SplitUnfold(s, c, i);
    JoinCons(s[..i], Split(s[i + 1..], c), c);
    SplitAround(s, i);
  }

  lemma SplitUnfold(s: string, c: char, i: nat)
    requires i == FirstPos(s, c) && i < |s|
    ensures Split(s, c) == [s[..i]] + Split(s[i + 1..], c)
  {
    assert i != |s|;
  }

  /** A string is the part before position i, the character there, and the part after. */
  lemma SplitAround(s: string, i: nat)
    requires i < |s|
    ensures s == s[..i] + [s[i]] + s[i + 1..]
  {
    assert s[..i] + [s[i]] == s[..i + 1];
  }

  /** The joined string contains the separator exactly when there are at least two parts. */
  lemma {:induction false} JoinHasSeparator(parts: seq<string>, c: char)
    requires NoneContains(parts, c)
    ensures c in Join(parts, c) <==> |parts| >= 2
    decreases |parts|
  {
    if |parts| >= 2 {
      var s := parts[0] + [c] + Join(parts[1..], c);
      assert s[|parts[0]|] == c;
    } else if |parts| == 1 {
      assert Join(parts, c) == parts[0];
    }
  }

  /** The characters String.prototype.trim removes: WhiteSpace and LineTerminator
      of ECMA-262 section 12.2 and 12.3. */
  predicate IsJsWhitespace(c: char) {
    c == '\t' || c == '\n' || c == '\U{0B}' || c == '\U{0C}' || c == '\r' || c == ' '
    || c == '\U{A0}' || c == '\U{1680}' || ('\U{2000}' <= c <= '\U{200A}')
    || c == '\U{2028}' || c == '\U{2029}' || c == '\U{202F}' || c == '\U{205F}'
    || c == '\U{3000}' || c == '\U{FEFF}'
  }

  /** How many whitespace characters `s` starts with. */
  function LeadingSpace(s: string): (n: nat)
    ensures n <= |s|
    ensures forall i :: 0 <= i < n ==> IsJsWhitespace(s[i])
    ensures n < |s| ==> !IsJsWhitespace(s[n])
    decreases |s|
  {
    if |s| > 0 && IsJsWhitespace(s[0]) then 1 + LeadingSpace(s[1..]) else 0
  }

  /** How many whitespace characters `s` ends with. */
  function TrailingSpace(s: string): (n: nat)
    ensures n <= |s|
    ensures forall i :: |s| - n <= i < |s| ==> IsJsWhitespace(s[i])
    ensures n < |s| ==> !IsJsWhitespace(s[|s| - n - 1])
    decreases |s|
  {
    if |s| > 0 && IsJsWhitespace(s[|s| - 1]) then 1 + TrailingSpace(s[..|s| - 1]) else 0
  }

  function TrimStart(s: string): (r: string)
    ensures |r| <= |s| && r == s[|s| - |r|..]
    ensures |r| > 0 ==> !IsJsWhitespace(r[0])
    ensures forall i :: 0 <= i < |s| - |r| ==> IsJsWhitespace(s[i])
  {
    s[LeadingSpace(s)..]
  }

  lemma TrimStartFixed(s: string)
    requires |s| > 0 ==> !IsJsWhitespace(s[0])
    ensures TrimStart(s) == s
  {
    assert LeadingSpace(s) == 0;
  }

  function TrimEnd(s: string): (r: string)
    ensures |r| <= |s| && r == s[..|r|]
    ensures |r| > 0 ==> !IsJsWhitespace(r[|r| - 1])
    ensures forall i :: |r| <= i < |s| ==> IsJsWhitespace(s[i])
  {
    s[..|s| - TrailingSpace(s)]
  }

  /** `s.trim()`. */
  function Trim(s: string): string {
    TrimEnd(TrimStart(s))
  }

  predicate IsTrimmed(s: string) {
    |s| > 0 ==> !IsJsWhitespace(s[0]) && !IsJsWhitespace(s[|s| - 1])
  }

  /** Trim leaves neither leading nor trailing whitespace, only cuts whitespace
      off the ends, and a second trim changes nothing. */
  lemma TrimProperties(s: string)
    ensures IsTrimmed(Trim(s))
    ensures var a := |s| - |TrimStart(s)|;
            a + |Trim(s)| <= |s| && Trim(s) == s[a..a + |Trim(s)|]
            && (forall i :: 0 <= i < a ==> IsJsWhitespace(s[i]))
            && (forall i :: a + |Trim(s)| <= i < |s| ==> IsJsWhitespace(s[i]))
    ensures Trim(Trim(s)) == Trim(s)
  {
    TrimIsTrimmed(s);
    TrimCutsWhitespace(s);
    TrimmedFixed(Trim(s));
  }

  lemma TrimIsTrimmed(s: string)
    ensures IsTrimmed(Trim(s))
  {
    TrimEndTrimmed(TrimStart(s));
  }

  /** Trim keeps the window of s between its leading and its trailing whitespace. */
  lemma TrimCutsWhitespace(s: string)
    ensures var a := |s| - |TrimStart(s)|;
            a + |Trim(s)| <= |s| && Trim(s) == s[a..a + |Trim(s)|]
            && (forall i :: 0 <= i < a ==> IsJsWhitespace(s[i]))
            && (forall i :: a + |Trim(s)| <= i < |s| ==> IsJsWhitespace(s[i]))
  {
    var t := TrimStart(s);
    assert Trim(s) == TrimEnd(t);
    TrimWindow(s, t, Trim(s));
  }

  /** A suffix of s, cut to a prefix of itself after which only whitespace
      follows, is a window of s after which only whitespace follows. */
  lemma TrimWindow(s: string, t: string, r: string)
    requires |t| <= |s| && t == s[|s| - |t|..]
    requires |r| <= |t| && r == t[..|r|]
    requires forall i :: |r| <= i < |t| ==> IsJsWhitespace(t[i])
    ensures r == s[|s| - |t|..|s| - |t| + |r|]
    ensures forall i :: |s| - |t| + |r| <= i < |s| ==> IsJsWhitespace(s[i])
  {
    var a := |s| - |t|;
    forall i | a + |r| <= i < |s| ensures IsJsWhitespace(s[i]) {
      assert s[i] == t[i - a];
    }
  }

  /** Cutting the end of a string that starts with no whitespace leaves it trimmed. */
  lemma TrimEndTrimmed(t: string)
    requires |t| > 0 ==> !IsJsWhitespace(t[0])
    ensures IsTrimmed(TrimEnd(t))
  {
    var r := TrimEnd(t);
    if |r| > 0 {
      assert r[0] == t[0];
    }
  }

  lemma TrimmedFixed(s: string)
    requires IsTrimmed(s)
    ensures Trim(s) == s
  {
  }

  function LowerChar(c: char): char {
    if 'A' <= c <= 'Z' then (c as int + 32) as char else c
  }

  /** `s.toLowerCase()`, restricted to ASCII letters. */
  function Lower(s: string): (r: string)
    ensures |r| == |s|
    ensures forall i :: 0 <= i < |s| ==> r[i] == LowerChar(s[i])
  {
    seq(|s|, i requires 0 <= i < |s| => LowerChar(s[i]))
  }

  predicate IsLower(s: string) {
    forall i :: 0 <= i < |s| ==> !('A' <= s[i] <= 'Z')
  }

  lemma LowerIsLower(s: string)
    ensures IsLower(Lower(s))
    ensures IsLower(s) ==> Lower(s) == s
    ensures Lower(Lower(s)) == Lower(s)
  {
  }
}
