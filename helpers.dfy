/** src/helpers.ts: the older two-field sanitizeTimestamp (the one the crawler
    imports) and the emoji code-point encoder and decoder. */
module Helpers {
  import opened Wrappers
  import opened Strings
  import opened Sanitize
  import opened Seqs

  // ---------------------------------------------------------------------------
  // The two-field timestamp sanitiser

  datatype LegacyTimestamp = LegacyTimestamp(timestamp: string, wasWeird: bool)

  /** `sanitizeTimestamp` of src/helpers.ts. The local `wasWeird` that the
      year-zero rewrite sets is never returned: every later path returns a literal. */
  function SanitizeTimestampLegacy(t: Option<string>, parse: DateParser): (r: LegacyTimestamp)
  {
    if IsFalsy(t) then LegacyTimestamp(DefaultTimestamp, false)
    else
      match parse(FixYearZero(t.value))
      case None => LegacyTimestamp(DefaultTimestamp, true)
      case Some(d) =>
        if LowYear <= d.year <= HighYear then
          if SaneLowYear <= d.year <= SaneHighYear then LegacyTimestamp(d.iso, false)
          else LegacyTimestamp(d.iso, true)
        else LegacyTimestamp(DefaultTimestamp, true)
  }

  /** The two variants agree on the timestamp and on `wasWeird`; the older one
      only lacks `defaulted`. In particular a rewritten "0000-" input whose year
      lands in the sane window is reported as not weird. */
  lemma LegacyAgreesWithSanitize(t: Option<string>, parse: DateParser)
    ensures SanitizeTimestampLegacy(t, parse).timestamp == SanitizeTimestamp(t, parse).timestamp
    ensures SanitizeTimestampLegacy(t, parse).wasWeird == SanitizeTimestamp(t, parse).wasWeird
    ensures IsFalsy(t) ==> SanitizeTimestampLegacy(t, parse) == LegacyTimestamp(DefaultTimestamp, false)
    ensures !IsFalsy(t) && parse(FixYearZero(t.value)).None? ==>
              SanitizeTimestampLegacy(t, parse) == LegacyTimestamp(DefaultTimestamp, true)
  {
  }

  /** The output depends only on the parsed date of the rewritten input: two
      inputs that parse to the same date are sanitised alike, whether or not one
      of them began with "0000-". */
  lemma LegacyDependsOnlyOnParse(t1: string, t2: string, parse: DateParser)
    requires t1 != "" && t2 != ""
    requires parse(FixYearZero(t1)) == parse(FixYearZero(t2))
    ensures SanitizeTimestampLegacy(Some(t1), parse) == SanitizeTimestampLegacy(Some(t2), parse)
  {
  }

  // ---------------------------------------------------------------------------
  // Hexadecimal rendering: `n.toString(16)` and `padStart(4, '0')`

  function HexDigit(d: nat): (c: char)
    requires d < 16
  {
    if d < 10 then ('0' as int + d) as char else ('a' as int + d - 10) as char
  }

  predicate IsHexChar(c: char) {
    ('0' <= c <= '9') || ('a' <= c <= 'f') || ('A' <= c <= 'F')
  }

  function HexValueOf(c: char): (d: nat)
    requires IsHexChar(c)
    ensures d < 16
  {
    if '0' <= c <= '9' then c as int - '0' as int
    else if 'a' <= c <= 'f' then c as int - 'a' as int + 10
    else c as int - 'A' as int + 10
  }

  predicate AllHex(s: string) {
    forall i :: 0 <= i < |s| ==> IsHexChar(s[i])
  }

  /** The number a string of hex digits denotes. */
  function HexValue(s: string): nat
    requires AllHex(s)
    decreases |s|
  {
    if |s| == 0 then 0 else HexValue(s[..|s| - 1]) * 16 + HexValueOf(s[|s| - 1])
  }

  /** `n.toString(16)`: lowercase, no leading zeros. */
  function ToHex(n: nat): (s: string)
    ensures |s| >= 1 && AllHex(s)
    decreases n
  {
    if n < 16 then [HexDigit(n)] else ToHex(n / 16) + [HexDigit(n % 16)]
  }

  lemma {:induction false} HexValueOfToHex(n: nat)
    ensures HexValue(ToHex(n)) == n
    decreases n
  {
    if n >= 16 {
      HexValueOfToHex(n / 16);
      var s := ToHex(n);
      assert s[..|s| - 1] == ToHex(n / 16);
    }
  }

  /** Leading zeros do not change a hex value. */
  lemma {:induction false} HexValueLeadingZeros(k: nat, s: string)
    requires AllHex(s)
    ensures AllHex(seq(k, _ => '0') + s)
    ensures HexValue(seq(k, _ => '0') + s) == HexValue(s)
    decreases |s|
  {
    var z := seq(k, _ => '0');
    assert AllHex(z + s);
    if |s| == 0 {
      assert z + s == z;
      AllZeros(k);
    } else {
      var init := s[..|s| - 1];
      HexValueLeadingZeros(k, init);
      assert (z + s)[..|z + s| - 1] == z + init;
    }
  }

  lemma {:induction false} AllZeros(k: nat)
    ensures AllHex(seq(k, _ => '0'))
    ensures HexValue(seq(k, _ => '0')) == 0
    decreases k
  {
    if k > 0 {
      AllZeros(k - 1);
      assert seq(k, _ => '0')[..k - 1] == seq(k - 1, _ => '0');
    }
  }

  /** `s.padStart(width, '0')`. */
  function PadZeros(s: string, width: nat): string {
    if |s| >= width then s else seq(width - |s|, _ => '0') + s
  }

  /** One code point rendered as `codePointAt(0).toString(16).padStart(4, '0')`. */
  function CodePointHex(c: char): string {
    PadZeros(ToHex(c as nat), 4)
  }

  /** `emojiToCodePoint`: every code point in lowercase hex, at least four digits, joined by single spaces. */
  function EmojiToCodePoint(emoji: string): string {
    Join(seq(|emoji|, i requires 0 <= i < |emoji| => CodePointHex(emoji[i])), ' ')
  }

  lemma CodePointHexShape(c: char)
    ensures |CodePointHex(c)| >= 4
    ensures AllHex(CodePointHex(c))
    ensures ' ' !in CodePointHex(c) && '-' !in CodePointHex(c)
    ensures HexValue(CodePointHex(c)) == c as nat
  {
    var h := ToHex(c as nat);
    HexValueOfToHex(c as nat);
    if |h| < 4 {
      HexValueLeadingZeros(4 - |h|, h);
    }
  }

  /** Each code point becomes one group of at least four lowercase hex digits,
      and the groups are separated by single spaces. */
  lemma EmojiToCodePointShape(emoji: string)
    ensures var parts := Split(EmojiToCodePoint(emoji), ' ');
            |emoji| >= 1 ==>
              |parts| == |emoji|
              && forall i :: 0 <= i < |emoji| ==>
                   parts[i] == CodePointHex(emoji[i]) && |parts[i]| >= 4 && HexValue(parts[i]) == emoji[i] as nat
  {
    var parts := seq(|emoji|, i requires 0 <= i < |emoji| => CodePointHex(emoji[i]));
    forall i | 0 <= i < |emoji| { CodePointHexShape(emoji[i]); }
    if |emoji| >= 1 {
      SplitJoin(parts, ' ');
    }
  }

  // ---------------------------------------------------------------------------
  // Decoding: `parseInt(part, 16)` and `String.fromCodePoint`

  /** The longest prefix of hex digits. */
  function HexPrefix(s: string): (p: string)
    ensures |p| <= |s| && p == s[..|p|] && AllHex(p)
    ensures |p| < |s| ==> !IsHexChar(s[|p|])
    decreases |s|
  {
    if |s| > 0 && IsHexChar(s[0]) then [s[0]] + HexPrefix(s[1..]) else ""
  }

  /** `parseInt(s, 16)` per ECMA-262 section 19.2.5: leading whitespace is skipped,
      then an optional sign and an optional "0x"/"0X"; the longest run of hex
      digits is read and the rest ignored; no digits at all gives NaN (None). */
  function ParseIntHex(s: string): Option<int> {
    var t := TrimStart(s);
    var sign := if |t| > 0 && t[0] == '-' then -1 else 1;
    var unsigned := if |t| > 0 && (t[0] == '-' || t[0] == '+') then t[1..] else t;
    var body := if |unsigned| >= 2 && unsigned[0] == '0' && (unsigned[1] == 'x' || unsigned[1] == 'X')
                then unsigned[2..] else unsigned;
    var digits := HexPrefix(body);
    if digits == "" then None else Some(sign * HexValue(digits))
  }

  /** Why `String.fromCodePoint` cannot produce a Dafny character. */
  datatype DecodeError =
    | NotANumber            // parseInt gave NaN: RangeError
    | OutOfRange(n: int)    // negative or above 0x10FFFF: RangeError
    | LoneSurrogate(n: int) // JavaScript builds a lone surrogate; no Dafny char stands for it

  function FromCodePoint(n: Option<int>): Result<char, DecodeError> {
    match n
    case None => Err(NotANumber)
    case Some(v) =>
      if v < 0 || v > 0x10FFFF then Err(OutOfRange(v))
      else if 0xD800 <= v <= 0xDFFF then Err(LoneSurrogate(v))
      else Ok(v as char)
  }

  function DecodeParts(parts: seq<string>): Result<string, DecodeError>
    decreases |parts|
  {
    if |parts| == 0 then Ok("")
    else match FromCodePoint(ParseIntHex(parts[0]))
      case Err(e) => Err(e)
      case Ok(c) =>
        match DecodeParts(parts[1..])
        case Err(e) => Err(e)
        case Ok(rest) => Ok([c] + rest)
  }

  /** `codePointToEmoji`: split on spaces if there is one, otherwise on '-', and decode each part as hex. */
  function CodePointToEmoji(codePoint: string): Result<string, DecodeError> {
    var parts := if ' ' in codePoint then Split(codePoint, ' ') else Split(codePoint, '-');
    DecodeParts(parts)
  }

  lemma {:induction false} HexPrefixOfHex(s: string)
    requires AllHex(s)
    ensures HexPrefix(s) == s
    decreases |s|
  {
    if |s| > 0 {
      HexPrefixOfHex(s[1..]);
    }
  }

  /** With no whitespace, sign or "0x" in front, parseInt reads the leading hex digits. */
  lemma ParseIntHexPlain(s: string)
    requires |s| >= 1 && !IsJsWhitespace(s[0]) && s[0] != '-' && s[0] != '+'
    requires !(|s| >= 2 && s[0] == '0' && (s[1] == 'x' || s[1] == 'X'))
    ensures ParseIntHex(s) == if HexPrefix(s) == "" then None else Some(HexValue(HexPrefix(s)))
  {
    TrimStartFixed(s);
  }

  /** parseInt reads a plain string of hex digits as its value. */
  lemma ParseIntHexOfHex(s: string)
    requires |s| >= 1 && AllHex(s)
    ensures ParseIntHex(s) == Some(HexValue(s))
  {
    assert IsHexChar(s[0]);
    if |s| >= 2 {
      assert IsHexChar(s[1]);
    }
    ParseIntHexPlain(s);
    HexPrefixOfHex(s);
  }

  lemma FromCodePointOfChar(c: char)
    ensures FromCodePoint(Some(c as int)) == Ok(c)
  {
  }

  lemma DecodePartsCons(parts: seq<string>, c: char, rest: string)
    requires |parts| > 0
    requires FromCodePoint(ParseIntHex(parts[0])) == Ok(c)
    requires DecodeParts(parts[1..]) == Ok(rest)
    ensures DecodeParts(parts) == Ok([c] + rest)
  {
  }

  /** Decoding the parts of an encoding, one hex group per character, gives the characters back. */
  lemma {:induction false} DecodeHexGroups(emoji: string, parts: seq<string>)
    requires |parts| == |emoji|
    requires forall i :: 0 <= i < |parts| ==> parts[i] == CodePointHex(emoji[i])
    ensures DecodeParts(parts) == Ok(emoji)
    decreases |emoji|
  {
    if |emoji| > 0 {
      CodePointHexShape(emoji[0]);
      ParseIntHexOfHex(parts[0]);
      FromCodePointOfChar(emoji[0]);
      DecodeHexGroups(emoji[1..], parts[1..]);
      DecodePartsCons(parts, emoji[0], emoji[1..]);
      HeadTail(emoji);
    }
  }

  lemma DecodeEncodedParts(emoji: string)
    ensures DecodeParts(seq(|emoji|, i requires 0 <= i < |emoji| => CodePointHex(emoji[i]))) == Ok(emoji)
  {
    DecodeHexGroups(emoji, seq(|emoji|, i requires 0 <= i < |emoji| => CodePointHex(emoji[i])));
  }

  /** Decoding an encoding gives back the original, for every non-empty string. */
  lemma CodePointRoundTrip(emoji: string)
    requires |emoji| >= 1
    ensures CodePointToEmoji(EmojiToCodePoint(emoji)) == Ok(emoji)
  {
    var parts := seq(|emoji|, i requires 0 <= i < |emoji| => CodePointHex(emoji[i]));
    var encoded := EmojiToCodePoint(emoji);
    forall i | 0 <= i < |emoji| { CodePointHexShape(emoji[i]); }
    assert NoneContains(parts, ' ');
    assert NoneContains(parts, '-');
    JoinHasSeparator(parts, ' ');
    if ' ' in encoded {
      SplitJoin(parts, ' ');
    } else {
      assert |parts| == 1;
      assert encoded == parts[0];
      SplitJoin(parts, '-');
    }
    DecodeEncodedParts(emoji);
  }

  /** The empty string does not survive the round trip: its encoding is "",
      and parseInt("", 16) is NaN. */
  lemma CodePointEmptyFails()
    ensures EmojiToCodePoint("") == ""
    ensures CodePointToEmoji("") == Err(NotANumber)
  {
    assert Split("", '-') == [""];
    assert HexPrefix("") == "";
  }
}
