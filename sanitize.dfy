/** Input sanitisers of src/helpers/sanitize.ts: timestamps, free text and
    host names. `src/helpers.ts` carries identical copies of sanitizeString and
    sanitizePDSName; they are modelled once, here. */
module Sanitize {
  import opened Wrappers
  import opened Strings
  import opened Seqs

  // ---------------------------------------------------------------------------
  // Timestamps

  /** What the JavaScript Date built from a string shows: its local calendar
      year (`getFullYear`) and its UTC rendering (`toISOString`). */
  datatype ParsedDate = ParsedDate(year: int, iso: string)

  /** `new Date(s)`: None is an invalid date (`getTime()` is NaN). Date parsing is
      implementation- and time-zone-dependent, so it is a parameter of the model. */
  type DateParser = string -> Option<ParsedDate>

  const DefaultTimestamp: string := "1970-01-01T00:00:00.000Z"
  const LowYear: int := 1
  const HighYear: int := 294275
  const SaneLowYear: int := 2022
  const SaneHighYear: int := 2025

  datatype SanitizedTimestamp = SanitizedTimestamp(timestamp: string, wasWeird: bool, defaulted: bool)

  /** `!timestamp` for a `string | undefined | null` argument. */
  predicate IsFalsy(t: Option<string>) {
    t.None? || t.value == ""
  }

  /** There is no year 0: a leading "0000-" becomes "0001-" (first occurrence only). */
  function FixYearZero(t: string): string {
    if IsPrefix("0000-", t) then ReplaceFirst(t, "0000-", "0001-") else t
  }

  /** The year-zero rewrite touches only the first five characters. */
  lemma FixYearZeroKeepsRest(t: string)
    ensures IsPrefix("0000-", t) ==> FixYearZero(t) == "0001-" + t[5..]
    ensures !IsPrefix("0000-", t) ==> FixYearZero(t) == t
    ensures |FixYearZero(t)| == |t|
  {
    if IsPrefix("0000-", t) {
      ReplaceFirstAtFront(t, "0000-", "0001-");
    }
  }

  /** `sanitizeTimestamp` of src/helpers/sanitize.ts, the three-field variant. */
  function SanitizeTimestamp(t: Option<string>, parse: DateParser): (r: SanitizedTimestamp)
    ensures r.defaulted ==> r.timestamp == DefaultTimestamp
    ensures IsFalsy(t) ==> r == SanitizedTimestamp(DefaultTimestamp, false, true)
    ensures !IsFalsy(t) && parse(FixYearZero(t.value)).None? ==>
              r == SanitizedTimestamp(DefaultTimestamp, true, true)
    ensures !IsFalsy(t) && parse(FixYearZero(t.value)).Some? ==>
              var d := parse(FixYearZero(t.value)).value;
              && (LowYear <= d.year <= HighYear ==>
                    r == SanitizedTimestamp(d.iso, !(SaneLowYear <= d.year <= SaneHighYear), false))
              && (!(LowYear <= d.year <= HighYear) ==>
                    r == SanitizedTimestamp(DefaultTimestamp, true, true))
  {
    if IsFalsy(t) then SanitizedTimestamp(DefaultTimestamp, false, true)
    else
      match parse(FixYearZero(t.value))
      case None => SanitizedTimestamp(DefaultTimestamp, true, true)
      case Some(d) =>
        if LowYear <= d.year <= HighYear then
          if SaneLowYear <= d.year <= SaneHighYear then SanitizedTimestamp(d.iso, false, false)
          else SanitizedTimestamp(d.iso, true, false)
        else SanitizedTimestamp(DefaultTimestamp, true, true)
  }

  /** A parser that reads back what it prints: every ISO string it renders
      parses again to the same date, and the default timestamp renders as
      itself in an accepted local year (1970, or 1969 west of UTC). */
  ghost predicate ReadsBackIso(parse: DateParser) {
    && parse(DefaultTimestamp).Some? && parse(DefaultTimestamp).value.iso == DefaultTimestamp
    && LowYear <= parse(DefaultTimestamp).value.year <= HighYear
    && forall s :: parse(s).Some? ==> parse(s).value.iso != "" && parse(parse(s).value.iso) == parse(s)
  }

  /** Sanitising a sanitised timestamp again returns the same timestamp, for a
      parser that reads back its own ISO output; the flags of the second pass
      only say the value is a legal, non-defaulted date. */
  lemma SanitizeTimestampIdempotent(t: Option<string>, parse: DateParser)
    requires ReadsBackIso(parse)
    requires var ts := SanitizeTimestamp(t, parse).timestamp; !IsPrefix("0000-", ts)
    ensures var ts := SanitizeTimestamp(t, parse).timestamp;
            SanitizeTimestamp(Some(ts), parse).timestamp == ts
            && !SanitizeTimestamp(Some(ts), parse).defaulted
  {
    var r := SanitizeTimestamp(t, parse);
    assert FixYearZero(r.timestamp) == r.timestamp;
    assert DefaultTimestamp != "";
    if !r.defaulted {
      var d := parse(FixYearZero(t.value)).value;
      assert parse(FixYearZero(t.value)).Some?;
      assert r.timestamp == d.iso;
    }
  }

  const LocalMidnight: string := "0001-01-01T00:00:00"
  const MidnightIso: string := "0000-12-31T22:00:00.000Z"
  const RewrittenIso: string := "0001-12-31T22:00:00.000Z"

  /** A parser for a time zone two hours east of UTC, on the strings involved:
      local midnight of 1 January of year 1 is 22:00 UTC the day before, in year
      0, and the rewritten string is 22:00 UTC of 31 December of year 1, which is
      local year 2. It reads back every ISO string it renders. */
  function EastParser(): (p: DateParser)
    ensures ReadsBackIso(p)
  {
    s => if s == LocalMidnight || s == MidnightIso then Some(ParsedDate(1, MidnightIso))
         else if s == RewrittenIso then Some(ParsedDate(2, RewrittenIso))
         else if s == DefaultTimestamp then Some(ParsedDate(1970, DefaultTimestamp))
         else None
  }

  /** Sanitising is not idempotent when the first pass renders a year-0 ISO
      string: the second pass rewrites its "0000-" and so moves the date a year
      on. */
  lemma YearZeroNotIdempotent()
    ensures var ts := SanitizeTimestamp(Some(LocalMidnight), EastParser()).timestamp;
            ts == MidnightIso && IsPrefix("0000-", ts)
            && SanitizeTimestamp(Some(ts), EastParser()).timestamp == RewrittenIso != ts
  {
    var p := EastParser();
    FirstPassYearZero(p);
    SecondPassYearOne(p);
  }

  lemma FirstPassYearZero(p: DateParser)
    requires p == EastParser()
    ensures SanitizeTimestamp(Some(LocalMidnight), p).timestamp == MidnightIso
  {
    assert LocalMidnight[..5] == "0001-";
    assert !IsPrefix("0000-", LocalMidnight);
    FixYearZeroKeepsRest(LocalMidnight);
    assert p(LocalMidnight) == Some(ParsedDate(1, MidnightIso));
  }

  lemma SecondPassYearOne(p: DateParser)
    requires p == EastParser()
    ensures IsPrefix("0000-", MidnightIso) && RewrittenIso != MidnightIso
    ensures SanitizeTimestamp(Some(MidnightIso), p).timestamp == RewrittenIso
  {
    assert MidnightIso[..5] == "0000-";
    FixYearZeroKeepsRest(MidnightIso);
    YearOneSpelling();
    assert RewrittenIso[3] != MidnightIso[3];
    assert RewrittenIso[3] != LocalMidnight[3] || |RewrittenIso| != |LocalMidnight|;
    assert p(RewrittenIso) == Some(ParsedDate(2, RewrittenIso));
  }

  lemma YearOneSpelling()
    ensures "0001-" + MidnightIso[5..] == RewrittenIso
  {
    assert MidnightIso[5..] == "12-31T22:00:00.000Z";
  }

  // ---------------------------------------------------------------------------
  // Free text

  /** The characters the control-character class removes:
      0x00-0x08, 0x0B-0x0C, 0x0E-0x1F and 0x7F (tab, line feed and carriage return stay). */
  predicate IsStrippedControl(c: char) {
    (c as int <= 0x08) || (0x0B <= c as int <= 0x0C) || (0x0E <= c as int <= 0x1F) || c as int == 0x7F
  }

  function StripControls(s: string): (r: string)
    decreases |s|
  {
    if |s| == 0 then ""
    else (if IsStrippedControl(s[0]) then "" else [s[0]]) + StripControls(s[1..])
  }

  predicate NoStrippedControl(s: string) {
    forall i :: 0 <= i < |s| ==> !IsStrippedControl(s[i])
  }

  lemma StripControlsCons(s: string)
    requires |s| > 0
    ensures StripControls(s) == (if IsStrippedControl(s[0]) then "" else [s[0]]) + StripControls(s[1..])
  {
  }

  /** StripControls leaves none of the listed characters. */
  lemma {:induction false} StripControlsClean(s: string)
    ensures NoStrippedControl(StripControls(s))
    decreases |s|
  {
    if |s| > 0 {
      StripControlsClean(s[1..]);
      StripControlsCons(s);
      var head: string := if IsStrippedControl(s[0]) then "" else [s[0]];
      var r := StripControls(s[1..]);
      forall i | 0 <= i < |head + r| ensures !IsStrippedControl((head + r)[i]) {
        if i >= |head| { assert (head + r)[i] == r[i - |head|]; }
      }
    }
  }

  /** StripControls keeps every other character as often as it occurs. */
  lemma {:induction false} StripControlsCounts(s: string)
    ensures forall c :: !IsStrippedControl(c) ==> multiset(StripControls(s))[c] == multiset(s)[c]
    decreases |s|
  {
    if |s| > 0 {
      StripControlsCounts(s[1..]);
      StripControlsCons(s);
      HeadTail(s);
      assert multiset(s) == multiset([s[0]]) + multiset(s[1..]);
    }
  }

  /** A string without the listed characters passes unchanged. */
  lemma {:induction false} StripControlsKeeps(s: string)
    requires NoStrippedControl(s)
    ensures StripControls(s) == s
    decreases |s|
  {
    if |s| > 0 {
      assert NoStrippedControl(s[1..]);
      StripControlsKeeps(s[1..]);
      StripControlsCons(s);
      HeadTail(s);
    }
  }

  /** StripControls removes exactly the listed characters and keeps all others. */
  lemma StripControlsExact(s: string)
    ensures NoStrippedControl(StripControls(s))
    ensures forall c :: !IsStrippedControl(c) ==> multiset(StripControls(s))[c] == multiset(s)[c]
    ensures NoStrippedControl(s) ==> StripControls(s) == s
  {
    StripControlsClean(s);
    StripControlsCounts(s);
    if NoStrippedControl(s) {
      StripControlsKeeps(s);
    }
  }

  /** `sanitizeString`: empty for a falsy input, otherwise the controls are removed and the result trimmed. */
  function SanitizeString(input: Option<string>): string {
    if IsFalsy(input) then "" else Trim(StripControls(input.value))
  }

  /** The output carries no listed control character, is trimmed, and sanitising it again changes nothing. */
  lemma SanitizeStringProperties(input: Option<string>)
    ensures IsFalsy(input) ==> SanitizeString(input) == ""
    ensures NoStrippedControl(SanitizeString(input))
    ensures IsTrimmed(SanitizeString(input))
    ensures SanitizeString(Some(SanitizeString(input))) == SanitizeString(input)
  {
    if !IsFalsy(input) {
      var stripped := StripControls(input.value);
      StripControlsClean(input.value);
      TrimClean(stripped);
      var r := Trim(stripped);
      TrimProperties(stripped);
      if r != "" {
        StripControlsKeeps(r);
        TrimmedFixed(r);
      }
    }
  }

  /** Trimming only cuts characters off, so no listed control character appears. */
  lemma TrimClean(t: string)
    requires NoStrippedControl(t)
    ensures NoStrippedControl(Trim(t))
  {
    var t1 := TrimStart(t);
    var r := TrimEnd(t1);
    assert Trim(t) == r;
    forall i | 0 <= i < |r| ensures !IsStrippedControl(r[i]) {
      assert r[i] == t1[i];
      assert t1[i] == t[|t| - |t1| + i];
    }
  }



  // ---------------------------------------------------------------------------
  // Host names

  predicate IsLabelChar(c: char) {
    ('A' <= c <= 'Z') || ('a' <= c <= 'z') || ('0' <= c <= '9') || c == '-'
  }

  /** One label of the host-name pattern: 1 to 63 letters, digits or hyphens,
      neither first nor last being a hyphen. */
  predicate IsLabel(l: string) {
    && 1 <= |l| <= 63
    && (forall i :: 0 <= i < |l| ==> IsLabelChar(l[i]))
    && l[0] != '-' && l[|l| - 1] != '-'
  }

  predicate IsDigit(c: char) { '0' <= c <= '9' }

  predicate IsPort(p: string) {
    1 <= |p| <= 5 && forall i :: 0 <= i < |p| ==> IsDigit(p[i])
  }

  predicate AllLabels(parts: seq<string>) {
    forall k :: 0 <= k < |parts| ==> IsLabel(parts[k])
  }

  /** The host-name-with-port pattern of sanitizePDSName, decided by splitting:
      labels contain no ':', so a port starts at the first ':'. */
  predicate MatchesHostWithPort(s: string) {
    var i := FirstPos(s, ':');
    AllLabels(Split(s[..i], '.')) && (i == |s| || IsPort(s[i + 1..]))
  }

  /** The string the pattern describes: labels joined by '.', then an optional ':' and port. */
  function ComposeHost(labels: seq<string>, port: Option<string>): string {
    Join(labels, '.') + (if port.Some? then ":" + port.value else "")
  }

  lemma LabelsLackColon(labels: seq<string>)
    requires AllLabels(labels)
    ensures ':' !in Join(labels, '.')
    decreases |labels|
  {
    if |labels| >= 2 {
      assert IsLabel(labels[0]);
      assert ':' !in labels[0];
      LabelsLackColon(labels[1..]);
    } else if |labels| == 1 {
      assert IsLabel(labels[0]);
    }
  }

  lemma LabelsLackDot(labels: seq<string>)
    requires AllLabels(labels)
    ensures NoneContains(labels, '.')
  {
    forall k | 0 <= k < |labels| ensures '.' !in labels[k] {
      assert IsLabel(labels[k]);
    }
  }

  /** The pattern accepts exactly the strings built from one or more labels and an optional port. */
  lemma HostGrammarComplete(labels: seq<string>, port: Option<string>)
    requires |labels| >= 1 && AllLabels(labels)
    requires port.Some? ==> IsPort(port.value)
    ensures MatchesHostWithPort(ComposeHost(labels, port))
  {
    LabelsLackColon(labels);
    LabelsLackDot(labels);
    ComposeHostSplits(labels, port);
    var s := ComposeHost(labels, port);
    MatchesAt(s, FirstPos(s, ':'), labels);
  }

  /** Where the pattern splits a composed host: at the end of the labels. */
  lemma ComposeHostSplits(labels: seq<string>, port: Option<string>)
    requires |labels| >= 1 && ':' !in Join(labels, '.') && NoneContains(labels, '.')
    ensures var s := ComposeHost(labels, port);
            var i := FirstPos(s, ':');
            i == |Join(labels, '.')| && Split(s[..i], '.') == labels
            && (port.None? ==> i == |s|)
            && (port.Some? ==> i < |s| && s[i + 1..] == port.value)
  {
    var host := Join(labels, '.');
    SplitJoin(labels, '.');
    if port.Some? {
      PortSplits(host, port.value);
    } else {
      assert ComposeHost(labels, port) == host + "";
      assert host + "" == host;
      assert host[..|host|] == host;
    }
  }

  /** A host without ':' followed by ":" and a port splits back at that ':'. */
  lemma PortSplits(host: string, port: string)
    requires ':' !in host
    ensures var s := host + (":" + port);
            FirstPos(s, ':') == |host| && s[..|host|] == host && s[|host| + 1..] == port
  {
    var tail := ":" + port;
    var s := host + tail;
    FirstPosPast(host, tail, ':');
    assert FirstPos(tail, ':') == 0;
    assert s[..|host|] == host;
    assert s[|host|..] == tail;
    assert tail[1..] == port;
  }


  /** The pattern's two halves, checked at the first ':'. */
  lemma MatchesAt(s: string, i: nat, labels: seq<string>)
    requires i == FirstPos(s, ':') && Split(s[..i], '.') == labels && AllLabels(labels)
    requires i == |s| || IsPort(s[i + 1..])
    ensures MatchesHostWithPort(s)
  {
  }

  lemma HostGrammarSound(s: string)
    requires MatchesHostWithPort(s)
    ensures exists labels: seq<string>, port: Option<string> ::
              |labels| >= 1 && AllLabels(labels) && (port.Some? ==> IsPort(port.value))
              && s == ComposeHost(labels, port)
  {
    var i := FirstPos(s, ':');
    var labels := Split(s[..i], '.');
    var port := if i == |s| then None else Some(s[i + 1..]);
    SplitComposes(s);
    assert |labels| >= 1 && AllLabels(labels) && (port.Some? ==> IsPort(port.value))
           && s == ComposeHost(labels, port);
  }

  /** Every string is the labels before its first ':' joined back, then that ':' and the rest. */
  lemma SplitComposes(s: string)
    ensures var i := FirstPos(s, ':');
            s == ComposeHost(Split(s[..i], '.'), if i == |s| then None else Some(s[i + 1..]))
  {
    var i := FirstPos(s, ':');
    var host := s[..i];
    var labels := Split(host, '.');
    JoinSplit(host, '.');
    if i == |s| {
      assert host == s;
      assert ComposeHost(labels, None) == host + "";
      assert host + "" == host;
    } else {
      var port := s[i + 1..];
      SplitAround(s, i);
      assert [s[i]] == ":";
      assert ComposeHost(labels, Some(port)) == host + (":" + port);
      ConcatAssoc(host, ":", port);
    }
  }



  datatype PdsNameError = InvalidHostname | UrlRejected

  /** `sanitizePDSName`: the host is returned unchanged when it matches the
      pattern and `new URL("https://" + pds + "/")` accepts it; otherwise it throws.
      The URL parser is a parameter (`urlParses`). */
  function SanitizePdsName(pds: string, urlParses: string -> bool): (r: Result<string, PdsNameError>)
    ensures r.Ok? <==> MatchesHostWithPort(pds) && urlParses("https://" + pds + "/")
    ensures r.Ok? ==> r.value == pds
    ensures !MatchesHostWithPort(pds) ==> r == Err(InvalidHostname)
  {
    if !MatchesHostWithPort(pds) then Err(InvalidHostname)
    else if !urlParses("https://" + pds + "/") then Err(UrlRejected)
    else Ok(pds)
  }
}
