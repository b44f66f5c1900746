/** The host normalisation of src/stages/stage1.ts: every (did, endpoint) row of
    the PLC directory query becomes one dump line whose host has its scheme and
    trailing slashes removed and is trimmed, with Bluesky's own hosts replaced
    by the relay. The query, the file and `JSON.stringify` are not modelled; the
    relay URL is a parameter. */
module Directory {
  import opened Strings
  import opened Hosts

  /** `.replace(/^(https?:\/\/)/, '')`: one leading `https://` or `http://`. */
  function StripScheme(s: string): (r: string)
    ensures |r| <= |s| && r == s[|s| - |r|..]
    ensures |s| - |r| == 8 <==> IsPrefix("https://", s)
    ensures |s| - |r| == 7 <==> IsPrefix("http://", s) && !IsPrefix("https://", s)
    ensures |s| - |r| == 0 <==> !IsPrefix("http://", s) && !IsPrefix("https://", s)
  {
    if IsPrefix("https://", s) then s[8..] else if IsPrefix("http://", s) then s[7..] else s
  }

  /** `.replace(/\/+$/, '')`: every trailing `/`. */
  function StripSlashes(s: string): (r: string)
    ensures |r| <= |s| && r == s[..|r|]
    ensures |r| > 0 ==> r[|r| - 1] != '/'
    ensures forall i :: |r| <= i < |s| ==> s[i] == '/'
    decreases |s|
  {
    if |s| > 0 && s[|s| - 1] == '/' then StripSlashes(s[..|s| - 1]) else s
  }

  /** `sanitizedPds`. */
  function NormalizeHost(raw: string): string {
    Trim(StripSlashes(StripScheme(raw)))
  }

  predicate IsBlueskyHost(h: string) {
    Contains(h, "bsky.social") || Contains(h, "bsky.network")
  }

  /** `finalPds`. */
  function FinalPds(raw: string, relayUrl: string): string {
    var h := NormalizeHost(raw);
    if IsBlueskyHost(h) then relayUrl else h
  }

  /** The scheme goes only once and only from the very front. */
  lemma SchemeStrippedOnce(rest: string)
    ensures StripScheme("https://" + rest) == rest
    ensures StripScheme("http://" + rest) == rest
  {
    assert ("https://" + rest)[..8] == "https://";
    assert ("http://" + rest)[..7] == "http://";
    assert ("http://" + rest)[4] == ':';
  }

  lemma DoubleSchemeKeepsOne()
    ensures StripScheme("https://https://a") == "https://a"
  {
    SchemeStrippedOnce("https://a");
  }

  /** Trimming comes last: leading whitespace keeps the scheme, trailing
      whitespace keeps the slashes, and only then is the whitespace cut. */
  lemma LeadingWhitespaceKeepsScheme(raw: string)
    requires |raw| > 0 && IsJsWhitespace(raw[0])
    ensures StripScheme(raw) == raw
  {
  }

  lemma TrailingWhitespaceKeepsSlashes(s: string)
    requires |s| > 0 && IsJsWhitespace(s[|s| - 1])
    ensures StripSlashes(s) == s
  {
  }

  /** The normalised host is trimmed, and when its raw form has no surrounding
      whitespace it is the raw string without scheme and trailing slashes. */
  lemma NormalizeHostSpec(raw: string)
    ensures IsTrimmed(NormalizeHost(raw))
    ensures IsTrimmed(StripSlashes(StripScheme(raw))) ==>
              NormalizeHost(raw) == StripSlashes(StripScheme(raw))
  {
    TrimProperties(StripSlashes(StripScheme(raw)));
    if IsTrimmed(StripSlashes(StripScheme(raw))) {
      TrimmedFixed(StripSlashes(StripScheme(raw)));
    }
  }

  /** A Bluesky host becomes the relay; every other host is kept, so the only
      way a dump line names a Bluesky host is through the relay URL itself. */
  lemma FinalPdsSpec(raw: string, relayUrl: string)
    ensures IsBlueskyHost(NormalizeHost(raw)) ==> FinalPds(raw, relayUrl) == relayUrl
    ensures !IsBlueskyHost(NormalizeHost(raw)) ==> FinalPds(raw, relayUrl) == NormalizeHost(raw)
    ensures IsBlueskyHost(FinalPds(raw, relayUrl)) ==> FinalPds(raw, relayUrl) == relayUrl
  {
  }

  function DumpLine(row: DidPds, relayUrl: string): DidPds {
    DidPds(row.did, FinalPds(row.pds, relayUrl))
  }

  /** The `for (const row of didquery.iterate())` loop: one line per row, in
      order, each keeping its DID. */
  method DumpRows(rows: seq<DidPds>, relayUrl: string) returns (lines: seq<DidPds>)
    ensures |lines| == |rows|
    ensures forall i :: 0 <= i < |rows| ==>
              lines[i].did == rows[i].did && lines[i].pds == FinalPds(rows[i].pds, relayUrl)
  {
    lines := [];
    for i := 0 to |rows|
      invariant |lines| == i
      invariant forall k :: 0 <= k < i ==> lines[k] == DumpLine(rows[k], relayUrl)
    {
      lines := lines + [DumpLine(rows[i], relayUrl)];
    }
  }
}
