/** The record mapping of src/stages/stage3.ts: one decoded NDJSON line becomes
    the post and profile rows handed to the batch queues. */
module Records {
  import opened Wrappers
  import opened Strings
  import opened Seqs
  import opened Sanitize
  import opened Helpers

  const PostMarker: string := "app.bsky.feed.post"
  const ProfileMarker: string := "app.bsky.actor.profile"
  const UnknownLang: string := "unknown"

  /** The fields of a record's `value` the mapping reads. Absent fields are None;
      `langs` is None when it is not an array. */
  datatype RecordValue = RecordValue(
    cid: string,
    createdAt: Option<string>,
    langs: Option<seq<string>>,
    text: Option<string>,
    displayName: Option<string>,
    description: Option<string>)

  /** One `[key, record]` pair of `Object.entries(json)`; None when the record has no `value`. */
  datatype Entry = Entry(key: string, value: Option<RecordValue>)

  /** The foreign functions the mapping calls: `JSON.parse` (None when it throws
      or yields no object), `text.match(emojiRegex) ?? []`, `batchNormalizeEmojis`,
      and the Date parser used by sanitizeTimestamp. */
  datatype Oracles = Oracles(
    decode: string -> Option<seq<Entry>>,
    matchEmojis: string -> seq<string>,
    normalize: seq<string> -> seq<string>,
    parse: DateParser)

  datatype PostData = PostData(
    cid: string, did: string, rkey: string, hasEmojis: bool,
    langs: seq<string>, emojis: seq<string>, post: string, createdAt: string)

  datatype ProfileData = ProfileData(
    cid: string, did: string, rkey: string, displayName: string, description: string,
    createdAt: string, hasDisplayNameEmojis: bool, hasDescriptionEmojis: bool,
    displayNameEmojis: seq<string>, descriptionEmojis: seq<string>)

  datatype Item = PostItem(post: PostData) | ProfileItem(profile: ProfileData)

  datatype Kind = PostKind | ProfileKind | Ignored

  /** The post test comes first, so a key naming both kinds is a post. */
  function Classify(key: string): (k: Kind)
    ensures k == PostKind <==> Contains(key, PostMarker)
    ensures k == ProfileKind <==> !Contains(key, PostMarker) && Contains(key, ProfileMarker)
  {
    if Contains(key, PostMarker) then PostKind
    else if Contains(key, ProfileMarker) then ProfileKind
    else Ignored
  }

  /** The record key: the second '/'-separated segment of the entry key, or the whole key when it has no '/'. */
  function RecordKey(key: string): string {
    var parts := Split(key, '/');
    if |parts| > 1 then parts[1] else key
  }

  lemma RecordKeySegment(key: string)
    ensures '/' !in key ==> RecordKey(key) == key
    ensures '/' in key ==>
              var rest := key[FirstPos(key, '/') + 1..];
              RecordKey(key) == rest[..FirstPos(rest, '/')] && '/' !in RecordKey(key)
  {
    if '/' in key {
      var rest := key[FirstPos(key, '/') + 1..];
      assert Split(key, '/')[1] == Split(rest, '/')[0];
    }
  }

  /** The language list: the source's list without repeats, in first-occurrence
      order, or ["unknown"] when it is missing, not an array, or empty. */
  function Langs(langs: Option<seq<string>>): seq<string> {
    if langs.Some? && |langs.value| > 0 then Dedupe(langs.value) else [UnknownLang]
  }

  lemma LangsProperties(langs: Option<seq<string>>)
    ensures |Langs(langs)| >= 1
    ensures NoDup(Langs(langs))
    ensures langs.None? || langs.value == [] ==> Langs(langs) == [UnknownLang]
    ensures langs.Some? && langs.value != [] ==>
              (forall x :: x in Langs(langs) <==> x in langs.value)
              && forall i, j :: 0 <= i < j < |Langs(langs)| ==>
                   FirstPos(langs.value, Langs(langs)[i]) < FirstPos(langs.value, Langs(langs)[j])
  {
    if langs.Some? && |langs.value| > 0 {
      DedupeElements(langs.value);
      DedupeFirstOccurrenceOrder(langs.value);
      assert langs.value[0] in Dedupe(langs.value);
    }
  }

  // ---------------------------------------------------------------------------
  // createdAt

  /** What the mapping stores in `createdAt` as written: src/helpers.ts's
      sanitizeTimestamp returns an object, which is stored as it is. */
  datatype CreatedAtValue = Text(s: string) | Object(ts: LegacyTimestamp)

  function CreatedAtAsWritten(createdAt: Option<string>, parse: DateParser): (v: CreatedAtValue) {
    if !IsFalsy(createdAt) then Object(SanitizeTimestampLegacy(createdAt, parse)) else Text(DefaultTimestamp)
  }

  /** The string `new Date(createdAt)` receives when the row is inserted: an object becomes "[object Object]". */
  function DateArgument(v: CreatedAtValue): string {
    match v
    case Text(s) => s
    case Object(_) => "[object Object]"
  }

  /** As written, every record that has a createdAt reaches the database as the same
      string "[object Object]", whatever its date was. */
  lemma CreatedAtAsWrittenLosesDate(c1: string, c2: string, parse: DateParser)
    requires c1 != "" && c2 != ""
    ensures CreatedAtAsWritten(Some(c1), parse).Object?
    ensures DateArgument(CreatedAtAsWritten(Some(c1), parse)) == DateArgument(CreatedAtAsWritten(Some(c2), parse))
    ensures DateArgument(CreatedAtAsWritten(Some(c1), parse)) == "[object Object]"
  {
  }

  /** The intended value: the sanitised timestamp string. */
  function CreatedAt(createdAt: Option<string>, parse: DateParser): (s: string)
    ensures s == SanitizeTimestamp(createdAt, parse).timestamp
    ensures s == DefaultTimestamp || (createdAt.Some? && parse(FixYearZero(createdAt.value)).Some?
                                      && s == parse(FixYearZero(createdAt.value)).value.iso)
  {
    LegacyAgreesWithSanitize(createdAt, parse);
    if !IsFalsy(createdAt) then SanitizeTimestampLegacy(createdAt, parse).timestamp else DefaultTimestamp
  }

  /** With the correction, two records whose dates parse to different ISO strings in
      the sane window keep different createdAt values. */
  lemma CreatedAtKeepsDate(c1: string, c2: string, parse: DateParser)
    requires c1 != "" && c2 != ""
    requires parse(FixYearZero(c1)).Some? && parse(FixYearZero(c2)).Some?
    requires SaneLowYear <= parse(FixYearZero(c1)).value.year <= SaneHighYear
    requires SaneLowYear <= parse(FixYearZero(c2)).value.year <= SaneHighYear
    ensures CreatedAt(Some(c1), parse) == parse(FixYearZero(c1)).value.iso
    ensures parse(FixYearZero(c1)).value.iso != parse(FixYearZero(c2)).value.iso ==>
              CreatedAt(Some(c1), parse) != CreatedAt(Some(c2), parse)
  {
  }

  // ---------------------------------------------------------------------------
  // Post and profile rows

  /** The PostData built for a post record whose `text` is present. */
  function MapPost(did: string, key: string, v: RecordValue, o: Oracles): (p: PostData)
    requires v.text.Some?
    ensures p.did == did && p.rkey == RecordKey(key) && p.cid == v.cid && p.post == v.text.value
    ensures p.hasEmojis <==> |p.emojis| > 0
    ensures p.emojis == o.normalize(o.matchEmojis(v.text.value))
    ensures p.langs == Langs(v.langs) && |p.langs| >= 1
    ensures p.createdAt == SanitizeTimestamp(v.createdAt, o.parse).timestamp
  {
    var emojis := o.normalize(o.matchEmojis(v.text.value));
    LangsProperties(v.langs);
    PostData(v.cid, did, RecordKey(key), |emojis| > 0, Langs(v.langs), emojis, v.text.value, CreatedAt(v.createdAt, o.parse))
  }

  /** `s?.match(emojiRegex) ?? []`, normalised. */
  function OptionalEmojis(s: Option<string>, o: Oracles): seq<string> {
    o.normalize(if s.Some? then o.matchEmojis(s.value) else [])
  }

  /** The ProfileData built for a profile record. */
  function MapProfile(did: string, key: string, v: RecordValue, o: Oracles): (p: ProfileData)
    ensures p.did == did && p.rkey == RecordKey(key) && p.cid == v.cid
    ensures p.displayName == (if v.displayName.Some? then v.displayName.value else "")
    ensures p.description == (if v.description.Some? then v.description.value else "")
    ensures p.hasDisplayNameEmojis <==> |p.displayNameEmojis| > 0
    ensures p.hasDescriptionEmojis <==> |p.descriptionEmojis| > 0
    ensures p.displayNameEmojis == OptionalEmojis(v.displayName, o)
    ensures p.descriptionEmojis == OptionalEmojis(v.description, o)
    ensures p.createdAt == SanitizeTimestamp(v.createdAt, o.parse).timestamp
  {
    var dn := OptionalEmojis(v.displayName, o);
    var de := OptionalEmojis(v.description, o);
    ProfileData(v.cid, did, RecordKey(key),
      if v.displayName.Some? then v.displayName.value else "",
      if v.description.Some? then v.description.value else "",
      CreatedAt(v.createdAt, o.parse), |dn| > 0, |de| > 0, dn, de)
  }

  /** The profile's two emoji flags depend on separate fields: changing the
      description never changes the display-name side, and the other way round. */
  lemma ProfileFlagsIndependent(did: string, key: string, v: RecordValue, d: Option<string>, o: Oracles)
    ensures var p1 := MapProfile(did, key, v, o);
            var p2 := MapProfile(did, key, v.(description := d), o);
            p1.hasDisplayNameEmojis == p2.hasDisplayNameEmojis && p1.displayNameEmojis == p2.displayNameEmojis
    ensures var p1 := MapProfile(did, key, v, o);
            var p2 := MapProfile(did, key, v.(displayName := d), o);
            p1.hasDescriptionEmojis == p2.hasDescriptionEmojis && p1.descriptionEmojis == p2.descriptionEmojis
  {
  }

  /** How one entry is handled: skipped, mapped to one row, or throwing (a missing
      `value`, or a post without `text`), which abandons the rest of the line. */
  datatype EntryOutcome = Skip | Emit(item: Item) | Throws

  function HandleEntry(did: string, e: Entry, o: Oracles): (r: EntryOutcome)
    ensures Classify(e.key) == Ignored <==> r == Skip
    ensures r.Emit? && r.item.PostItem? ==> Classify(e.key) == PostKind && r.item.post.did == did
    ensures r.Emit? && r.item.ProfileItem? ==> Classify(e.key) == ProfileKind && r.item.profile.did == did
  {
    match Classify(e.key)
    case Ignored => Skip
    case PostKind =>
      if e.value.None? || e.value.value.text.None? then Throws
      else Emit(PostItem(MapPost(did, e.key, e.value.value, o)))
    case ProfileKind =>
      if e.value.None? then Throws
      else Emit(ProfileItem(MapProfile(did, e.key, e.value.value, o)))
  }

  /** The rows of the entries, in order, up to the first entry that throws. */
  function HandleEntries(did: string, es: seq<Entry>, o: Oracles): seq<Item>
    decreases |es|
  {
    if |es| == 0 then []
    else match HandleEntry(did, es[0], o)
      case Throws => []
      case Skip => HandleEntries(did, es[1..], o)
      case Emit(item) => [item] + HandleEntries(did, es[1..], o)
  }

  /** Index of the first entry that throws, or |es|. */
  function FirstThrow(did: string, es: seq<Entry>, o: Oracles): (k: nat)
    ensures k <= |es|
    ensures forall i :: 0 <= i < k ==> !HandleEntry(did, es[i], o).Throws?
    ensures k < |es| ==> HandleEntry(did, es[k], o).Throws?
    decreases |es|
  {
    if |es| == 0 then 0
    else if HandleEntry(did, es[0], o).Throws? then 0
    else 1 + FirstThrow(did, es[1..], o)
  }

  /** Reference definition: every emitted row of a list of entries that do not throw. */
  function Emitted(did: string, es: seq<Entry>, o: Oracles): seq<Item>
    decreases |es|
  {
    if |es| == 0 then []
    else (match HandleEntry(did, es[0], o) case Emit(item) => [item] case _ => []) + Emitted(did, es[1..], o)
  }

  /** The rows of a line are those of the entries before the first throw; none is
      lost before it and none comes from after it. */
  lemma {:induction false} HandleEntriesUpToThrow(did: string, es: seq<Entry>, o: Oracles)
    ensures HandleEntries(did, es, o) == Emitted(did, es[..FirstThrow(did, es, o)], o)
    ensures |HandleEntries(did, es, o)| <= |es|
    decreases |es|
  {
    if |es| > 0 {
      HandleEntriesUpToThrow(did, es[1..], o);
      var h := HandleEntry(did, es[0], o);
      if !h.Throws? {
        var k := FirstThrow(did, es, o);
        assert k == 1 + FirstThrow(did, es[1..], o);
        var pre := es[..k];
        assert pre[0] == es[0];
        assert pre[1..] == es[1..][..k - 1];
        assert Emitted(did, pre, o) == (match h case Emit(item) => [item] case _ => []) + Emitted(did, pre[1..], o);
      }
    }
  }

  /** Every row of a line carries the crawled DID and comes from a post or profile key. */
  lemma {:induction false} HandleEntriesDid(did: string, es: seq<Entry>, o: Oracles)
    ensures forall i :: 0 <= i < |HandleEntries(did, es, o)| ==>
              match HandleEntries(did, es, o)[i]
              case PostItem(p) => p.did == did
              case ProfileItem(p) => p.did == did
    decreases |es|
  {
    if |es| > 0 {
      HandleEntriesDid(did, es[1..], o);
    }
  }

  /** One complete line: blank lines and lines that do not decode give no rows. */
  function ProcessLine(did: string, line: string, o: Oracles): (items: seq<Item>)
    ensures Trim(line) == "" ==> items == []
    ensures Trim(line) != "" && o.decode(line).None? ==> items == []
    ensures Trim(line) != "" && o.decode(line).Some? ==> items == HandleEntries(did, o.decode(line).value, o)
  {
    if Trim(line) == "" then []
    else match o.decode(line)
      case None => []
      case Some(es) => HandleEntries(did, es, o)
  }
}
