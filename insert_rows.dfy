/** The row building of src/db/insertFunctions.ts. The parent rows the insert
    returns (`returning(['id', 'cid', 'did', 'rkey'])`) are an input; from them
    `insertPosts` and `insertProfiles` build a composite-key map, then the emoji
    child rows, which are inserted in chunks. A `created_at` column holds the
    string the source builds its Date from. */
module InsertRows {
  import opened Wrappers
  import opened Seqs
  import opened Records
  import opened Generic

  // ---------------------------------------------------------------------------
  // Parent rows

  /** A row of the posts table. */
  datatype PostRow = PostRow(
    cid: string, did: string, rkey: string, has_emojis: bool, langs: seq<string>,
    text: string, created_at: string)

  /** A row of the profiles table. */
  datatype ProfileRow = ProfileRow(
    cid: string, did: string, rkey: string, display_name: string, description: string,
    created_at: string, has_display_name_emojis: bool, has_description_emojis: bool)

  function ToRow(p: PostData): (row: PostRow)
    ensures row.cid == p.cid && row.did == p.did && row.rkey == p.rkey
    ensures row.has_emojis == p.hasEmojis && row.langs == p.langs
    ensures row.text == p.post && row.created_at == p.createdAt
  {
    PostRow(p.cid, p.did, p.rkey, p.hasEmojis, p.langs, p.post, p.createdAt)
  }

  /** The row keeps every field but the emoji list: two posts give the same row
      exactly when they differ at most in their emojis. */
  lemma ToRowKeepsAllButEmojis(p1: PostData, p2: PostData)
    ensures ToRow(p1) == ToRow(p2) <==> p1.(emojis := []) == p2.(emojis := [])
  {
    if ToRow(p1) == ToRow(p2) {
      assert p1.(emojis := []) == p2.(emojis := []);
    }
  }

  /** `batch.map(...)`: one parent row per post, in order. */
  function ToRows(batch: seq<PostData>): (rows: seq<PostRow>)
    ensures |rows| == |batch| && forall i :: 0 <= i < |batch| ==> rows[i] == ToRow(batch[i])
  {
    seq(|batch|, i requires 0 <= i < |batch| => ToRow(batch[i]))
  }

  function ToProfileRow(p: ProfileData): (row: ProfileRow)
    ensures row.cid == p.cid && row.did == p.did && row.rkey == p.rkey
    ensures row.display_name == p.displayName && row.description == p.description
    ensures row.created_at == p.createdAt
    ensures row.has_display_name_emojis == p.hasDisplayNameEmojis
    ensures row.has_description_emojis == p.hasDescriptionEmojis
  {
    ProfileRow(p.cid, p.did, p.rkey, p.displayName, p.description, p.createdAt,
               p.hasDisplayNameEmojis, p.hasDescriptionEmojis)
  }

  function ToProfileRows(batch: seq<ProfileData>): (rows: seq<ProfileRow>)
    ensures |rows| == |batch| && forall i :: 0 <= i < |batch| ==> rows[i] == ToProfileRow(batch[i])
  {
    seq(|batch|, i requires 0 <= i < |batch| => ToProfileRow(batch[i]))
  }

  // ---------------------------------------------------------------------------
  // The composite-key map

  /** A parent row as the insert returns it. */
  datatype Returned = Returned(id: int, cid: string, did: string, rkey: string)

  /** The template string `${cid}-${did}-${rkey}`. */
  function CompositeKey(cid: string, did: string, rkey: string): string {
    cid + "-" + did + "-" + rkey
  }

  /** The key uses `-` as a separator that may also occur inside the fields, so
      two different triples can share a key. */
  lemma CompositeKeyNotInjective()
    ensures CompositeKey("c", "did:web:a-b", "r") == CompositeKey("c", "did:web:a", "b-r")
  {
  }

  /** The map after `set` was called for every returned row in order: a later
      row overwrites an earlier one with the same key. */
  function IdMap(returned: seq<Returned>): map<string, int>
    decreases |returned|
  {
    if |returned| == 0 then map[]
    else
      var r := returned[|returned| - 1];
      IdMap(returned[..|returned| - 1])[CompositeKey(r.cid, r.did, r.rkey) := r.id]
  }

  function KeyOf(r: Returned): string {
    CompositeKey(r.cid, r.did, r.rkey)
  }

  /** A key is in the map exactly when some returned row has it. */
  lemma {:induction false} IdMapDomain(returned: seq<Returned>, k: string)
    ensures k in IdMap(returned) <==> exists i :: 0 <= i < |returned| && KeyOf(returned[i]) == k
    decreases |returned|
  {
    if |returned| > 0 {
      var init := returned[..|returned| - 1];
      IdMapDomain(init, k);
      if exists i :: 0 <= i < |init| && KeyOf(init[i]) == k {
        var i :| 0 <= i < |init| && KeyOf(init[i]) == k;
        assert KeyOf(returned[i]) == k;
      }
      if exists i :: 0 <= i < |returned| && KeyOf(returned[i]) == k {
        var i :| 0 <= i < |returned| && KeyOf(returned[i]) == k;
        if i < |init| {
          assert KeyOf(init[i]) == k;
        }
      }
    }
  }

  /** The id stored for a key is that of the last returned row with the key. */
  lemma {:induction false} IdMapLaterWins(returned: seq<Returned>, i: nat)
    requires i < |returned|
    requires forall j :: i < j < |returned| ==> KeyOf(returned[j]) != KeyOf(returned[i])
    ensures KeyOf(returned[i]) in IdMap(returned)
    ensures IdMap(returned)[KeyOf(returned[i])] == returned[i].id
    decreases |returned|
  {
    if i < |returned| - 1 {
      var init := returned[..|returned| - 1];
      assert KeyOf(returned[|returned| - 1]) != KeyOf(returned[i]);
      forall j | i < j < |init| ensures KeyOf(init[j]) != KeyOf(init[i]) {
        assert init[j] == returned[j];
      }
      IdMapLaterWins(init, i);
    }
  }

  /** `compositeKeyToIdMap.forEach(... set ...)`. */
  method BuildIdMap(returned: seq<Returned>) returns (m: map<string, int>)
    ensures m == IdMap(returned)
  {
    m := map[];
    for i := 0 to |returned|
      invariant m == IdMap(returned[..i])
    {
      var r := returned[i];
      assert returned[..i + 1][..i] == returned[..i];
      m := m[CompositeKey(r.cid, r.did, r.rkey) := r.id];
    }
    assert returned[..|returned|] == returned;
  }

  /** `map.get(key)` followed by `if (id)`: an absent key and the id 0 (a falsy
      bigint) both mean no child rows. */
  function FoundId(m: map<string, int>, key: string): (r: Option<int>)
    ensures r.Some? <==> key in m && m[key] != 0
    ensures r.Some? ==> r.value == m[key]
  {
    if key in m && m[key] != 0 then Some(m[key]) else None
  }

  // ---------------------------------------------------------------------------
  // Post emoji rows

  /** A row of the post_emojis table. */
  datatype PostEmojiRow = PostEmojiRow(post_id: int, emoji: string, lang: string, created_at: string)

  /** The inner `langs.forEach` for one emoji. */
  function LangRows(id: int, emoji: string, langs: seq<string>, createdAt: string): (rows: seq<PostEmojiRow>)
    ensures |rows| == |langs|
    ensures forall j :: 0 <= j < |langs| ==> rows[j] == PostEmojiRow(id, emoji, langs[j], createdAt)
  {
    seq(|langs|, j requires 0 <= j < |langs| => PostEmojiRow(id, emoji, langs[j], createdAt))
  }

  /** Both nested loops: one row per (emoji, lang) pair, emoji-major. */
  function PairRows(id: int, emojis: seq<string>, langs: seq<string>, createdAt: string): seq<PostEmojiRow>
    decreases |emojis|
  {
    if |emojis| == 0 then []
    else PairRows(id, emojis[..|emojis| - 1], langs, createdAt) + LangRows(id, emojis[|emojis| - 1], langs, createdAt)
  }

  lemma MulLeq(a: nat, b: nat, c: nat)
    requires a <= b
    ensures a * c <= b * c
  {
  }

  lemma {:induction false} PairRowsLength(id: int, emojis: seq<string>, langs: seq<string>, createdAt: string)
    ensures |PairRows(id, emojis, langs, createdAt)| == |emojis| * |langs|
    decreases |emojis|
  {
    if |emojis| > 0 {
      PairRowsLength(id, emojis[..|emojis| - 1], langs, createdAt);
      assert (|emojis| - 1) * |langs| + |langs| == |emojis| * |langs|;
    }
  }

  lemma {:induction false} PairRowsAt(id: int, emojis: seq<string>, langs: seq<string>, createdAt: string, i: nat, j: nat)
    requires i < |emojis| && j < |langs|
    ensures i * |langs| + j < |PairRows(id, emojis, langs, createdAt)|
    ensures PairRows(id, emojis, langs, createdAt)[i * |langs| + j] == PostEmojiRow(id, emojis[i], langs[j], createdAt)
    decreases |emojis|
  {
    var n, l := |emojis|, |langs|;
    var init := emojis[..n - 1];
    PairRowsLength(id, init, langs, createdAt);
    PairRowsLength(id, emojis, langs, createdAt);
    var prev := PairRows(id, init, langs, createdAt);
    if i < n - 1 {
      MulLeq(i + 1, n - 1, l);
      PairRowsAt(id, init, langs, createdAt, i, j);
      assert init[i] == emojis[i];
      assert PairRows(id, emojis, langs, createdAt)[i * l + j] == prev[i * l + j];
    } else {
      assert i * l + j == |prev| + j;
    }
  }

  /** One block of rows per emoji, in order: the emoji paired with every lang. */
  function EmojiBlocks(id: int, emojis: seq<string>, langs: seq<string>, createdAt: string): (bs: seq<seq<PostEmojiRow>>)
    ensures |bs| == |emojis|
    ensures forall i :: 0 <= i < |emojis| ==> bs[i] == LangRows(id, emojis[i], langs, createdAt)
  {
    seq(|emojis|, i requires 0 <= i < |emojis| => LangRows(id, emojis[i], langs, createdAt))
  }

  /** The pair rows are emoji-major: the block of the first emoji, then the next, and so on. */
  lemma {:induction false} PairRowsBlocks(id: int, emojis: seq<string>, langs: seq<string>, createdAt: string)
    ensures PairRows(id, emojis, langs, createdAt) == Flatten(EmojiBlocks(id, emojis, langs, createdAt))
    decreases |emojis|
  {
    if |emojis| > 0 {
      var init := emojis[..|emojis| - 1];
      var last := LangRows(id, emojis[|emojis| - 1], langs, createdAt);
      PairRowsBlocks(id, init, langs, createdAt);
      assert EmojiBlocks(id, emojis, langs, createdAt) == EmojiBlocks(id, init, langs, createdAt) + [last];
      FlattenSnoc(EmojiBlocks(id, init, langs, createdAt), last);
    }
  }

  /** |emojis| * |langs| rows, one block per emoji in order, each pairing the
      emoji with every lang in order and carrying the post's id and createdAt. */
  lemma PairRowsShape(id: int, emojis: seq<string>, langs: seq<string>, createdAt: string)
    ensures |PairRows(id, emojis, langs, createdAt)| == |emojis| * |langs|
    ensures PairRows(id, emojis, langs, createdAt) == Flatten(EmojiBlocks(id, emojis, langs, createdAt))
  {
    PairRowsLength(id, emojis, langs, createdAt);
    PairRowsBlocks(id, emojis, langs, createdAt);
  }

  /** The rows one post contributes: none without `hasEmojis` or a found id. */
  function PostChildren(p: PostData, m: map<string, int>): seq<PostEmojiRow> {
    if !p.hasEmojis then []
    else match FoundId(m, CompositeKey(p.cid, p.did, p.rkey))
      case None => []
      case Some(id) => PairRows(id, p.emojis, p.langs, p.createdAt)
  }

  lemma PostChildrenShape(p: PostData, m: map<string, int>)
    ensures var key := CompositeKey(p.cid, p.did, p.rkey);
            var c := PostChildren(p, m);
            (!p.hasEmojis || key !in m || m[key] == 0 ==> c == [])
            && (p.hasEmojis && key in m && m[key] != 0 ==>
                  |c| == |p.emojis| * |p.langs|
                  && c == Flatten(EmojiBlocks(m[key], p.emojis, p.langs, p.createdAt)))
  {
    var key := CompositeKey(p.cid, p.did, p.rkey);
    if p.hasEmojis && key in m && m[key] != 0 {
      assert PostChildren(p, m) == PairRows(m[key], p.emojis, p.langs, p.createdAt);
      PairRowsShape(m[key], p.emojis, p.langs, p.createdAt);
    }
  }

  /** `emojiInserts` after the `batch.forEach`: each post's rows in batch order. */
  function PostEmojis(batch: seq<PostData>, m: map<string, int>): seq<PostEmojiRow>
    decreases |batch|
  {
    if |batch| == 0 then []
    else PostEmojis(batch[..|batch| - 1], m) + PostChildren(batch[|batch| - 1], m)
  }

  /** The inner loop: push one row per language. */
  method PushLangs(rows: seq<PostEmojiRow>, id: int, emoji: string, langs: seq<string>, createdAt: string)
    returns (out: seq<PostEmojiRow>)
    ensures out == rows + LangRows(id, emoji, langs, createdAt)
  {
    out := rows;
    for l := 0 to |langs|
      invariant out == rows + LangRows(id, emoji, langs[..l], createdAt)
    {
      out := out + [PostEmojiRow(id, emoji, langs[l], createdAt)];
    }
    assert langs[..|langs|] == langs;
  }

  /** The middle loop over the post's emojis. */
  method PushPairs(rows: seq<PostEmojiRow>, id: int, emojis: seq<string>, langs: seq<string>, createdAt: string)
    returns (out: seq<PostEmojiRow>)
    ensures out == rows + PairRows(id, emojis, langs, createdAt)
  {
    out := rows;
    for e := 0 to |emojis|
      invariant out == rows + PairRows(id, emojis[..e], langs, createdAt)
    {
      out := PushLangs(out, id, emojis[e], langs, createdAt);
      assert emojis[..e + 1][..e] == emojis[..e];
      ConcatAssoc(rows, PairRows(id, emojis[..e], langs, createdAt), LangRows(id, emojis[e], langs, createdAt));
    }
    assert emojis[..|emojis|] == emojis;
  }

  /** The `batch.forEach` that fills `emojiInserts`. */
  method BuildPostEmojis(batch: seq<PostData>, m: map<string, int>) returns (rows: seq<PostEmojiRow>)
    ensures rows == PostEmojis(batch, m)
  {
    rows := [];
    for i := 0 to |batch|
      invariant rows == PostEmojis(batch[..i], m)
    {
      var post := batch[i];
      assert batch[..i + 1][..i] == batch[..i];
      var before := rows;
      if post.hasEmojis {
        var compositeKey := CompositeKey(post.cid, post.did, post.rkey);
        if compositeKey in m && m[compositeKey] != 0 {
          rows := PushPairs(rows, m[compositeKey], post.emojis, post.langs, post.createdAt);
        }
      }
      assert rows == before + PostChildren(post, m);
    }
    assert batch[..|batch|] == batch;
  }

  /** What `insertPosts` writes, given the rows its parent insert returns: the
      parent rows, then the post_emojis inserts in order. Zero child rows means
      no child insert. */
  method InsertPosts(batch: seq<PostData>, returned: seq<Returned>, chunkSize: nat)
    returns (parents: seq<PostRow>, chunks: seq<seq<PostEmojiRow>>)
    requires chunkSize > 0
    ensures parents == ToRows(batch)
    ensures Flatten(chunks) == PostEmojis(batch, IdMap(returned))
    ensures forall k :: 0 <= k < |chunks| ==> 1 <= |chunks[k]| <= chunkSize
    ensures |chunks| == (|PostEmojis(batch, IdMap(returned))| + chunkSize - 1) / chunkSize
  {
    parents := ToRows(batch);
    var m := BuildIdMap(returned);
    var emojiInserts := BuildPostEmojis(batch, m);
    chunks := [];
    if |emojiInserts| > 0 {
      chunks := ChunkArray(emojiInserts, chunkSize);
      ChunksCount(emojiInserts, chunkSize);
    }
  }

  // ---------------------------------------------------------------------------
  // Profile emoji rows

  /** A row of profile_display_name_emojis or profile_description_emojis. */
  datatype ProfileEmojiRow = ProfileEmojiRow(profile_id: int, emoji: string, created_at: string)

  function EmojiRows(id: int, emojis: seq<string>, createdAt: string): (rows: seq<ProfileEmojiRow>)
    ensures |rows| == |emojis|
    ensures forall i :: 0 <= i < |emojis| ==> rows[i] == ProfileEmojiRow(id, emojis[i], createdAt)
  {
    seq(|emojis|, i requires 0 <= i < |emojis| => ProfileEmojiRow(id, emojis[i], createdAt))
  }

  function ProfileKey(p: ProfileData): string {
    CompositeKey(p.cid, p.did, p.rkey)
  }

  /** The display-name rows one profile contributes. */
  function DisplayChildren(p: ProfileData, m: map<string, int>): seq<ProfileEmojiRow> {
    if !p.hasDisplayNameEmojis then []
    else match FoundId(m, ProfileKey(p))
      case None => []
      case Some(id) => EmojiRows(id, p.displayNameEmojis, p.createdAt)
  }

  /** The description rows one profile contributes. */
  function DescriptionChildren(p: ProfileData, m: map<string, int>): seq<ProfileEmojiRow> {
    if !p.hasDescriptionEmojis then []
    else match FoundId(m, ProfileKey(p))
      case None => []
      case Some(id) => EmojiRows(id, p.descriptionEmojis, p.createdAt)
  }

  function DisplayRows(batch: seq<ProfileData>, m: map<string, int>): seq<ProfileEmojiRow>
    decreases |batch|
  {
    if |batch| == 0 then []
    else DisplayRows(batch[..|batch| - 1], m) + DisplayChildren(batch[|batch| - 1], m)
  }

  function DescriptionRows(batch: seq<ProfileData>, m: map<string, int>): seq<ProfileEmojiRow>
    decreases |batch|
  {
    if |batch| == 0 then []
    else DescriptionRows(batch[..|batch| - 1], m) + DescriptionChildren(batch[|batch| - 1], m)
  }

  /** Each list is gated by its own flag: a profile gives one row per emoji of
      that list, carrying its id and createdAt, or none. */
  lemma ProfileChildrenShape(p: ProfileData, m: map<string, int>)
    ensures var key := ProfileKey(p);
            var found := key in m && m[key] != 0;
            (DisplayChildren(p, m) != [] ==> p.hasDisplayNameEmojis && found)
            && (p.hasDisplayNameEmojis && found ==>
                  DisplayChildren(p, m) == EmojiRows(m[key], p.displayNameEmojis, p.createdAt))
            && (DescriptionChildren(p, m) != [] ==> p.hasDescriptionEmojis && found)
            && (p.hasDescriptionEmojis && found ==>
                  DescriptionChildren(p, m) == EmojiRows(m[key], p.descriptionEmojis, p.createdAt))
  {
  }

  /** The display-name rows read only the key, createdAt and display-name fields. */
  predicate SameDisplay(p: ProfileData, q: ProfileData) {
    p.cid == q.cid && p.did == q.did && p.rkey == q.rkey && p.createdAt == q.createdAt
    && p.hasDisplayNameEmojis == q.hasDisplayNameEmojis && p.displayNameEmojis == q.displayNameEmojis
  }

  predicate SameDescription(p: ProfileData, q: ProfileData) {
    p.cid == q.cid && p.did == q.did && p.rkey == q.rkey && p.createdAt == q.createdAt
    && p.hasDescriptionEmojis == q.hasDescriptionEmojis && p.descriptionEmojis == q.descriptionEmojis
  }

  /** The two lists are independent: changing only the description side of any
      profile leaves the display-name rows as they were. */
  lemma {:induction false} DisplayIgnoresDescription(a: seq<ProfileData>, b: seq<ProfileData>, m: map<string, int>)
    requires |a| == |b| && forall i :: 0 <= i < |a| ==> SameDisplay(a[i], b[i])
    ensures DisplayRows(a, m) == DisplayRows(b, m)
    decreases |a|
  {
    if |a| > 0 {
      DisplayIgnoresDescription(a[..|a| - 1], b[..|b| - 1], m);
      assert SameDisplay(a[|a| - 1], b[|b| - 1]);
    }
  }

  /** And changing only the display-name side leaves the description rows. */
  lemma {:induction false} DescriptionIgnoresDisplay(a: seq<ProfileData>, b: seq<ProfileData>, m: map<string, int>)
    requires |a| == |b| && forall i :: 0 <= i < |a| ==> SameDescription(a[i], b[i])
    ensures DescriptionRows(a, m) == DescriptionRows(b, m)
    decreases |a|
  {
    if |a| > 0 {
      DescriptionIgnoresDisplay(a[..|a| - 1], b[..|b| - 1], m);
      assert SameDescription(a[|a| - 1], b[|b| - 1]);
    }
  }

  /** The `forEach` over a profile's emojis, pushing one row each. */
  method PushEmojis(rows: seq<ProfileEmojiRow>, id: int, emojis: seq<string>, createdAt: string)
    returns (out: seq<ProfileEmojiRow>)
    ensures out == rows + EmojiRows(id, emojis, createdAt)
  {
    out := rows;
    for e := 0 to |emojis|
      invariant out == rows + EmojiRows(id, emojis[..e], createdAt)
    {
      out := out + [ProfileEmojiRow(id, emojis[e], createdAt)];
    }
    assert emojis[..|emojis|] == emojis;
  }

  /** The `batch.forEach` that fills both child arrays. */
  method BuildProfileEmojis(batch: seq<ProfileData>, m: map<string, int>)
    returns (display: seq<ProfileEmojiRow>, description: seq<ProfileEmojiRow>)
    ensures display == DisplayRows(batch, m)
    ensures description == DescriptionRows(batch, m)
  {
    display, description := [], [];
    for i := 0 to |batch|
      invariant display == DisplayRows(batch[..i], m)
      invariant description == DescriptionRows(batch[..i], m)
    {
      var profile := batch[i];
      assert batch[..i + 1][..i] == batch[..i];
      var key := CompositeKey(profile.cid, profile.did, profile.rkey);
      var before1, before2 := display, description;
      if profile.hasDisplayNameEmojis && key in m && m[key] != 0 {
        display := PushEmojis(display, m[key], profile.displayNameEmojis, profile.createdAt);
      }
      if profile.hasDescriptionEmojis && key in m && m[key] != 0 {
        description := PushEmojis(description, m[key], profile.descriptionEmojis, profile.createdAt);
      }
      assert display == before1 + DisplayChildren(profile, m);
      assert description == before2 + DescriptionChildren(profile, m);
    }
    assert batch[..|batch|] == batch;
  }

  /** What `insertProfiles` writes: the parent rows, then the display-name
      inserts, then the description inserts, each list chunked on its own. */
  method InsertProfiles(batch: seq<ProfileData>, returned: seq<Returned>, chunkSize: nat)
    returns (parents: seq<ProfileRow>, displayChunks: seq<seq<ProfileEmojiRow>>,
             descriptionChunks: seq<seq<ProfileEmojiRow>>)
    requires chunkSize > 0
    ensures parents == ToProfileRows(batch)
    ensures Flatten(displayChunks) == DisplayRows(batch, IdMap(returned))
    ensures Flatten(descriptionChunks) == DescriptionRows(batch, IdMap(returned))
    ensures forall k :: 0 <= k < |displayChunks| ==> 1 <= |displayChunks[k]| <= chunkSize
    ensures forall k :: 0 <= k < |descriptionChunks| ==> 1 <= |descriptionChunks[k]| <= chunkSize
    ensures |displayChunks| == (|DisplayRows(batch, IdMap(returned))| + chunkSize - 1) / chunkSize
    ensures |descriptionChunks| == (|DescriptionRows(batch, IdMap(returned))| + chunkSize - 1) / chunkSize
  {
    parents := ToProfileRows(batch);
    var m := BuildIdMap(returned);
    var display, description := BuildProfileEmojis(batch, m);
    displayChunks := ChunkProfileRows(display, chunkSize);
    descriptionChunks := ChunkProfileRows(description, chunkSize);
  }

  /** One child list of `insertProfiles`, cut into chunks when it is not empty. */
  method ChunkProfileRows(rows: seq<ProfileEmojiRow>, chunkSize: nat) returns (chunks: seq<seq<ProfileEmojiRow>>)
    requires chunkSize > 0
    ensures Flatten(chunks) == rows
    ensures forall k :: 0 <= k < |chunks| ==> 1 <= |chunks[k]| <= chunkSize
    ensures |chunks| == (|rows| + chunkSize - 1) / chunkSize
  {
    chunks := [];
    if |rows| > 0 {
      chunks := ChunkArray(rows, chunkSize);
      ChunksCount(rows, chunkSize);
    }
  }
}
