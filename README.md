# Record ingestion of emojistats-backfill

A verified model of the engine that backfills Bluesky posts and profiles, with
their emojis, into PostgreSQL. The model covers five parts:

- **Input sanitisers.** Timestamps, free text, PDS host names, the emoji ⇄
  code-point hex codec, `chunkArray` and `lowercaseObject`.
- **Stage 1.** How the PLC directory dump normalises each DID's PDS host and
  substitutes the relay for Bluesky's own hosts.
- **Stage 2.**
  - Grouping the dumped DIDs by host.
  - Sanitising and health-checking the hosts.
  - Selecting the DIDs of healthy hosts.
- **Stage 3.**
  - Decoding each repository stream from UTF-8 bytes.
  - Framing it into NDJSON lines.
  - Mapping records to `PostData` and `ProfileData`.
  - The per-DID status store (`completed`, `failed`, `retry`, `processing`) and
    the run counters.
- **Persistence.**
  - The generic `PostgresBatchQueue<T>`, which ends the process when retries
    run out.
  - The older posts-only queue, which puts a failed batch back in front.
  - Their shared retry loop with exponential backoff.
  - How `insertPosts` and `insertProfiles` build the emoji child rows from the
    rows the parent insert returns.

Code that changes state in the source is modelled as classes and loops:

| Source behaviour | Dafny class or method |
|---|---|
| Line buffer | `Framing.LineFramer` |
| Crawler | `Crawler.Crawl` |
| Batch queues | the two `PostgresBatchQueue` classes |
| Grouping, sanitising and selection loops | `Hosts` methods |
| Child-row loops | `InsertRows` methods |
| `chunkArray` and the `lowercaseObject` loops | `Generic` methods |

Each of these is proved equal to a specification function. The properties are
proved about those functions.

Foreign code is passed in as parameters:

- Date parsing with its `getFullYear` and `toISOString` (`parse`).
- `new URL` (`urlParses`).
- `JSON.parse`, the emoji regex and `batchNormalizeEmojis` (`Records.Oracles`).
- The health probe (`healthy`).
- Each insert transaction: `ok(k)` says whether the k-th call commits.

Module by module:

| Module | Models |
|---|---|
| `Wrappers` | `Option` and `Result` |
| `Seqs` | `Flatten`, `Dedupe` (the order `new Set` keeps) and `NoDup` |
| `Strings` | JavaScript's `trim`, `split`, `join`, `includes`, `startsWith` and ASCII `toLowerCase` |
| `Sanitize` | src/helpers/sanitize.ts |
| `Helpers` | src/helpers.ts |
| `Generic` | src/helpers/generic.ts and the copies of its two functions in src/helpers.ts |
| `Utf8`, `Records`, `Framing`, `Crawler` | src/stages/stage3.ts; `Utf8` is `Buffer.toString()` and the streaming decoder behind `setEncoding('utf8')` |
| `Retry` | `attemptFlush` of both queues |
| `BatchQueue` | src/db/postgresBatchQueue.ts |
| `LegacyQueue` | src/postgresBatchQueue.ts |
| `InsertRows` | src/db/insertFunctions.ts |
| `Hosts` | src/stages/stage2.ts |
| `Directory` | src/stages/stage1.ts |

## Model

| member | source | states |
|---|---|---|
| Sanitize.FixYearZeroKeepsRest | src/helpers/sanitize.ts:29-32 | A leading "0000-" becomes "0001-" and the rest of the string is unchanged. Any other string is untouched. The length is kept. |
| Sanitize.SanitizeTimestamp | src/helpers/sanitize.ts:16-60 | **Falsy input:** (default, wasWeird false, defaulted true). **Unparseable after the year-0 rewrite:** (default, true, true). **Year in [2022, 2025]:** (ISO string, false, false). **Year in [1, 294275] but outside [2022, 2025]:** (ISO string, true, false). **Any other year:** (default, true, true). Hence defaulted implies the default timestamp. |
| Sanitize.SanitizeTimestampIdempotent | src/helpers/sanitize.ts:16-60 | Take a parser that reads back the ISO strings it prints and renders the default timestamp as itself in an accepted year, in any time zone. Sanitising a sanitised timestamp again then returns the same, non-defaulted timestamp. This is proved only for timestamps that do not start with "0000-"; `YearZeroNotIdempotent` shows that the excluded case fails. |
| Sanitize.YearZeroNotIdempotent | src/helpers/sanitize.ts:29-43 | The parser is for a zone two hours east of UTC that reads back its own output. "0001-01-01T00:00:00" sanitises to "0000-12-31T22:00:00.000Z". Sanitising that again rewrites its "0000-" and gives "0001-12-31T22:00:00.000Z", so sanitising is not idempotent there. |
| Sanitize.StripControlsExact | src/helpers/sanitize.ts:67 | The control-character replace leaves none of 0x00-0x08, 0x0B-0x0C, 0x0E-0x1F or 0x7F. It keeps every other character as often as it occurred, and it leaves a string without them unchanged. |
| Sanitize.SanitizeStringProperties | src/helpers/sanitize.ts:62-68 | Falsy input gives "". Every output has no listed control character and is trimmed. Sanitising an output again changes nothing. |
| Sanitize.TrimClean | src/helpers/sanitize.ts:67 | Trimming a string free of the listed control characters leaves it free of them. |
| Sanitize.HostGrammarComplete | src/helpers/sanitize.ts:3 | Every string made of one or more dot-joined labels, optionally followed by ':' and 1-5 digits, matches the host pattern. A label is 1-63 of [A-Za-z0-9-] and neither starts nor ends with '-'. |
| Sanitize.HostGrammarSound | src/helpers/sanitize.ts:3 | Every string the host pattern accepts is such a composition of labels and an optional port. |
| Sanitize.SanitizePdsName | src/helpers/sanitize.ts:1-14 | The host is returned unchanged iff it matches the pattern and `https://<host>/` parses as a URL. A mismatch is the invalid-hostname error. |
| Helpers.LegacyAgreesWithSanitize | src/helpers.ts:49-92 | The two-field variant gives the same timestamp and `wasWeird` as the three-field one. It gives (default, false) for falsy input and (default, true) for unparseable or out-of-range input. |
| Helpers.LegacyDependsOnlyOnParse | src/helpers.ts:57-87 | The output depends only on the parsed date of the rewritten input. The `wasWeird` that the "0000-" rewrite sets is never returned. |
| Helpers.HexValueOfToHex | src/helpers.ts:95 | `toString(16)` denotes the number it renders. |
| Helpers.CodePointHexShape | src/helpers.ts:95 | Each code point renders as at least four lowercase hex digits, with no space and no '-', denoting that code point. |
| Helpers.EmojiToCodePointShape | src/helpers.ts:94-96 | Splitting the encoding on ' ' gives one group per code point, each of at least four hex digits denoting that code point. |
| Helpers.ParseIntHexOfHex | src/helpers.ts:101-102 | `parseInt(s, 16)` reads a non-empty string of hex digits as its value. |
| Helpers.CodePointRoundTrip | src/helpers.ts:94-104 | `codePointToEmoji(emojiToCodePoint(s)) == s` for every non-empty string. |
| Helpers.CodePointEmptyFails | src/helpers.ts:94-104 | The empty string encodes to "", which decodes to an error: `parseInt("")` is NaN. |
| Generic.ChunkArray | src/helpers/generic.ts:37-43 | The loop returns the chunks. They concatenate back to the input, and there are ceil(n / size) of them. |
| Generic.ChunksCount | src/helpers.ts:150-156 | There are ceil(n / size) chunks. Each holds 1 to size elements, and every chunk but the last holds exactly size. |
| Generic.ChunksConcat | src/helpers/generic.ts:37-43 | The chunks concatenated in order are the input. |
| Generic.ChunksOfEmpty | src/helpers/generic.ts:38-42 | The empty array has no chunks. |
| Generic.Lowercase | src/helpers/generic.ts:3-35 | An array gives an array of the same length. A string gives its lowercase. An object gives an object. Null, booleans, numbers and Dates are returned as they are. |
| Generic.LowercaseObject | src/helpers.ts:108-140 | The recursive procedure computes `Lowercase`. |
| Generic.LowercaseItems | src/helpers/generic.ts:4-6 | `input.map(lowercaseObject)` gives element i as `Lowercase` of input element i. |
| Generic.LowercaseFields | src/helpers/generic.ts:13-28 | The `for-in` loop over own keys builds the lowercased object. |
| Generic.AssignKeys | src/helpers/generic.ts:15-26 | The keys of the built object are the distinct assigned keys, in order of first assignment. |
| Generic.PutLookup | src/helpers/generic.ts:21-23 | After `lowercasedObj[lowerKey] = v`, that key holds v and every other key keeps the value it had. |
| Generic.AssignLookup | src/helpers/generic.ts:15-26 | Each key holds the value of its last assignment, so of colliding keys the later one wins. |
| Generic.LowercaseObjectKeys | src/helpers/generic.ts:15-26 | An object's result has the lowered keys in first-appearance order. Each key holds the last colliding field's lowercased value. |
| Generic.LowercaseIsLowered | src/helpers/generic.ts:3-35 | Every string and every key at any depth of the result is lowercase, and no key repeats. |
| Generic.LowercaseIdempotent | src/helpers.ts:108-140 | Lowercasing twice is lowercasing once. A value is left unchanged iff it is already fully lowercased. |
| Generic.LowercaseOfLowered | src/helpers/generic.ts:3-35 | A fully lowercased value is returned as it is. |
| Framing.FrameSound | src/stages/stage3.ts:61-65 | The cut lines, each followed by '\n', then the remainder are the whole text. Neither the remainder nor any line holds a '\n'. |
| Framing.FrameUnique | src/stages/stage3.ts:61-65 | Lines and a remainder free of '\n' are recovered exactly from their text. |
| Framing.FrameExtends | src/stages/stage3.ts:60-65 | Appending a chunk to the buffer and framing it continues the framing of everything before. |
| Framing.LineFramer.constructor | src/stages/stage3.ts:57 | A new framer has an empty buffer and has received and emitted nothing. |
| Framing.LineFramer.OnData | src/stages/stage3.ts:60-161 | The chunk is text that has already been decoded (see `Utf8`). After each chunk the buffer holds no '\n'. The lines emitted so far, each with its '\n', plus the buffer are everything received: nothing is lost or duplicated. |
| Framing.ChunkingIrrelevant | src/stages/stage3.ts:60-65 | The lines emitted are those of the whole decoded text, however that text was cut into pieces. Whether the text itself depends on the byte chunking is the subject of `Utf8.SplitSequenceCorrupted`. |
| Records.Classify | src/stages/stage3.ts:70-113 | A key with the post marker is a post, never a profile. It is a profile iff it has only the profile marker. |
| Records.RecordKeySegment | src/stages/stage3.ts:73-74 | The record key is the whole key when it has no '/'. Otherwise it is the text between the first '/' and the next. |
| Records.LangsProperties | src/stages/stage3.ts:78-94 | The list is ["unknown"] when absent or empty. Otherwise it is the source list without repeats, in first-occurrence order. |
| Records.MapPost | src/stages/stage3.ts:71-98 | The did, rkey, cid and text are copied. The emojis are the normalised matches, and hasEmojis holds iff there are any. The langs are as above. createdAt is the sanitised timestamp string. This is the intended value; the code as written passes the whole object (see the src/stages/stage3.ts:75-76 Findings row). |
| Records.MapProfile | src/stages/stage3.ts:114-139 | A missing displayName or description becomes "". Each emoji list comes from its own field, and each flag holds iff its list is non-empty. createdAt is the sanitised timestamp string. This is the intended value; the code as written passes the whole object (see the src/stages/stage3.ts:75-76 Findings row). |
| Records.ProfileFlagsIndependent | src/stages/stage3.ts:121-126 | Changing the description does not change the display-name emojis or flag, and the reverse. |
| Records.CreatedAtAsWrittenLosesDate | src/stages/stage3.ts:75-76 | As written, `createdAt` holds the object returned by src/helpers.ts's `sanitizeTimestamp`. Every record with a date then reaches `new Date` as "[object Object]". |
| Records.CreatedAt | src/stages/stage3.ts:75-76 | The intended value is the sanitised timestamp string: the default or the parsed ISO string. |
| Records.CreatedAtKeepsDate | src/stages/stage3.ts:75-76 | With the intended value, records whose dates parse to different ISO strings keep different `createdAt`s. |
| Records.HandleEntry | src/stages/stage3.ts:69-156 | An entry is skipped iff its key names neither kind. An emitted row is of the key's kind and carries the crawled DID. |
| Records.FirstThrow | src/stages/stage3.ts:67-159 | The entries before the returned index do not throw, and the entry at the index does. |
| Records.HandleEntriesUpToThrow | src/stages/stage3.ts:67-159 | A line's rows are those of its entries before the first throwing one. Those rows are kept, and the line gives at most one row per entry. |
| Records.HandleEntriesDid | src/stages/stage3.ts:91-130 | Every row of a line carries the crawled DID. |
| Records.ProcessLine | src/stages/stage3.ts:66-159 | A blank line gives no rows. A line JSON.parse rejects gives no rows and processing goes on. Any other line gives its entries' rows. |
| Crawler.SkipOrProcessing | src/stages/stage3.ts:34-42 | A completed or failed DID gets no write and changes no counter. Any other DID is first set to 'processing'. |
| Crawler.StreamCompleted | src/stages/stage3.ts:178-192 | A stream writes 'completed' iff it ended with no row rejected. Then 'completed' is its only write. This holds under two assumptions (see "## Left out"): each Redis reply arrives before the next stream event, and queue acceptance is fixed for the whole run. |
| Crawler.RetryNeverCompleted | src/stages/stage3.ts:99-192 | 'completed' is written only as [processing, completed], after an ended stream with every row accepted. No 'retry' write is followed by a 'completed'. Same two assumptions as `StreamCompleted`. |
| Crawler.FinalStatus | src/stages/stage3.ts:178-227 | With the intended handling: a failed request ends 'failed'; a stream error ends 'retry'; an ended stream ends 'retry' if a row was rejected and 'completed' otherwise. |
| Crawler.StreamErrorAsWritten | src/stages/stage3.ts:204-227 | As written, a stream error with every row accepted ends the DID 'failed'. It counts one successful and one unsuccessful request, one failure and one retry, and a later run skips the DID. |
| Crawler.StreamErrorCorrected | src/stages/stage3.ts:204-214 | With the intended handling the DID ends 'retry', is counted once as a retry, and a later run fetches it again. |
| Crawler.RequestsCountedOnce | src/stages/stage3.ts:54-227 | Every processed DID counts as exactly one successful or one unsuccessful request. It is unsuccessful iff the request failed, and each unsuccessful request counts one failed DID. |
| Crawler.SettledStays | src/stages/stage3.ts:32-36 | A DID completed or failed before a run keeps its status and receives no write. |
| Crawler.ResidualIgnored | src/stages/stage3.ts:166-177 | A stream's rows are those of its complete lines; the text after the last '\n' gives no rows. |
| Crawler.StepEnded | src/stages/stage3.ts:166-201 | The 'end' handler, run step by step, gives the writes and counters that `StreamWrites` and `StreamDelta` summarise. |
| Crawler.StepStreamError | src/stages/stage3.ts:204-227 | The 'error' handler followed by the outer catch gives the summarised writes and counters. |
| Crawler.Crawl.constructor | src/stages/stage3.ts:26-30 | A run starts from the given status store, with all counters at 0 and nothing written or offered. |
| Crawler.Crawl.Write | src/stages/stage3.ts:42 | A status write sets the DID's entry and appends it to the write history. |
| Crawler.Crawl.Offer | src/stages/stage3.ts:99-154 | Each row goes to its queue. A rejected row writes 'retry' and counts one retry. |
| Crawler.Crawl.HandleLines | src/stages/stage3.ts:63-161 | The lines cut from a chunk offer exactly the rows of those lines, in order. |
| Crawler.Crawl.ReadChunk | src/stages/stage3.ts:60-163 | One 'data' event, with the text the decoder releases, extends the received text by that text. It keeps the line buffer valid and offers the rows of every line completed so far. |
| Crawler.Crawl.ReadStream | src/stages/stage3.ts:56-163 | The byte chunks go through the streaming decoder. This offers exactly the rows of the complete lines of the whole body, decoded as one text. The decoder's final flush completes no line. |
| Crawler.Crawl.DecodeChunk | src/stages/stage3.ts:60-163 | One 'data' event of a stream read as UTF-8 text. The received text grows by exactly what the streaming decoder releases for the chunk, and the decoder keeps the rest. The rows of every completed line are offered. |
| Crawler.StreamEndRows | src/stages/stage3.ts:56-65 | After the last chunk, the lines emitted are those of the whole decoded body. The decoder's final flush adds no line. |
| Crawler.RowsAsWrittenAtBoundaries | src/stages/stage3.ts:60-61 | Suppose no chunk ends inside a UTF-8 sequence. Then decoding each chunk on its own, as written, gives the same rows as decoding the whole body. |
| Crawler.Crawl.RecordFailure | src/stages/stage3.ts:216-227 | The outer catch writes 'failed' and counts an unsuccessful request and a failed DID. |
| Crawler.Crawl.OnEnd | src/stages/stage3.ts:166-201 | A DID whose status reads 'retry' is left alone. Otherwise it is set to 'completed' and counted as successful. |
| Crawler.Crawl.OnError | src/stages/stage3.ts:204-213 | The stream error writes 'retry' and counts one retry. |
| Crawler.Crawl.Fetched | src/stages/stage3.ts:45-56 | A successful request is counted, then the rows of its decoded body are offered. |
| Utf8.DecodeAppend | src/stages/stage3.ts:61 | The text of p + z is the text of p followed by that of z, when p ends at a sequence boundary or z starts with a byte that continues no sequence. |
| Utf8.Cut | src/stages/stage3.ts:60-61 | The streaming decoder holds back only a sequence left open at the end: at most three bytes, with boundary-closed bytes before them. |
| Utf8.FeedSplit | src/stages/stage3.ts:60-61 | Feeding a chunk to the streaming decoder loses and invents nothing. Its output followed by the decoding of what it holds plus any later bytes is the decoding of everything. |
| Utf8.StreamDecodeExact | src/stages/stage3.ts:60-61 | This is the intended decoding. The text delivered chunk by chunk, followed by the final flush, is the decoding of the whole byte stream, for every chunking. |
| Utf8.HeldFlush | src/stages/stage3.ts:60-61 | What the decoder holds at the end flushes to "" or to one U+FFFD. It holds no '\n'. |
| Utf8.DecodeEachAtBoundaries | src/stages/stage3.ts:60-61 | Decoding each chunk on its own, as written, gives the decoding of the whole stream when no chunk ends inside a sequence. |
| Utf8.SplitSequenceCorrupted | src/stages/stage3.ts:60-61 | The bytes F0 9F 98 80 of U+1F600 are cut after the second byte. Decoded chunk by chunk they give three U+FFFD. The streaming decoder and the whole-stream decoding give the emoji. |
| Crawler.Crawl.ProcessDid | src/stages/stage3.ts:32-229 | One DID's task takes the store and counters to `Step` with the intended handling. |
| Crawler.Crawl.ProcessDids | src/stages/stage3.ts:24-232 | The tasks one after another take the state to `RunAll`. |
| Retry.BackoffIncreasing | src/db/postgresBatchQueue.ts:100 | The backoff 2^k * 1000 ms is strictly increasing in k. |
| Retry.Waits | src/postgresBatchQueue.ts:130-133 | After n failures the waits are Backoff(1), ..., Backoff(n). |
| Retry.FirstSuccess | src/db/postgresBatchQueue.ts:91-94 | The index returned is the first successful call in the range, or the range's end. |
| Retry.AttemptProperties | src/db/postgresBatchQueue.ts:87-110 | The insert is called at most maxRetries times and never after a success. **On success after k failures:** k+1 calls with k waits. **If every call fails:** maxRetries calls with maxRetries - 1 strictly increasing waits. |
| Retry.AttemptFlush | src/postgresBatchQueue.ts:102-140 | The `while (attempt < MAX && !success)` loop computes `Attempt`. |
| BatchQueue.TakeCount | src/db/postgresBatchQueue.ts:63 | `splice(0, batchSize)` takes min(batchSize, length) rows, and none for a batch size that is not positive. |
| BatchQueue.EnqueueWhileShuttingDown | src/db/postgresBatchQueue.ts:21-24 | While shutting down, enqueue is rejected and nothing changes. |
| BatchQueue.EnqueuePlacement | src/db/postgresBatchQueue.ts:26-40 | The row is appended at the back. A flush runs iff the new length is at least batchSize; otherwise the timer is armed. |
| BatchQueue.FlushTakesFront | src/db/postgresBatchQueue.ts:51-64 | The timer is cleared. Exactly min(batchSize, length) rows leave the front, in order, and the rest stay in place. |
| BatchQueue.FlushEmpty | src/db/postgresBatchQueue.ts:59-68 | A flush of an empty queue only clears the timer: no insert call, and the gauge is unchanged. |
| BatchQueue.GaugeBalanced | src/db/postgresBatchQueue.ts:70-84 | After every flush the process survives, the in-flight gauge is back where it was. Exhausted retries end the process. |
| BatchQueue.NoRetriesDropsBatch | src/db/postgresBatchQueue.ts:87-91 | With a retry limit that is not positive, a non-empty batch leaves the queue without any insert call. |
| BatchQueue.ShutdownFlushesOnce | src/db/postgresBatchQueue.ts:113-121 | Shutdown sets the flag, clears the timer and flushes once, so rows beyond batchSize stay queued. |
| BatchQueue.FlushConserves | src/db/postgresBatchQueue.ts:51-84 | The taken batches, in order, followed by the waiting rows are the rows accepted. A flush keeps this. |
| BatchQueue.EnqueueConserves | src/db/postgresBatchQueue.ts:21-40 | Enqueue keeps it. |
| BatchQueue.ShutdownConserves | src/db/postgresBatchQueue.ts:113-121 | Shutdown keeps it. |
| BatchQueue.PostgresBatchQueue.constructor | src/db/postgresBatchQueue.ts:15-19 | A new queue is empty, with no timer, not shutting down, and the gauge at 0. |
| BatchQueue.PostgresBatchQueue.FlushQueue | src/db/postgresBatchQueue.ts:51-85 | The new state is `Flushed` of the old. |
| BatchQueue.PostgresBatchQueue.Enqueue | src/db/postgresBatchQueue.ts:21-41 | The new state and the result are `Enqueued` of the old state. |
| BatchQueue.PostgresBatchQueue.ScheduleFlush | src/db/postgresBatchQueue.ts:43-49 | Only the timer becomes armed. |
| BatchQueue.PostgresBatchQueue.OnTimer | src/db/postgresBatchQueue.ts:44-48 | The timer callback flushes. |
| BatchQueue.PostgresBatchQueue.Shutdown | src/db/postgresBatchQueue.ts:113-121 | The new state is `ShutDown` of the old. |
| LegacyQueue.EnqueueRule | src/postgresBatchQueue.ts:26-46 | **Shutting down:** the enqueue is rejected and nothing changes. **Otherwise:** the post is appended. **Below batchSize:** the timer is armed. **At batchSize or above:** one flush runs. |
| LegacyQueue.FlushRequeues | src/postgresBatchQueue.ts:62-96 | Up to batchSize posts leave the front in order. When every attempt fails the batch goes back in front of the newer posts, so the queue is `batch ++ rest`. The gauge is unchanged in every case. |
| LegacyQueue.FlushInserts | src/postgresBatchQueue.ts:108-123 | The posts table receives exactly the rows of the inserted batch, with `post` stored as `text`. |
| LegacyQueue.FlushConserves | src/postgresBatchQueue.ts:75-92 | The batches that left the queue for good, followed by the waiting posts, are the posts accepted. A batch leaves for good when it is inserted, or when it is dropped without an insert because the retry limit is not positive. A flush keeps this, on the requeue path too. |
| LegacyQueue.FlushTried | src/postgresBatchQueue.ts:102-140 | With a positive retry limit every flush runs the insert loop. |
| LegacyQueue.GoneInserted | src/postgresBatchQueue.ts:102-140 | When every flush ran the insert loop, the batches gone for good are exactly the inserted ones. Their rows, in order, are the rows written to the posts table. |
| LegacyQueue.EnqueueConserves | src/postgresBatchQueue.ts:26-46 | Enqueue keeps conservation. |
| LegacyQueue.ShutdownConserves | src/postgresBatchQueue.ts:145-151 | Shutdown sets the flag, clears the timer, flushes once and keeps conservation. |
| LegacyQueue.PostgresBatchQueue.constructor | src/postgresBatchQueue.ts:14-20 | A new queue is empty, with no timer and not shutting down. |
| LegacyQueue.PostgresBatchQueue.FlushQueue | src/postgresBatchQueue.ts:62-96 | The new state is `Flushed` of the old. |
| LegacyQueue.PostgresBatchQueue.Enqueue | src/postgresBatchQueue.ts:26-46 | The new state and the result are `Enqueued` of the old state. |
| LegacyQueue.PostgresBatchQueue.OnTimer | src/postgresBatchQueue.ts:51-57 | The timer callback flushes. |
| LegacyQueue.PostgresBatchQueue.Shutdown | src/postgresBatchQueue.ts:145-151 | The new state is `ShutDown` of the old. |
| InsertRows.ToRow | src/db/insertFunctions.ts:11-19 | One parent row per post. Every field except the emojis is copied, and `post` becomes `text`. |
| InsertRows.ToRowKeepsAllButEmojis | src/db/insertFunctions.ts:11-19 | Two posts give the same row iff they agree on everything but their emojis. |
| InsertRows.ToProfileRow | src/db/insertFunctions.ts:66-75 | One parent row per profile, with its fields and flags copied. |
| InsertRows.CompositeKeyNotInjective | src/db/insertFunctions.ts:27 | `cid-did-rkey` can collide for different triples, because DIDs may contain '-'. |
| InsertRows.IdMapDomain | src/db/insertFunctions.ts:25-29 | A key is in the id map iff some returned row has it. |
| InsertRows.IdMapLaterWins | src/db/insertFunctions.ts:25-29 | A key holds the id of the last returned row with that key. |
| InsertRows.BuildIdMap | src/db/insertFunctions.ts:25-29 | The `forEach`/`set` loop builds that map. |
| InsertRows.FoundId | src/db/insertFunctions.ts:36-37 | A parent is found iff its key is mapped to a non-zero id: 0n is falsy. |
| InsertRows.PairRowsBlocks | src/db/insertFunctions.ts:38-47 | The rows the nested loops build for a post are, in order, one block per emoji, and each block pairs that emoji with every lang in order. |
| InsertRows.PairRowsShape | src/db/insertFunctions.ts:38-47 | A post gives \|emojis\| * \|langs\| rows: its emoji blocks, emoji-major. |
| InsertRows.PairRowsAt | src/db/insertFunctions.ts:38-47 | Row i * \|langs\| + j is (id, emojis[i], langs[j], createdAt). |
| InsertRows.PushLangs | src/db/insertFunctions.ts:39-46 | The inner `forEach` appends one row per language, in order. |
| InsertRows.PushPairs | src/db/insertFunctions.ts:38-47 | The nested `forEach` loops append the pair rows of one post. |
| InsertRows.PostChildrenShape | src/db/insertFunctions.ts:33-50 | A post without hasEmojis, with an unknown key or with id 0 gives no rows. Otherwise it gives \|emojis\| * \|langs\| rows, its emoji blocks under the found id with its own createdAt. |
| InsertRows.BuildPostEmojis | src/db/insertFunctions.ts:32-50 | The nested `forEach`/`push` loops build the child rows of the batch in order. |
| InsertRows.InsertPosts | src/db/insertFunctions.ts:6-59 | The parent rows are mapped from the batch. The child rows are inserted in chunks of 1 to EMOJI_BATCH_SIZE rows, ceil(n / size) of them, which concatenate to the full child list in order. |
| InsertRows.ProfileChildrenShape | src/db/insertFunctions.ts:90-118 | Display-name and description rows are each gated by their own flag and a found id. Each is one row per emoji, with the profile's createdAt. |
| InsertRows.DisplayIgnoresDescription | src/db/insertFunctions.ts:91-103 | The display-name rows do not depend on description fields. |
| InsertRows.DescriptionIgnoresDisplay | src/db/insertFunctions.ts:105-117 | The description rows do not depend on display-name fields. |
| InsertRows.PushEmojis | src/db/insertFunctions.ts:95-101 | One profile emoji row per emoji, in order, is appended. |
| InsertRows.BuildProfileEmojis | src/db/insertFunctions.ts:88-118 | The loop builds both child lists. |
| InsertRows.InsertProfiles | src/db/insertFunctions.ts:61-134 | The parent rows are mapped. Each child list is inserted in chunks of 1 to EMOJI_BATCH_SIZE rows. The chunks concatenate back to the list, and there are ceil(n / EMOJI_BATCH_SIZE) of them. |
| InsertRows.ChunkProfileRows | src/db/insertFunctions.ts:120-132 | One child list is cut into ceil(n / EMOJI_BATCH_SIZE) chunks of 1 to EMOJI_BATCH_SIZE rows that concatenate back to it. An empty list gives no chunk. |
| Hosts.GroupedSpec | src/stages/stage2.ts:24-40 | The hosts appear in order of first appearance. Each host's list is the DIDs of its lines, in file order. |
| Hosts.GroupByHost | src/stages/stage2.ts:24-40 | The grouping loop builds that grouping. |
| Hosts.GroupedKeepsLines | src/stages/stage2.ts:34-39 | As a multiset, the (did, host) pairs of the grouping are the lines. |
| Hosts.AcceptedHosts | src/stages/stage2.ts:62-69 | A host is kept iff `sanitizePDSName` accepts it. Kept plus rejected is the host count. |
| Hosts.SanitizeHosts | src/stages/stage2.ts:58-69 | The loop gives the accepted hosts without repeats and counts the rejected ones. |
| Hosts.HealthOfEntries | src/stages/stage2.ts:73-79 | Each checked host gets an entry holding its probe's answer, and no other host does. |
| Hosts.StoreHealth | src/stages/stage2.ts:73-81 | Each sanitised host's entry is set to its probe's answer. |
| Hosts.CheckHealth | src/stages/stage2.ts:58-81 | A host has a fresh health entry iff it is grouped and accepted, and the entry is its probe's answer. |
| Hosts.FreshHealthEntries | src/stages/stage2.ts:58-81 | The same facts of the health map. With distinct hosts, the rejected plus the checked hosts are all hosts. |
| Hosts.Partition | src/stages/stage2.ts:105-120 | The healthy groups are those with a true entry; the unhealthy ones are those with a false or missing entry. The two DID totals sum to the total DID count. |
| Hosts.SelectedPairs | src/stages/stage2.ts:128-132 | The selected pairs are exactly the grouped pairs whose host has a true entry. |
| Hosts.SelectAllDids | src/stages/stage2.ts:104-136 | `allDids` is the healthy groups flattened in order. Its length is `totalHealthyDIDs`, the totals sum to the DID count, and a pair is selected iff its host is healthy. |
| Hosts.SelectFromLines | src/stages/stage2.ts:24-136 | From the dump lines, a pair is selected iff it is a line and its host is healthy. |
| Hosts.RejectedHostNeverSelected | src/stages/stage2.ts:62-106 | On a fresh check, no DID of a host `sanitizePDSName` rejects is selected. |
| Directory.StripScheme | src/stages/stage1.ts:55 | The result is a suffix. 8 characters are removed iff the input starts with https://, 7 iff it starts with http:// only, and none otherwise. |
| Directory.SchemeStrippedOnce | src/stages/stage1.ts:55 | Only one scheme is removed, so `https://https://a` keeps one. |
| Directory.StripSlashes | src/stages/stage1.ts:56 | The result is a prefix that does not end in '/', and everything removed is '/'. |
| Directory.LeadingWhitespaceKeepsScheme | src/stages/stage1.ts:54-57 | Leading whitespace blocks scheme stripping, because trimming comes last. |
| Directory.TrailingWhitespaceKeepsSlashes | src/stages/stage1.ts:54-57 | Trailing whitespace blocks slash stripping. |
| Directory.NormalizeHostSpec | src/stages/stage1.ts:54-57 | The host is trimmed. It is the stripped raw string whenever that is already trimmed. |
| Directory.FinalPdsSpec | src/stages/stage1.ts:58-59 | A host containing bsky.social or bsky.network becomes the relay; any other host is kept. |
| Directory.DumpRows | src/stages/stage1.ts:44-62 | One line per row, in order. Each keeps its DID and carries the final host. |

## Left out

- **Outside services.** HTTP (axios and ky), the health probe `isPDSHealthy`, Redis, PostgreSQL, SQLite, files, readline and metrics are all left out. Their results become inputs: the fetch outcome, `healthy`, the status map and the commit oracle `ok`.
- **Health cache.** The cached health file of src/stages/stage2.ts:47-50 is not modelled. `SelectAllDids` takes any health map.
- **Concurrency.** `p-limit`, `Promise.all` and the mutex are not modelled. Each `runExclusive` block and each DID's task is an atomic step, taken in list order. A Redis reply is taken to arrive before the next event. In the source, an enqueue rejection's `.catch` runs as a microtask, and the stream's 'end' can be emitted first. The 'end' handler's `get` can then run before `set('retry')`, and 'completed' is written. Whether each queue accepts rows (`Crawler.Queues`) is fixed for a whole run. The timer is a boolean, and the wait durations are values, not delays.
- **Library functions.** JavaScript `Date` parsing, `getFullYear` and `toISOString` are the `parse` parameter, so results that depend on the time zone are not modelled. `new URL`, `JSON.parse`, `JSON.stringify`, the emoji regex and `batchNormalizeEmojis` are parameters too. The emoji-normalisation module is not part of this model.
- **Configuration.** `RELAY_URL`, `MAX_FLUSH_RETRIES`, the batch sizes, `EMOJI_BATCH_SIZE` and the timeouts are parameters. src/constants.ts does not define them as shown.
- **Database side.** The `new Date(createdAt)` conversion for the database is kept as the string it receives. The DDL, transactions and connection closing are left out.
- **Process exit.** `process.exit(1)` in the generic queue is an `exited` flag, after which the queue accepts no calls.
- Generic.Lowercase: `toLowerCase` is modelled on ASCII letters only. Other Unicode case mappings and surrogate pairs are not modelled.
- Generic.Lowercase: object keys keep assignment order. JavaScript's rule that integer-like keys come first is not modelled.
- Generic.LowercaseFields: a key that is or lowercases to "__proto__" is kept as an ordinary field. In the source `lowercasedObj[lowerKey] = …` sets the prototype instead, so that key is dropped.
- Hosts.GroupByHost: groups keep the order in which hosts first appear. `Object.keys` and `Object.entries` list integer-like host keys such as "123" first; that order is not modelled, and `Hosts.SelectAllDids` inherits it.
- Hosts.GroupByHost: groups are keyed by the host string. Hosts that collide with inherited `Object.prototype` keys such as "constructor" are not modelled.
- Helpers.CodePointRoundTrip: a Dafny `char` is a whole code point. Lone surrogates and code points above 0x10FFFF are reported as decode errors, not produced.
- Generic.ChunkArray: requires a positive size. The source's loop never ends for a size of 0 or less.
- InsertRows.InsertPosts: requires a positive size, for the same reason.
- InsertRows.InsertProfiles: requires a positive size, for the same reason.
- InsertRows.ChunkProfileRows: requires a positive size, for the same reason.
- Sanitize.SanitizeTimestampIdempotent: proved only for sanitised timestamps that do not start with "0000-". A date east of UTC near the start of year 1 renders in year 0. The second pass's rewrite then moves it a year on (`Sanitize.YearZeroNotIdempotent`).
- Crawler.Crawl.ReadStream: reads the body through the streaming decoder, which is the intended decoding (see Findings). The as-written per-chunk decoding is modelled by `Utf8.DecodeEach` and `Crawler.RowsAsWritten`, but the class does not run it.
- Utf8.Decode: only the decoding of UTF-8 bytes is modelled. Node's own buffering of chunks is not, and every chunking of the bytes is allowed.
- **Stream end.** The stream 'end' handler's check that the leftover buffer holds no record only logs, so it is not modelled.
- **JSON shapes.** A stage-2 dump line that is not valid JSON throws in the source. The model takes already-decoded lines.
- **Test script.** src/test.ts is not part of this model.

## Findings

| source | as written | input that shows it | evidently intended | confidence | as-written member | corrected member |
|---|---|---|---|---|---|---|
| src/stages/stage3.ts:75-76 | `createdAt` is set to the object that src/helpers.ts's `sanitizeTimestamp` returns. | Any post or profile with a non-empty `createdAt`. `new Date` then receives "[object Object]". | The `timestamp` field of the returned object. | not executed | Records.CreatedAtAsWrittenLosesDate | Records.CreatedAtKeepsDate |
| src/stages/stage3.ts:60-61 | The stream is requested as `responseType: 'stream'`. Each 'data' chunk is a Buffer decoded on its own with `chunk.toString()`. No `setEncoding` or string decoder joins a UTF-8 sequence cut between chunks. | A post whose text holds U+1F600 (F0 9F 98 80), with a chunk boundary after its second byte. The line still parses, but the text carries three U+FFFD instead of the emoji, and its emojis are lost. | The body decoded as one text whatever the chunking, as `res.data.setEncoding('utf8')` gives. | not executed | Utf8.SplitSequenceCorrupted | Utf8.StreamDecodeExact |
| src/stages/stage3.ts:204-227 | On a stream 'error' event the handler writes 'retry' and rejects. The outer catch then writes 'failed' and counts the DID as unsuccessful and failed. | A stream that emits 'error' after every row was accepted. The DID ends 'failed' and is never fetched again. | The DID keeps 'retry' so that a later run fetches it again. | not executed | Crawler.StreamErrorAsWritten | Crawler.StreamErrorCorrected |
