/** The per-DID driver of src/stages/stage3.ts (processDidsAndFetchData): the
    status each DID holds in the store, the fetch of its repository stream, the
    rows handed to the batch queues, and the five run counters. */
module Crawler {
  import opened Wrappers
  import opened Seqs
  import opened Records
  import opened Strings
  import opened Framing
  import Utf8

  datatype Status = Completed | Failed | Retry | Processing

  /** How the response stream finishes: an 'end' event or an 'error' event. */
  datatype Ending = Ended | StreamError

  /** The outcome of the fetch POST, an input of the model: the request itself
      fails, or it succeeds and the stream delivers its byte chunks and then ends. */
  datatype Fetch = RequestFailed | Streamed(chunks: seq<seq<Utf8.byte>>, ending: Ending)

  /** One element of the `dids` list together with what its fetch does. */
  datatype Job = Job(did: string, pds: string, fetch: Fetch)

  /** Whether each batch queue still accepts rows: `enqueue` rejects once its
      queue is shutting down. */
  datatype Queues = Queues(postOpen: bool, profileOpen: bool)

  /** The stream 'error' handler as the source writes it (it rejects the pending
      promise, so the outer catch then records the DID as failed) and as intended
      (the DID stays marked for retry). */
  datatype Handler = AsWritten | Corrected

  datatype Counters = Counters(
    successfulRequests: nat, unsuccessfulRequests: nat,
    successfulDids: nat, failedDids: nat, retryDids: nat)
  {
    function Plus(d: Counters): Counters {
      Counters(successfulRequests + d.successfulRequests, unsuccessfulRequests + d.unsuccessfulRequests,
               successfulDids + d.successfulDids, failedDids + d.failedDids, retryDids + d.retryDids)
    }
  }

  const NoCounts := Counters(0, 0, 0, 0, 0)

  function Lookup(status: map<string, Status>, did: string): Option<Status> {
    if did in status then Some(status[did]) else None
  }

  /** A DID already completed or failed is left alone. */
  predicate Settled(s: Option<Status>) {
    s == Some(Completed) || s == Some(Failed)
  }

  // ---------------------------------------------------------------------------
  // Rows of a stream

  /** The rows of a list of complete lines, line after line. */
  function LineRows(did: string, lines: seq<string>, o: Oracles): seq<Item>
    decreases |lines|
  {
    if |lines| == 0 then []
    else LineRows(did, lines[..|lines| - 1], o) + ProcessLine(did, lines[|lines| - 1], o)
  }

  lemma LineRowsStep(did: string, lines: seq<string>, j: nat, o: Oracles)
    requires j < |lines|
    ensures LineRows(did, lines[..j + 1], o) == LineRows(did, lines[..j], o) + ProcessLine(did, lines[j], o)
  {
    assert lines[..j + 1][..j] == lines[..j];
  }

  lemma {:induction false} LineRowsAppend(did: string, a: seq<string>, b: seq<string>, o: Oracles)
    ensures LineRows(did, a + b, o) == LineRows(did, a, o) + LineRows(did, b, o)
    decreases |b|
  {
    if |b| == 0 {
      assert a + b == a;
    } else {
      var b' := b[..|b| - 1];
      assert (a + b)[..|a + b| - 1] == a + b';
      LineRowsAppend(did, a, b', o);
      ConcatAssoc(LineRows(did, a, o), LineRows(did, b', o), ProcessLine(did, b[|b| - 1], o));
    }
  }

  /** The rows of a whole response body: only its complete lines are read; the
      unterminated remainder the 'end' handler inspects never becomes a row. */
  function StreamRows(did: string, body: string, o: Oracles): seq<Item> {
    LineRows(did, Frame(body).lines, o)
  }

  /** Once every chunk has gone through the decoder and the framer, the lines
      emitted are those of the whole decoded body: the decoder's final flush
      completes no line. */
  lemma StreamEndRows(did: string, chunks: seq<seq<Utf8.byte>>, lines: seq<string>, buffer: string, o: Oracles)
    requires NoneContains(lines, '\n') && '\n' !in buffer
    requires Unlines(lines) + buffer == Flatten(Utf8.DecodeChunks(chunks).0)
    ensures StreamRows(did, Utf8.Decode(Flatten(chunks)), o) == LineRows(did, lines, o)
  {
    var held := Utf8.DecodeChunks(chunks).1;
    Utf8.StreamDecodeExact(chunks);
    Utf8.HeldFlush(held);
    ConcatAssoc(Unlines(lines), buffer, Utf8.Decode(held));
    ResidualIgnored(did, lines, buffer + Utf8.Decode(held), o);
  }

  lemma ResidualIgnored(did: string, lines: seq<string>, rest: string, o: Oracles)
    requires NoneContains(lines, '\n') && '\n' !in rest
    ensures StreamRows(did, Unlines(lines) + rest, o) == LineRows(did, lines, o)
  {
    FrameUnique(lines, rest);
  }

  /** The rows a fetch hands to the queues, with the body decoded as one text,
      as a stream read with `setEncoding('utf8')` delivers it. */
  function Rows(job: Job, o: Oracles): seq<Item> {
    match job.fetch
    case RequestFailed => []
    case Streamed(chunks, _) => StreamRows(job.did, Utf8.Decode(Flatten(chunks)), o)
  }

  /** The rows as written, with `chunk.toString()` on each chunk apart. */
  function RowsAsWritten(job: Job, o: Oracles): seq<Item> {
    match job.fetch
    case RequestFailed => []
    case Streamed(chunks, _) => StreamRows(job.did, Flatten(Utf8.DecodeEach(chunks)), o)
  }

  /** The two agree when no chunk ends inside a UTF-8 sequence; a sequence split
      between chunks is corrupted only as written (Utf8.SplitSequenceCorrupted). */
  lemma RowsAsWrittenAtBoundaries(job: Job, o: Oracles)
    requires job.fetch.Streamed?
    requires forall i :: 0 <= i < |job.fetch.chunks| ==> Utf8.Closed(job.fetch.chunks[i])
    ensures RowsAsWritten(job, o) == Rows(job, o)
  {
    Utf8.DecodeEachAtBoundaries(job.fetch.chunks);
  }

  predicate Accepts(q: Queues, item: Item) {
    match item
    case PostItem(_) => q.postOpen
    case ProfileItem(_) => q.profileOpen
  }

  /** How many rows the queues reject. */
  function Rejections(items: seq<Item>, q: Queues): (n: nat)
    ensures n <= |items|
    ensures n == 0 <==> forall i :: 0 <= i < |items| ==> Accepts(q, items[i])
    decreases |items|
  {
    if |items| == 0 then 0
    else Rejections(items[..|items| - 1], q) + (if Accepts(q, items[|items| - 1]) then 0 else 1)
  }

  lemma RejectionsStep(items: seq<Item>, k: nat, q: Queues)
    requires k < |items|
    ensures Rejections(items[..k + 1], q) == Rejections(items[..k], q) + (if Accepts(q, items[k]) then 0 else 1)
  {
    assert items[..k + 1][..k] == items[..k];
  }

  lemma {:induction false} RejectionsAppend(a: seq<Item>, b: seq<Item>, q: Queues)
    ensures Rejections(a + b, q) == Rejections(a, q) + Rejections(b, q)
    decreases |b|
  {
    if |b| == 0 {
      assert a + b == a;
    } else {
      var b' := b[..|b| - 1];
      assert (a + b)[..|a + b| - 1] == a + b';
      RejectionsAppend(a, b', q);
    }
  }

  // ---------------------------------------------------------------------------
  // Status writes and counters of one DID

  function Repeat(s: Status, n: nat): (r: seq<Status>)
    ensures |r| == n && forall i :: 0 <= i < n ==> r[i] == s
  {
    if n == 0 then [] else Repeat(s, n - 1) + [s]
  }

  lemma RepeatAppend(s: Status, m: nat, n: nat)
    ensures Repeat(s, m + n) == Repeat(s, m) + Repeat(s, n)
  {
    assert |Repeat(s, m + n)| == |Repeat(s, m) + Repeat(s, n)|;
  }

  /** The status writes a DID receives, in the order the store applies them:
      'processing' first; then 'failed' when the request fails, or the writes of
      the stream. */
  function Writes(h: Handler, prior: Option<Status>, job: Job, o: Oracles, q: Queues): seq<Status> {
    if Settled(prior) then []
    else
      [Processing] +
      match job.fetch
      case RequestFailed => [Failed]
      case Streamed(_, ending) => StreamWrites(h, ending, Rejections(Rows(job, o), q))
  }

  /** The writes while and after a stream is read with `r` rows rejected: one
      'retry' per rejected row; at the end 'completed' only when the status read
      back is not 'retry'. A stream error writes 'retry', and as written the outer
      catch then writes 'failed' unless a rejection already resolved the promise. */
  function StreamWrites(h: Handler, ending: Ending, r: nat): seq<Status> {
    Repeat(Retry, r) +
    match ending
    case Ended => if r > 0 then [] else [Completed]
    case StreamError => [Retry] + (if h == AsWritten && r == 0 then [Failed] else [])
  }

  /** What one DID adds to the five counters. */
  function Delta(h: Handler, prior: Option<Status>, job: Job, o: Oracles, q: Queues): Counters {
    if Settled(prior) then NoCounts
    else
      match job.fetch
      case RequestFailed => Counters(0, 1, 0, 1, 0)
      case Streamed(_, ending) => StreamDelta(h, ending, Rejections(Rows(job, o), q))
  }

  function StreamDelta(h: Handler, ending: Ending, r: nat): Counters {
    match ending
    case Ended => Counters(1, 0, if r > 0 then 0 else 1, 0, r)
    case StreamError =>
      var caught := if h == AsWritten && r == 0 then 1 else 0;
      Counters(1, caught, 0, caught, r + 1)
  }

  /** The store after a list of writes to one key. */
  function Settle(status: map<string, Status>, did: string, ws: seq<Status>): map<string, Status> {
    if |ws| == 0 then status else status[did := ws[|ws| - 1]]
  }

  function Tagged(did: string, ws: seq<Status>): (t: seq<(string, Status)>)
    ensures |t| == |ws|
  {
    seq(|ws|, i requires 0 <= i < |ws| => (did, ws[i]))
  }

  lemma TaggedAppend(did: string, a: seq<Status>, b: seq<Status>)
    ensures Tagged(did, a + b) == Tagged(did, a) + Tagged(did, b)
  {
    assert |Tagged(did, a + b)| == |Tagged(did, a) + Tagged(did, b)|;
  }

  /** The whole observable state of a run: the status store, the counters, the
      rows offered to the queues and every status write in order. */
  datatype Run = Run(status: map<string, Status>, counts: Counters, offered: seq<Item>,
                     history: seq<(string, Status)>)

  /** One DID's task. */
  function Step(h: Handler, st: Run, job: Job, o: Oracles, q: Queues): Run {
    var prior := Lookup(st.status, job.did);
    var ws := Writes(h, prior, job, o, q);
    Run(Settle(st.status, job.did, ws), st.counts.Plus(Delta(h, prior, job, o, q)),
        st.offered + (if Settled(prior) then [] else Rows(job, o)),
        st.history + Tagged(job.did, ws))
  }

  /** The tasks, one after another. */
  function RunAll(h: Handler, st: Run, jobs: seq<Job>, o: Oracles, q: Queues): Run
    decreases |jobs|
  {
    if |jobs| == 0 then st
    else Step(h, RunAll(h, st, jobs[..|jobs| - 1], o, q), jobs[|jobs| - 1], o, q)
  }

  // ---------------------------------------------------------------------------
  // Properties of the writes

  /** A completed or failed DID gets no write and changes no counter; any other
      status is first overwritten with 'processing'. */
  lemma {:induction false} SkipOrProcessing(h: Handler, prior: Option<Status>, job: Job, o: Oracles, q: Queues)
    ensures Settled(prior) <==> Writes(h, prior, job, o, q) == []
    ensures Settled(prior) ==> Delta(h, prior, job, o, q) == NoCounts
    ensures !Settled(prior) ==> Writes(h, prior, job, o, q)[0] == Processing
  {
  }

  /** A stream's writes hold 'completed' only when it ended with no row rejected,
      and then that is its only write. */
  lemma StreamCompleted(h: Handler, ending: Ending, r: nat)
    ensures Completed in StreamWrites(h, ending, r) <==> ending == Ended && r == 0
    ensures ending == Ended && r == 0 ==> StreamWrites(h, ending, r) == [Completed]
  {
    if r > 0 {
      var ws := StreamWrites(h, ending, r);
      forall j | 0 <= j < |ws| ensures ws[j] != Completed {
        if j < r { assert ws[j] == Repeat(Retry, r)[j]; }
      }
    } else {
      assert Repeat(Retry, r) == [];
    }
  }

  /** 'completed' is written only to a DID whose stream ended with every row
      accepted, and then it is the only write after 'processing'; so no 'retry'
      write is ever followed by a 'completed' one. */
  lemma RetryNeverCompleted(h: Handler, prior: Option<Status>, job: Job, o: Oracles, q: Queues)
    ensures var ws := Writes(h, prior, job, o, q);
            Completed in ws <==> ws == [Processing, Completed]
    ensures Writes(h, prior, job, o, q) == [Processing, Completed] <==>
              !Settled(prior) && job.fetch.Streamed? && job.fetch.ending == Ended
              && Rejections(Rows(job, o), q) == 0
    ensures var ws := Writes(h, prior, job, o, q);
            forall i, j :: 0 <= i < j < |ws| && ws[i] == Retry ==> ws[j] != Completed
  {
    if !Settled(prior) && job.fetch.Streamed? {
      var r := Rejections(Rows(job, o), q);
      StreamCompleted(h, job.fetch.ending, r);
      var sw := StreamWrites(h, job.fetch.ending, r);
      assert Writes(h, prior, job, o, q) == [Processing] + sw;
      assert Completed in [Processing] + sw <==> Completed in sw;
      if [Processing] + sw == [Processing, Completed] {
        assert sw == [Completed];
      }
    }
    RetryNotBeforeCompleted(Writes(h, prior, job, o, q));
  }

  /** Writes in which 'completed' appears only as [processing, completed] never
      have a 'retry' before a 'completed'. */
  lemma RetryNotBeforeCompleted(ws: seq<Status>)
    requires Completed in ws <==> ws == [Processing, Completed]
    ensures forall i, j :: 0 <= i < j < |ws| && ws[i] == Retry ==> ws[j] != Completed
  {
  }

  /** The status a processed DID ends with, under the intended error handling. */
  lemma {:induction false} FinalStatus(prior: Option<Status>, job: Job, o: Oracles, q: Queues)
    requires !Settled(prior)
    ensures var ws := Writes(Corrected, prior, job, o, q);
            var r := Rejections(Rows(job, o), q);
            |ws| > 0 &&
            ws[|ws| - 1] == match job.fetch
                            case RequestFailed => Failed
                            case Streamed(_, Ended) => if r > 0 then Retry else Completed
                            case Streamed(_, StreamError) => Retry
  {
  }

  /** As written, a stream error with every row accepted ends the DID 'failed',
      counts it as a successful and an unsuccessful request, as a retry and as a
      failure, and a later run then never fetches it again. */
  lemma StreamErrorAsWritten(st: Run, job: Job, later: Job, o: Oracles, q: Queues)
    requires !Settled(Lookup(st.status, job.did))
    requires job.fetch.Streamed? && job.fetch.ending == StreamError
    requires Rejections(Rows(job, o), q) == 0
    requires later.did == job.did
    ensures Writes(AsWritten, Lookup(st.status, job.did), job, o, q) == [Processing, Retry, Failed]
    ensures Delta(AsWritten, Lookup(st.status, job.did), job, o, q) == Counters(1, 1, 0, 1, 1)
    ensures var after := Step(AsWritten, st, job, o, q);
            after.status[job.did] == Failed && Step(AsWritten, after, later, o, q) == after
  {
    var after := Step(AsWritten, st, job, o, q);
    assert Lookup(after.status, later.did) == Some(Failed);
    assert after.offered + [] == after.offered;
    assert after.history + Tagged(later.did, []) == after.history;
  }

  /** With the intended handling the same DID ends 'retry', is counted once, as a
      retry, and the next run fetches it again. */
  lemma StreamErrorCorrected(st: Run, job: Job, later: Job, o: Oracles, q: Queues)
    requires !Settled(Lookup(st.status, job.did))
    requires job.fetch.Streamed? && job.fetch.ending == StreamError
    requires Rejections(Rows(job, o), q) == 0
    requires later.did == job.did
    ensures Writes(Corrected, Lookup(st.status, job.did), job, o, q) == [Processing, Retry]
    ensures Delta(Corrected, Lookup(st.status, job.did), job, o, q) == Counters(1, 0, 0, 0, 1)
    ensures var after := Step(Corrected, st, job, o, q);
            after.status[job.did] == Retry
            && Writes(Corrected, Lookup(after.status, later.did), later, o, q)[0] == Processing
  {
    var after := Step(Corrected, st, job, o, q);
    assert Lookup(after.status, later.did) == Some(Retry);
  }

  /** Under the intended handling every processed DID counts as exactly one
      successful or one unsuccessful request. */
  lemma RequestsCountedOnce(prior: Option<Status>, job: Job, o: Oracles, q: Queues)
    requires !Settled(prior)
    ensures var d := Delta(Corrected, prior, job, o, q);
            d.successfulRequests + d.unsuccessfulRequests == 1
            && (d.unsuccessfulRequests == 1 <==> job.fetch == RequestFailed)
            && d.failedDids == d.unsuccessfulRequests
  {
  }

  /** A DID settled before a run keeps its status and gains no write or row. */
  lemma {:induction false} SettledStays(h: Handler, st: Run, jobs: seq<Job>, o: Oracles, q: Queues, did: string)
    requires Settled(Lookup(st.status, did))
    ensures Lookup(RunAll(h, st, jobs, o, q).status, did) == Lookup(st.status, did)
    ensures |st.history| <= |RunAll(h, st, jobs, o, q).history|
    ensures forall i :: |st.history| <= i < |RunAll(h, st, jobs, o, q).history| ==>
              RunAll(h, st, jobs, o, q).history[i].0 != did
    decreases |jobs|
  {
    if |jobs| > 0 {
      var mid := RunAll(h, st, jobs[..|jobs| - 1], o, q);
      SettledStays(h, st, jobs[..|jobs| - 1], o, q, did);
      var job := jobs[|jobs| - 1];
      if job.did == did {
        assert Writes(h, Lookup(mid.status, did), job, o, q) == [];
        assert RunAll(h, st, jobs, o, q).history == mid.history + [];
      }
    }
  }

  // ---------------------------------------------------------------------------
  // The driver

  /** The state after rows have been offered to the queues on behalf of `did`:
      every row is offered in order, and each rejected one writes 'retry' and
      counts one retry. */
  function Offered(st: Run, did: string, items: seq<Item>, q: Queues): Run {
    var r := Rejections(items, q);
    Run(if r > 0 then st.status[did := Retry] else st.status,
        st.counts.(retryDids := st.counts.retryDids + r),
        st.offered + items,
        st.history + Tagged(did, Repeat(Retry, r)))
  }

  lemma OfferedStep(st: Run, did: string, items: seq<Item>, k: nat, q: Queues)
    requires k < |items|
    ensures var mid := Offered(st, did, items[..k], q);
            var ok := mid.(offered := mid.offered + [items[k]]);
            Offered(st, did, items[..k + 1], q)
              == if Accepts(q, items[k]) then ok
                 else ok.(status := ok.status[did := Retry],
                          counts := ok.counts.(retryDids := ok.counts.retryDids + 1),
                          history := ok.history + [(did, Retry)])
  {
    var r := Rejections(items[..k], q);
    RejectionsStep(items, k, q);
    assert items[..k + 1] == items[..k] + [items[k]];
    ConcatAssoc(st.offered, items[..k], [items[k]]);
    if !Accepts(q, items[k]) {
      TaggedAppend(did, Repeat(Retry, r), [Retry]);
      ConcatAssoc(st.history, Tagged(did, Repeat(Retry, r)), [(did, Retry)]);
    }
  }

  lemma OfferedAppend(st: Run, did: string, a: seq<Item>, b: seq<Item>, q: Queues)
    ensures Offered(Offered(st, did, a, q), did, b, q) == Offered(st, did, a + b, q)
  {
    var ra, rb := Rejections(a, q), Rejections(b, q);
    RejectionsAppend(a, b, q);
    RepeatAppend(Retry, ra, rb);
    TaggedAppend(did, Repeat(Retry, ra), Repeat(Retry, rb));
    ConcatAssoc(st.history, Tagged(did, Repeat(Retry, ra)), Tagged(did, Repeat(Retry, rb)));
    ConcatAssoc(st.offered, a, b);
  }

  /** One status write. */
  function Put(st: Run, did: string, s: Status): Run {
    st.(status := st.status[did := s], history := st.history + [(did, s)])
  }

  function Count(st: Run, d: Counters): Run {
    st.(counts := st.counts.Plus(d))
  }

  /** The state once a fetched stream has been read: 'processing' written, the
      request counted as successful, every row offered. */
  function StreamRead(st: Run, did: string, items: seq<Item>, q: Queues): Run {
    Offered(Count(Put(st, did, Processing), Counters(1, 0, 0, 0, 0)), did, items, q)
  }

  /** The state a stream that was read leaves, as its writes and counters summarise it. */
  function StreamSummary(h: Handler, st: Run, did: string, items: seq<Item>, q: Queues, ending: Ending): Run {
    var ws := [Processing] + StreamWrites(h, ending, Rejections(items, q));
    Run(Settle(st.status, did, ws), st.counts.Plus(StreamDelta(h, ending, Rejections(items, q))),
        st.offered + items, st.history + Tagged(did, ws))
  }

  lemma StepSettled(h: Handler, st: Run, job: Job, o: Oracles, q: Queues)
    requires Settled(Lookup(st.status, job.did))
    ensures Step(h, st, job, o, q) == st
  {
    assert st.offered + [] == st.offered;
    assert st.history + Tagged(job.did, []) == st.history;
  }

  lemma StepRequestFailed(h: Handler, st: Run, job: Job, o: Oracles, q: Queues)
    requires !Settled(Lookup(st.status, job.did)) && job.fetch == RequestFailed
    ensures Step(h, st, job, o, q)
              == Count(Put(Put(st, job.did, Processing), job.did, Failed), Counters(0, 1, 0, 1, 0))
  {
    assert st.offered + [] == st.offered;
    TaggedAppend(job.did, [Processing], [Failed]);
  }

  lemma StepStreamed(h: Handler, st: Run, job: Job, o: Oracles, q: Queues)
    requires !Settled(Lookup(st.status, job.did)) && job.fetch.Streamed?
    ensures Step(h, st, job, o, q) == StreamSummary(h, st, job.did, Rows(job, o), q, job.fetch.ending)
  {
  }

  lemma StreamReadShape(st: Run, did: string, items: seq<Item>, q: Queues)
    ensures var r := Rejections(items, q);
            StreamRead(st, did, items, q)
              == Run(st.status[did := if r > 0 then Retry else Processing],
                     st.counts.Plus(Counters(1, 0, 0, 0, r)),
                     st.offered + items,
                     st.history + Tagged(did, [Processing] + Repeat(Retry, r)))
  {
    var r := Rejections(items, q);
    TaggedAppend(did, [Processing], Repeat(Retry, r));
    ConcatAssoc(st.history, [(did, Processing)], Tagged(did, Repeat(Retry, r)));
  }

  lemma LastWrite(h: Handler, ending: Ending, r: nat)
    ensures var ws := [Processing] + StreamWrites(h, ending, r);
            ws[|ws| - 1] == match ending
                            case Ended => if r > 0 then Retry else Completed
                            case StreamError => if h == AsWritten && r == 0 then Failed else Retry
  {
  }

  /** The 'end' handler, handler by handler, gives the summarised writes: it
      writes 'completed' unless it reads 'retry' back, which happens exactly
      when a row was rejected. */
  lemma StepEnded(h: Handler, st: Run, did: string, items: seq<Item>, q: Queues)
    ensures var s := StreamRead(st, did, items, q);
            (Lookup(s.status, did) == Some(Retry) <==> Rejections(items, q) > 0)
            && StreamSummary(h, st, did, items, q, Ended)
                 == if Lookup(s.status, did) == Some(Retry) then s
                    else Count(Put(s, did, Completed), Counters(0, 0, 1, 0, 0))
  {
    var r := Rejections(items, q);
    var ws := [Processing] + StreamWrites(h, Ended, r);
    StreamReadShape(st, did, items, q);
    LastWrite(h, Ended, r);
    if r > 0 {
      ConcatEmpty(Repeat(Retry, r));
    } else {
      assert Repeat(Retry, r) == [];
      TaggedAppend(did, [Processing], [Completed]);
      ConcatAssoc(st.history, Tagged(did, [Processing]), [(did, Completed)]);
    }
  }

  /** The 'error' handler, handler by handler, gives the summarised writes: it
      writes 'retry', and as written the rejection then reaches the outer catch,
      which writes 'failed', unless the promise is already resolved. */
  lemma StepStreamError(h: Handler, st: Run, did: string, items: seq<Item>, q: Queues)
    ensures var s := StreamRead(st, did, items, q);
            var e := Count(Put(s, did, Retry), Counters(0, 0, 0, 0, 1));
            StreamSummary(h, st, did, items, q, StreamError)
              == if h == AsWritten && Rejections(items, q) == 0
                 then Count(Put(e, did, Failed), Counters(0, 1, 0, 1, 0)) else e
  {
    StreamReadShape(st, did, items, q);
    if h == AsWritten && Rejections(items, q) == 0 {
      StreamErrorCaught(st, did, items, q);
    } else {
      StreamErrorKept(h, st, did, items, q);
    }
  }

  lemma StreamErrorKept(h: Handler, st: Run, did: string, items: seq<Item>, q: Queues)
    requires h == Corrected || Rejections(items, q) > 0
    ensures var s := StreamRead(st, did, items, q);
            StreamSummary(h, st, did, items, q, StreamError) == Count(Put(s, did, Retry), Counters(0, 0, 0, 0, 1))
  {
    var r := Rejections(items, q);
    var read := [Processing] + Repeat(Retry, r);
    var ws := [Processing] + StreamWrites(h, StreamError, r);
    assert StreamWrites(h, StreamError, r) == Repeat(Retry, r) + [Retry];
    ConcatAssoc([Processing], Repeat(Retry, r), [Retry]);
    assert ws == read + [Retry];
    StreamReadShape(st, did, items, q);
    var s := StreamRead(st, did, items, q);
    var lhs := StreamSummary(h, st, did, items, q, StreamError);
    var rhs := Count(Put(s, did, Retry), Counters(0, 0, 0, 0, 1));
    assert lhs.status == rhs.status by {
      assert Settle(st.status, did, ws) == st.status[did := Retry];
    }
    assert lhs.counts == rhs.counts;
    assert lhs.offered == rhs.offered;
    assert lhs.history == rhs.history by {
      TaggedAppend(did, read, [Retry]);
      assert Tagged(did, [Retry]) == [(did, Retry)];
      ConcatAssoc(st.history, Tagged(did, read), [(did, Retry)]);
    }
  }

  lemma StreamErrorCaught(st: Run, did: string, items: seq<Item>, q: Queues)
    requires Rejections(items, q) == 0
    ensures var s := StreamRead(st, did, items, q);
            var e := Count(Put(s, did, Retry), Counters(0, 0, 0, 0, 1));
            StreamSummary(AsWritten, st, did, items, q, StreamError)
              == Count(Put(e, did, Failed), Counters(0, 1, 0, 1, 0))
  {
    StreamReadShape(st, did, items, q);
    assert Repeat(Retry, 0) == [];
    var ws := [Processing] + StreamWrites(AsWritten, StreamError, 0);
    assert ws == [Processing, Retry, Failed];
    var s := StreamRead(st, did, items, q);
    var e := Count(Put(s, did, Retry), Counters(0, 0, 0, 0, 1));
    var lhs := StreamSummary(AsWritten, st, did, items, q, StreamError);
    var rhs := Count(Put(e, did, Failed), Counters(0, 1, 0, 1, 0));
    assert lhs.status == rhs.status by {
      assert Settle(st.status, did, ws) == st.status[did := Failed];
    }
    assert lhs.counts == rhs.counts;
    assert lhs.offered == rhs.offered;
    assert lhs.history == rhs.history by {
      assert Tagged(did, ws) == [(did, Processing), (did, Retry), (did, Failed)];
      assert Tagged(did, [Processing]) == [(did, Processing)];
    }
  }


  /** The status store, the run counters and the rows handed to the queues, as
      processDidsAndFetchData updates them; `history` records every status write. */
  class Crawl {
    var status: map<string, Status>
    var successfulRequests: nat
    var unsuccessfulRequests: nat
    var successfulDids: nat
    var failedDids: nat
    var retryDids: nat
    var offered: seq<Item>
    ghost var history: seq<(string, Status)>

    ghost function State(): Run
      reads this
    {
      Run(status, Counters(successfulRequests, unsuccessfulRequests, successfulDids, failedDids, retryDids),
          offered, history)
    }

    constructor(store: map<string, Status>)
      ensures State() == Run(store, NoCounts, [], [])
    {
      status := store;
      successfulRequests, unsuccessfulRequests, successfulDids, failedDids, retryDids := 0, 0, 0, 0, 0;
      offered := [];
      history := [];
    }

    /** `redis.set(`${did}:status`, s)`. */
    method Write(did: string, s: Status)
      modifies this
      ensures State() == Put(old(State()), did, s)
    {
      status := status[did := s];
      history := history + [(did, s)];
    }

    /** The `enqueue` calls for the rows of some lines, with their rejection handlers. */
    method Offer(did: string, items: seq<Item>, q: Queues)
      modifies this
      ensures State() == Offered(old(State()), did, items, q)
    {
      ghost var st := State();
      var k := 0;
      assert items[..0] == [];
      while k < |items|
        invariant 0 <= k <= |items|
        invariant State() == Offered(st, did, items[..k], q)
      {
        OfferedStep(st, did, items, k, q);
        offered := offered + [items[k]];
        if !Accepts(q, items[k]) {
          Write(did, Retry);
          retryDids := retryDids + 1;
        }
        k := k + 1;
      }
      assert items[..k] == items;
    }

    /** The body of the 'data' loop for the lines cut from one chunk: blank lines
        and lines that do not decode are passed over. */
    method HandleLines(did: string, lines: seq<string>, o: Oracles, q: Queues)
      modifies this
      ensures State() == Offered(old(State()), did, LineRows(did, lines, o), q)
    {
      ghost var st := State();
      var j := 0;
      assert lines[..0] == [];
      while j < |lines|
        invariant 0 <= j <= |lines|
        invariant State() == Offered(st, did, LineRows(did, lines[..j], o), q)
      {
        var rows := ProcessLine(did, lines[j], o);
        LineRowsStep(did, lines, j, o);
        OfferedAppend(st, did, LineRows(did, lines[..j], o), rows, q);
        Offer(did, rows, q);
        j := j + 1;
      }
      assert lines[..j] == lines;
    }
  
    /** One 'data' event: the framer cuts the chunk's complete lines and each
        line's rows are offered. */
    method ReadChunk(did: string, framer: LineFramer, chunk: string, o: Oracles, q: Queues, ghost p0: Run)
      requires framer.Valid()
      requires State() == Offered(p0, did, LineRows(did, framer.emitted, o), q)
      modifies this, framer
      ensures framer.Valid() && framer.received == old(framer.received) + chunk
      ensures State() == Offered(p0, did, LineRows(did, framer.emitted, o), q)
    {
      ghost var before := framer.emitted;
      ghost var mid := State();
      var lines := framer.OnData(chunk);
      assert State() == mid;
      HandleLines(did, lines, o, q);
      assert framer.emitted == before + lines;
      LineRowsAppend(did, before, lines, o);
      OfferedAppend(p0, did, LineRows(did, before, o), LineRows(did, lines, o), q);
    }

    /** One 'data' event of a stream read with `setEncoding('utf8')`: the chunk
        goes through the streaming decoder, and the text it releases through the
        line buffer. The decoder then holds the bytes of a sequence still open. */
    method DecodeChunk(did: string, framer: LineFramer, held: seq<Utf8.byte>, chunk: seq<Utf8.byte>,
                       o: Oracles, q: Queues, ghost p0: Run) returns (held': seq<Utf8.byte>)
      requires framer.Valid()
      requires State() == Offered(p0, did, LineRows(did, framer.emitted, o), q)
      modifies this, framer
      ensures framer.Valid() && framer.received == old(framer.received) + Utf8.Feed(held, chunk).0
      ensures held' == Utf8.Feed(held, chunk).1
      ensures State() == Offered(p0, did, LineRows(did, framer.emitted, o), q)
    {
      var fed := Utf8.Feed(held, chunk);
      ReadChunk(did, framer, fed.0, o, q, p0);
      held' := fed.1;
    }

    /** The 'data' handler over all the chunks of a stream read with
        `setEncoding('utf8')`: each chunk goes through the streaming decoder and
        the text it releases through the line buffer. What the decoder still
        holds at the end is flushed as at most one U+FFFD, which completes no
        line, so the rows are those of the whole decoded body. */
    method ReadStream(did: string, chunks: seq<seq<Utf8.byte>>, o: Oracles, q: Queues)
      modifies this
      ensures State() == Offered(old(State()), did, StreamRows(did, Utf8.Decode(Flatten(chunks)), o), q)
    {
      ghost var p0 := State();
      var framer := new LineFramer();
      assert Offered(p0, did, LineRows(did, framer.emitted, o), q) == p0 by {
        assert p0.offered + [] == p0.offered;
        assert p0.history + Tagged(did, Repeat(Retry, 0)) == p0.history;
      }
      var held: seq<Utf8.byte> := [];
      ghost var texts: seq<string> := [];
      var i := 0;
      while i < |chunks|
        invariant 0 <= i <= |chunks|
        invariant (texts, held) == Utf8.DecodeChunks(chunks[..i])
        invariant framer.Valid() && framer.received == Flatten(texts)
        invariant State() == Offered(p0, did, LineRows(did, framer.emitted, o), q)
      {
        ghost var out := Utf8.Feed(held, chunks[i]).0;
        assert chunks[..i + 1][..i] == chunks[..i];
        FlattenSnoc(texts, out);
        held := DecodeChunk(did, framer, held, chunks[i], o, q, p0);
        texts := texts + [out];
        i := i + 1;
      }
      assert chunks[..i] == chunks;
      StreamEndRows(did, chunks, framer.emitted, framer.buffer, o);
    }

    /** The outer catch: the DID is recorded as failed and counted. */
    method RecordFailure(did: string)
      modifies this
      ensures State() == Count(Put(old(State()), did, Failed), Counters(0, 1, 0, 1, 0))
    {
      Write(did, Failed);
      unsuccessfulRequests := unsuccessfulRequests + 1;
      failedDids := failedDids + 1;
    }

    /** The 'end' handler, after the stream's lines are read: it reads the status
        back and writes 'completed' unless it finds 'retry'. */
    method OnEnd(did: string)
      modifies this
      ensures State() == if Lookup(old(status), did) == Some(Retry) then old(State())
                         else Count(Put(old(State()), did, Completed), Counters(0, 0, 1, 0, 0))
    {
      var current := Lookup(status, did);
      if current != Some(Retry) {
        Write(did, Completed);
        successfulDids := successfulDids + 1;
      }
    }

    /** The 'error' handler with the intended handling: 'retry' is written and counted. */
    method OnError(did: string)
      modifies this
      ensures State() == Count(Put(old(State()), did, Retry), Counters(0, 0, 0, 0, 1))
    {
      Write(did, Retry);
      retryDids := retryDids + 1;
    }

    /** The successful request: counted, then its stream is read. */
    method Fetched(did: string, chunks: seq<seq<Utf8.byte>>, o: Oracles, q: Queues)
      modifies this
      ensures State() == Offered(Count(old(State()), Counters(1, 0, 0, 0, 0)), did,
                                 StreamRows(did, Utf8.Decode(Flatten(chunks)), o), q)
    {
      successfulRequests := successfulRequests + 1;
      ReadStream(did, chunks, o, q);
    }

    /** One DID's task: read the status, skip a settled DID, mark it 'processing',
        fetch, read the stream, and react to its end or error. */
    method ProcessDid(job: Job, o: Oracles, q: Queues)
      modifies this
      ensures State() == Step(Corrected, old(State()), job, o, q)
    {
      ghost var st := State();
      var did := job.did;
      var prior := Lookup(status, did);
      if prior == Some(Completed) || prior == Some(Failed) {
        StepSettled(Corrected, st, job, o, q);
        return;
      }
      Write(did, Processing);
      match job.fetch {
        case RequestFailed =>
          StepRequestFailed(Corrected, st, job, o, q);
          RecordFailure(did);
        case Streamed(chunks, ending) =>
          StepStreamed(Corrected, st, job, o, q);
          Fetched(did, chunks, o, q);
          match ending {
            case Ended =>
              StepEnded(Corrected, st, did, Rows(job, o), q);
              OnEnd(did);
            case StreamError =>
              StepStreamError(Corrected, st, did, Rows(job, o), q);
              OnError(did);
          }
      }
    }

    /** `processDidsAndFetchData`, with the tasks run one after another. */
    method ProcessDids(jobs: seq<Job>, o: Oracles, q: Queues)
      modifies this
      ensures State() == RunAll(Corrected, old(State()), jobs, o, q)
    {
      ghost var st := State();
      var n := 0;
      while n < |jobs|
        invariant 0 <= n <= |jobs|
        invariant State() == RunAll(Corrected, st, jobs[..n], o, q)
      {
        assert jobs[..n + 1][..n] == jobs[..n];
        ProcessDid(jobs[n], o, q);
        n := n + 1;
      }
      assert jobs[..n] == jobs;
    }
  }
}
