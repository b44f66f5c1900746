/** The older, posts-only batch queue of src/postgresBatchQueue.ts. It differs
    from the generic one in two ways: the insert writes each PostData as a row of
    the posts table itself (the parent rows of src/db/insertFunctions.ts, with no
    emoji rows), and a batch whose every attempt failed is put back in
    front of the queue instead of ending the process. */
module LegacyQueue {
  import opened Seqs
  import opened Retry
  import opened Records
  import BatchQueue
  import opened InsertRows

  datatype Legacy = Legacy(
    items: seq<PostData>, timerArmed: bool, shuttingDown: bool, inFlight: int, calls: nat,
    flushes: seq<BatchQueue.Flush<PostData>>, accepted: seq<PostData>)

  /** The batches that left the queue for good: inserted ones, and those of a
      flush whose loop never ran. An exhausted batch went back to the queue. */
  function Gone(fs: seq<BatchQueue.Flush<PostData>>): seq<seq<PostData>>
    decreases |fs|
  {
    if |fs| == 0 then []
    else Gone(fs[..|fs| - 1]) + (if fs[|fs| - 1].outcome == Exhausted then [] else [fs[|fs| - 1].batch])
  }

  /** Every row written to the posts table, in order. */
  function InsertedRows(fs: seq<BatchQueue.Flush<PostData>>): seq<PostRow>
    decreases |fs|
  {
    if |fs| == 0 then []
    else InsertedRows(fs[..|fs| - 1]) + (if fs[|fs| - 1].outcome == Inserted then ToRows(fs[|fs| - 1].batch) else [])
  }

  /** No post is lost or duplicated, including on the failure path: the batches
      gone for good, in order, then the waiting posts are the posts accepted. */
  ghost predicate Conserved(st: Legacy) {
    Flatten(Gone(st.flushes)) + st.items == st.accepted
  }

  /** `flushQueue`: like the generic queue's, except that a batch whose retries
      are exhausted is put back with `currentBatch.concat(this.queue)`, and the
      gauge always goes down in `finally`. */
  function Flushed(st: Legacy, batchSize: int, maxRetries: int, ok: nat -> bool): Legacy {
    var n := BatchQueue.TakeCount(batchSize, |st.items|);
    if n == 0 then st.(timerArmed := false)
    else
      var batch, rest := st.items[..n], st.items[n..];
      var a := Attempt(maxRetries, ok);
      st.(items := if a.outcome == Exhausted then batch + rest else rest,
          timerArmed := false, calls := st.calls + a.calls,
          flushes := st.flushes + [BatchQueue.Flush(batch, a.outcome)])
  }

  function Pushed(st: Legacy, data: PostData): Legacy {
    st.(items := st.items + [data], accepted := st.accepted + [data])
  }

  function Enqueued(st: Legacy, data: PostData, batchSize: int, maxRetries: int, ok: nat -> bool)
    : (Legacy, BatchQueue.EnqueueResult)
  {
    if st.shuttingDown then (st, BatchQueue.ShuttingDown)
    else if |st.items| + 1 >= batchSize then (Flushed(Pushed(st, data), batchSize, maxRetries, ok), BatchQueue.Accepted)
    else (Pushed(st, data).(timerArmed := true), BatchQueue.Accepted)
  }

  function ShutDown(st: Legacy, batchSize: int, maxRetries: int, ok: nat -> bool): Legacy {
    Flushed(st.(shuttingDown := true, timerArmed := false), batchSize, maxRetries, ok)
  }

  // ---------------------------------------------------------------------------
  // Properties

  /** Enqueues are rejected once shutting down; otherwise the post is appended and
      a flush runs exactly when the queue has reached `batchSize`. */
  lemma EnqueueRule(st: Legacy, data: PostData, batchSize: int, maxRetries: int, ok: nat -> bool)
    ensures st.shuttingDown ==> Enqueued(st, data, batchSize, maxRetries, ok) == (st, BatchQueue.ShuttingDown)
    ensures !st.shuttingDown ==>
              var (after, r) := Enqueued(st, data, batchSize, maxRetries, ok);
              r == BatchQueue.Accepted && after.accepted == st.accepted + [data]
              && (|st.items| + 1 < batchSize ==>
                    after.items == st.items + [data] && after.timerArmed && after.flushes == st.flushes)
              && (|st.items| + 1 >= batchSize ==>
                    !after.timerArmed && |after.flushes| == |st.flushes| + (if batchSize > 0 then 1 else 0))
  {
  }

  /** A flush takes up to `batchSize` posts off the front in order; when every
      attempt fails the batch goes back in front of the posts still waiting, so
      the queue is as it was, and the gauge is unchanged in every case. */
  lemma FlushRequeues(st: Legacy, batchSize: int, maxRetries: int, ok: nat -> bool)
    ensures var after := Flushed(st, batchSize, maxRetries, ok);
            var n := BatchQueue.TakeCount(batchSize, |st.items|);
            !after.timerArmed && after.inFlight == st.inFlight
            && (n > 0 && Attempt(maxRetries, ok).outcome == Exhausted ==> after.items == st.items)
            && (n > 0 && Attempt(maxRetries, ok).outcome != Exhausted ==> after.items == st.items[n..])
            && (n > 0 ==> after.flushes[|after.flushes| - 1].batch == st.items[..n])
  {
    var n := BatchQueue.TakeCount(batchSize, |st.items|);
    assert st.items[..n] + st.items[n..] == st.items;
  }

  /** The posts table receives exactly the rows of the inserted batches, each
      post's text stored as `text`. */
  lemma FlushInserts(st: Legacy, batchSize: int, maxRetries: int, ok: nat -> bool)
    ensures var after := Flushed(st, batchSize, maxRetries, ok);
            var n := BatchQueue.TakeCount(batchSize, |st.items|);
            InsertedRows(after.flushes)
              == InsertedRows(st.flushes)
                 + (if n > 0 && Attempt(maxRetries, ok).outcome == Inserted then ToRows(st.items[..n]) else [])
  {
    var after := Flushed(st, batchSize, maxRetries, ok);
    var n := BatchQueue.TakeCount(batchSize, |st.items|);
    if n > 0 {
      assert after.flushes[..|after.flushes| - 1] == st.flushes;
    } else {
      assert InsertedRows(st.flushes) + [] == InsertedRows(st.flushes);
    }
  }

  lemma GoneSnoc(fs: seq<BatchQueue.Flush<PostData>>, f: BatchQueue.Flush<PostData>)
    ensures Gone(fs + [f]) == Gone(fs) + (if f.outcome == Exhausted then [] else [f.batch])
  {
    assert (fs + [f])[..|fs|] == fs;
  }

  lemma FlushConserves(st: Legacy, batchSize: int, maxRetries: int, ok: nat -> bool)
    requires Conserved(st)
    ensures Conserved(Flushed(st, batchSize, maxRetries, ok))
  {
    var n := BatchQueue.TakeCount(batchSize, |st.items|);
    if n > 0 {
      var a := Attempt(maxRetries, ok);
      var f := BatchQueue.Flush(st.items[..n], a.outcome);
      var after := Flushed(st, batchSize, maxRetries, ok);
      assert after.flushes == st.flushes + [f] && after.accepted == st.accepted;
      GoneSnoc(st.flushes, f);
      SplitAt(Flatten(Gone(st.flushes)), st.items, n);
      if a.outcome == Exhausted {
        assert after.items == st.items[..n] + st.items[n..];
        ConcatEmpty(Gone(st.flushes));
        ConcatAssoc(Flatten(Gone(st.flushes)), st.items[..n], st.items[n..]);
      } else {
        assert after.items == st.items[n..];
        FlattenSnoc(Gone(st.flushes), st.items[..n]);
      }
    }
  }

  /** No recorded flush skipped the insert loop. */
  predicate AllTried(fs: seq<BatchQueue.Flush<PostData>>) {
    forall i :: 0 <= i < |fs| ==> fs[i].outcome != NotTried
  }

  /** With a positive retry limit every flush runs the insert loop, so
      `AllTried` holds of every queue built from an empty one. */
  lemma FlushTried(st: Legacy, batchSize: int, maxRetries: int, ok: nat -> bool)
    requires maxRetries > 0 && AllTried(st.flushes)
    ensures AllTried(Flushed(st, batchSize, maxRetries, ok).flushes)
  {
    AttemptProperties(maxRetries, ok);
  }

  lemma ToRowsAppend(a: seq<PostData>, b: seq<PostData>)
    ensures ToRows(a + b) == ToRows(a) + ToRows(b)
  {
    assert |ToRows(a + b)| == |ToRows(a) + ToRows(b)|;
  }

  /** When every flush ran the insert loop, the batches gone for good are
      exactly the inserted ones: their rows, in order, are the rows written to
      the posts table. With a retry limit of at most 0 a flush instead drops its
      batch without an insert (`Gone` still counts it; `InsertedRows` does not). */
  lemma {:induction false} GoneInserted(fs: seq<BatchQueue.Flush<PostData>>)
    requires AllTried(fs)
    ensures ToRows(Flatten(Gone(fs))) == InsertedRows(fs)
    decreases |fs|
  {
    if |fs| > 0 {
      var init, f := fs[..|fs| - 1], fs[|fs| - 1];
      assert AllTried(init) by {
        forall i | 0 <= i < |init| ensures init[i].outcome != NotTried {
          assert init[i] == fs[i];
        }
      }
      GoneInserted(init);
      assert f.outcome != NotTried;
      if f.outcome == Inserted {
        assert Gone(fs) == Gone(init) + [f.batch];
        assert InsertedRows(fs) == InsertedRows(init) + ToRows(f.batch);
        FlattenSnoc(Gone(init), f.batch);
        ToRowsAppend(Flatten(Gone(init)), f.batch);
      } else {
        assert Gone(fs) == Gone(init) + [];
        assert Gone(init) + [] == Gone(init);
        assert InsertedRows(fs) == InsertedRows(init) + [];
        ConcatEmpty(InsertedRows(init));
      }
    }
  }

  lemma EnqueueConserves(st: Legacy, data: PostData, batchSize: int, maxRetries: int, ok: nat -> bool)
    requires Conserved(st)
    ensures Conserved(Enqueued(st, data, batchSize, maxRetries, ok).0)
  {
    if !st.shuttingDown {
      ConcatAssoc(Flatten(Gone(st.flushes)), st.items, [data]);
      FlushConserves(Pushed(st, data), batchSize, maxRetries, ok);
    }
  }

  /** Shutdown stops enqueues, clears the timer and flushes once, conserving posts. */
  lemma ShutdownConserves(st: Legacy, batchSize: int, maxRetries: int, ok: nat -> bool)
    requires Conserved(st)
    ensures Conserved(ShutDown(st, batchSize, maxRetries, ok))
    ensures ShutDown(st, batchSize, maxRetries, ok).shuttingDown
    ensures !ShutDown(st, batchSize, maxRetries, ok).timerArmed
  {
    FlushConserves(st.(shuttingDown := true, timerArmed := false), batchSize, maxRetries, ok);
  }

  // ---------------------------------------------------------------------------
  // The class

  /** `PostgresBatchQueue` of src/postgresBatchQueue.ts. `ok(k)` says whether the
      k-th insert transaction of a flush commits. */
  class PostgresBatchQueue {
    var queue: seq<PostData>
    const batchSize: int
    const maxRetries: int
    var batchTimer: bool
    var isShuttingDown: bool
    var inFlight: int
    var calls: nat
    var flushes: seq<BatchQueue.Flush<PostData>>
    ghost var accepted: seq<PostData>

    ghost function State(): Legacy
      reads this
    {
      Legacy(queue, batchTimer, isShuttingDown, inFlight, calls, flushes, accepted)
    }

    constructor(batchSize: int, maxRetries: int)
      ensures State() == Legacy([], false, false, 0, 0, [], [])
      ensures this.batchSize == batchSize && this.maxRetries == maxRetries
    {
      this.batchSize := batchSize;
      this.maxRetries := maxRetries;
      queue := [];
      batchTimer := false;
      isShuttingDown := false;
      inFlight := 0;
      calls := 0;
      flushes := [];
      accepted := [];
    }

    method FlushQueue(ok: nat -> bool)
      modifies this
      ensures State() == Flushed(old(State()), batchSize, maxRetries, ok)
    {
      batchTimer := false;
      var n := BatchQueue.TakeCount(batchSize, |queue|);
      var currentBatch := queue[..n];
      queue := queue[n..];
      if |currentBatch| == 0 {
        return;
      }
      inFlight := inFlight + 1;
      var a := AttemptFlush(maxRetries, ok);
      calls := calls + a.calls;
      flushes := flushes + [BatchQueue.Flush(currentBatch, a.outcome)];
      if a.outcome == Exhausted {
        queue := currentBatch + queue;
      }
      inFlight := inFlight - 1;
    }

    method Enqueue(data: PostData, ok: nat -> bool) returns (r: BatchQueue.EnqueueResult)
      modifies this
      ensures (State(), r) == Enqueued(old(State()), data, batchSize, maxRetries, ok)
    {
      if isShuttingDown {
        return BatchQueue.ShuttingDown;
      }
      queue := queue + [data];
      accepted := accepted + [data];
      var shouldFlush := false;
      if |queue| >= batchSize {
        shouldFlush := true;
      } else if !batchTimer {
        batchTimer := true;
      }
      if shouldFlush {
        FlushQueue(ok);
      }
      r := BatchQueue.Accepted;
    }

    /** The timer's callback. */
    method OnTimer(ok: nat -> bool)
      requires batchTimer
      modifies this
      ensures State() == Flushed(old(State()), batchSize, maxRetries, ok)
    {
      FlushQueue(ok);
    }

    method Shutdown(ok: nat -> bool)
      modifies this
      ensures State() == ShutDown(old(State()), batchSize, maxRetries, ok)
    {
      isShuttingDown := true;
      batchTimer := false;
      FlushQueue(ok);
    }
  }
}
