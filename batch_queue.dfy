/** The generic batch queue of src/db/postgresBatchQueue.ts: rows are appended
    under a mutex, a flush is requested once `batchSize` rows wait or a timer is
    armed otherwise, and a flush takes up to `batchSize` rows off the front and
    inserts them with retries; when every attempt fails the process exits. */
module BatchQueue {
  import opened Seqs
  import opened Retry

  /** `enqueue` resolves, or throws because the queue is shutting down. */
  datatype EnqueueResult = Accepted | ShuttingDown

  /** How many rows `splice(0, batchSize)` takes from a queue of `len` rows. */
  function TakeCount(batchSize: int, len: nat): (n: nat)
    ensures n <= len
    ensures n == 0 <==> batchSize <= 0 || len == 0
    ensures batchSize > 0 ==> n == if batchSize < len then batchSize else len
  {
    if batchSize <= 0 then 0 else if batchSize < len then batchSize else len
  }

  /** One flush that found rows: the batch it took and how its insert ended. */
  datatype Flush<T> = Flush(batch: seq<T>, outcome: Outcome)

  /** The observable state of a queue: the waiting rows, whether the flush timer
      is armed, the shutdown flag, the in-flight insert gauge, how many times the
      insert function has been called, every flush that found rows, every row
      accepted so far, and whether the process has exited. */
  datatype Queue<T> = Queue(
    items: seq<T>, timerArmed: bool, shuttingDown: bool, inFlight: int, calls: nat,
    flushes: seq<Flush<T>>, accepted: seq<T>, exited: bool)

  function Batches<T>(fs: seq<Flush<T>>): (bs: seq<seq<T>>)
    ensures |bs| == |fs|
    decreases |fs|
  {
    if |fs| == 0 then [] else Batches(fs[..|fs| - 1]) + [fs[|fs| - 1].batch]
  }

  /** No row is lost or duplicated: the rows taken by the flushes, in order, then
      the waiting rows are exactly the rows accepted. */
  ghost predicate Conserved<T>(st: Queue<T>) {
    Flatten(Batches(st.flushes)) + st.items == st.accepted
  }

  /** `flushQueue`: the timer is cleared; up to `batchSize` rows leave the front;
      when there are any, the gauge goes up, the insert is attempted, and the gauge
      goes down again unless the process exited. */
  function Flushed<T>(st: Queue<T>, batchSize: int, maxRetries: int, ok: nat -> bool): Queue<T> {
    var n := TakeCount(batchSize, |st.items|);
    if n == 0 then st.(timerArmed := false)
    else
      var a := Attempt(maxRetries, ok);
      st.(items := st.items[n..], timerArmed := false, calls := st.calls + a.calls,
          flushes := st.flushes + [Flush(st.items[..n], a.outcome)],
          inFlight := if a.outcome == Exhausted then st.inFlight + 1 else st.inFlight,
          exited := a.outcome == Exhausted)
  }

  /** The state after the mutex block of `enqueue` has appended a row. */
  function Pushed<T>(st: Queue<T>, data: T): Queue<T> {
    st.(items := st.items + [data], accepted := st.accepted + [data])
  }

  /** `enqueue`: rejected while shutting down; otherwise the row is appended and
      either a flush follows, once `batchSize` rows wait, or the timer is armed. */
  function Enqueued<T>(st: Queue<T>, data: T, batchSize: int, maxRetries: int, ok: nat -> bool)
    : (Queue<T>, EnqueueResult)
  {
    if st.shuttingDown then (st, ShuttingDown)
    else if |st.items| + 1 >= batchSize then (Flushed(Pushed(st, data), batchSize, maxRetries, ok), Accepted)
    else (Pushed(st, data).(timerArmed := true), Accepted)
  }

  /** `shutdown`: enqueues stop, the timer is cleared, and one flush runs. */
  function ShutDown<T>(st: Queue<T>, batchSize: int, maxRetries: int, ok: nat -> bool): Queue<T> {
    Flushed(st.(shuttingDown := true, timerArmed := false), batchSize, maxRetries, ok)
  }

  // ---------------------------------------------------------------------------
  // Properties

  lemma EnqueueWhileShuttingDown<T>(st: Queue<T>, data: T, batchSize: int, maxRetries: int, ok: nat -> bool)
    requires st.shuttingDown
    ensures Enqueued(st, data, batchSize, maxRetries, ok) == (st, ShuttingDown)
  {
  }

  /** An accepted row goes to the back; a flush is requested exactly when the
      queue has reached `batchSize`; otherwise the timer ends up armed and nothing
      is inserted. */
  lemma EnqueuePlacement<T>(st: Queue<T>, data: T, batchSize: int, maxRetries: int, ok: nat -> bool)
    requires !st.shuttingDown
    ensures var (after, r) := Enqueued(st, data, batchSize, maxRetries, ok);
            r == Accepted && after.accepted == st.accepted + [data]
            && (|st.items| + 1 >= batchSize ==> after == Flushed(Pushed(st, data), batchSize, maxRetries, ok))
            && (|st.items| + 1 < batchSize ==>
                  after.items == st.items + [data] && after.timerArmed
                  && after.flushes == st.flushes && after.calls == st.calls && after.inFlight == st.inFlight)
  {
  }

  /** A flush clears the timer and takes exactly min(batchSize, length) rows off
      the front, in order, leaving the rest in place. */
  lemma FlushTakesFront<T>(st: Queue<T>, batchSize: int, maxRetries: int, ok: nat -> bool)
    ensures var after := Flushed(st, batchSize, maxRetries, ok);
            var n := TakeCount(batchSize, |st.items|);
            !after.timerArmed && after.items == st.items[n..]
            && (n > 0 ==> after.flushes == st.flushes + [Flush(st.items[..n], Attempt(maxRetries, ok).outcome)])
            && (n == 0 ==> after.flushes == st.flushes)
            && st.items == st.items[..n] + after.items
  {
  }

  /** A flush of an empty queue never calls the insert and leaves the gauge as it was. */
  lemma FlushEmpty<T>(st: Queue<T>, batchSize: int, maxRetries: int, ok: nat -> bool)
    requires |st.items| == 0
    ensures Flushed(st, batchSize, maxRetries, ok) == st.(timerArmed := false)
  {
  }

  /** The gauge is back where it was after every flush the process survives; a
      flush that exhausts its retries ends the process with the gauge raised. */
  lemma GaugeBalanced<T>(st: Queue<T>, batchSize: int, maxRetries: int, ok: nat -> bool)
    requires !st.exited
    ensures var after := Flushed(st, batchSize, maxRetries, ok);
            (!after.exited ==> after.inFlight == st.inFlight)
            && (after.exited <==> TakeCount(batchSize, |st.items|) > 0 && Attempt(maxRetries, ok).outcome == Exhausted)
            && (after.exited ==> after.inFlight == st.inFlight + 1)
            && after.calls - st.calls <= if maxRetries > 0 then maxRetries else 0
  {
    AttemptProperties(maxRetries, ok);
  }

  /** With a retry limit that is not positive a non-empty flush calls nothing and
      its rows are gone: they leave the queue and are never inserted. */
  lemma NoRetriesDropsBatch<T>(st: Queue<T>, batchSize: int, maxRetries: int, ok: nat -> bool)
    requires maxRetries <= 0 && TakeCount(batchSize, |st.items|) > 0
    ensures var after := Flushed(st, batchSize, maxRetries, ok);
            var n := TakeCount(batchSize, |st.items|);
            after.calls == st.calls && !after.exited
            && after.flushes[|after.flushes| - 1] == Flush(st.items[..n], NotTried)
            && |after.items| < |st.items|
  {
  }

  /** Shutdown flushes once: only up to `batchSize` rows leave, so a longer queue
      keeps its remaining rows. */
  lemma ShutdownFlushesOnce<T>(st: Queue<T>, batchSize: int, maxRetries: int, ok: nat -> bool)
    ensures var after := ShutDown(st, batchSize, maxRetries, ok);
            after.shuttingDown && !after.timerArmed
            && after.items == st.items[TakeCount(batchSize, |st.items|)..]
    ensures 0 < batchSize < |st.items| ==>
              |ShutDown(st, batchSize, maxRetries, ok).items| == |st.items| - batchSize
  {
  }

  lemma {:induction false} FlattenBatchesAppend<T>(fs: seq<Flush<T>>, f: Flush<T>)
    ensures Flatten(Batches(fs + [f])) == Flatten(Batches(fs)) + f.batch
  {
    assert (fs + [f])[..|fs + [f]| - 1] == fs;
  }

  /** Every operation keeps rows conserved. */
  lemma FlushConserves<T>(st: Queue<T>, batchSize: int, maxRetries: int, ok: nat -> bool)
    requires Conserved(st)
    ensures Conserved(Flushed(st, batchSize, maxRetries, ok))
  {
    var n := TakeCount(batchSize, |st.items|);
    if n > 0 {
      var f := Flush(st.items[..n], Attempt(maxRetries, ok).outcome);
      var after := Flushed(st, batchSize, maxRetries, ok);
      assert after.flushes == st.flushes + [f] && after.accepted == st.accepted;
      assert after.items == st.items[n..];
      FlattenBatchesAppend(st.flushes, f);
      SplitAt(Flatten(Batches(st.flushes)), st.items, n);
    }
  }

  lemma EnqueueConserves<T>(st: Queue<T>, data: T, batchSize: int, maxRetries: int, ok: nat -> bool)
    requires Conserved(st)
    ensures Conserved(Enqueued(st, data, batchSize, maxRetries, ok).0)
  {
    if !st.shuttingDown {
      ConcatAssoc(Flatten(Batches(st.flushes)), st.items, [data]);
      FlushConserves(Pushed(st, data), batchSize, maxRetries, ok);
    }
  }

  lemma ShutdownConserves<T>(st: Queue<T>, batchSize: int, maxRetries: int, ok: nat -> bool)
    requires Conserved(st)
    ensures Conserved(ShutDown(st, batchSize, maxRetries, ok))
  {
    FlushConserves(st.(shuttingDown := true, timerArmed := false), batchSize, maxRetries, ok);
  }

  // ---------------------------------------------------------------------------
  // The class

  /** `PostgresBatchQueue<T>`. The insert function is given, per call that may
      flush, as `ok`: whether the k-th insert call of that flush succeeds. */
  class PostgresBatchQueue<T> {
    var queue: seq<T>
    const batchSize: int
    const maxRetries: int
    var batchTimer: bool
    var isShuttingDown: bool
    var inFlight: int
    var calls: nat
    var flushes: seq<Flush<T>>
    ghost var accepted: seq<T>
    var exited: bool

    ghost function State(): Queue<T>
      reads this
    {
      Queue(queue, batchTimer, isShuttingDown, inFlight, calls, flushes, accepted, exited)
    }

    constructor(batchSize: int, maxRetries: int)
      ensures State() == Queue([], false, false, 0, 0, [], [], false)
      ensures this.batchSize == batchSize && this.maxRetries == maxRetries
    {
      this.batchSize := batchSize;
      this.maxRetries := maxRetries;
      queue := [];
      batchTimer := false;
      isShuttingDown := false;
      inFlight := 0;
      calls := 0;
      flushes := [];
      accepted := [];
      exited := false;
    }

    method FlushQueue(ok: nat -> bool)
      requires !exited
      modifies this
      ensures State() == Flushed(old(State()), batchSize, maxRetries, ok)
    {
      ghost var st := State();
      batchTimer := false;
      var n := TakeCount(batchSize, |queue|);
      var currentBatch := queue[..n];
      queue := queue[n..];
      if |currentBatch| == 0 {
        assert st.items[n..] == st.items;
        return;
      }
      inFlight := inFlight + 1;
      var a := AttemptFlush(maxRetries, ok);
      calls := calls + a.calls;
      flushes := flushes + [Flush(currentBatch, a.outcome)];
      ghost var after := Flushed(st, batchSize, maxRetries, ok);
      assert after.items == queue && after.flushes == flushes && after.calls == calls;
      if a.outcome == Exhausted {
        exited := true;
        return;
      }
      inFlight := inFlight - 1;
    }

    method Enqueue(data: T, ok: nat -> bool) returns (r: EnqueueResult)
      requires !exited
      modifies this
      ensures (State(), r) == Enqueued(old(State()), data, batchSize, maxRetries, ok)
    {
      if isShuttingDown {
        return ShuttingDown;
      }
      queue := queue + [data];
      accepted := accepted + [data];
      var shouldFlush := false;
      if |queue| >= batchSize {
        shouldFlush := true;
      } else if !batchTimer {
        ScheduleFlush();
      }
      if shouldFlush {
        FlushQueue(ok);
      }
      r := Accepted;
    }

    method ScheduleFlush()
      modifies this
      ensures State() == old(State()).(timerArmed := true)
    {
      batchTimer := true;
    }

    /** The timer's callback. */
    method OnTimer(ok: nat -> bool)
      requires !exited && batchTimer
      modifies this
      ensures State() == Flushed(old(State()), batchSize, maxRetries, ok)
    {
      FlushQueue(ok);
    }

    method Shutdown(ok: nat -> bool)
      requires !exited
      modifies this
      ensures State() == ShutDown(old(State()), batchSize, maxRetries, ok)
    {
      isShuttingDown := true;
      batchTimer := false;
      FlushQueue(ok);
    }
  }
}
