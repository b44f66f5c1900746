/** The insert retry loop `attemptFlush`, which both batch queues share
    (src/db/postgresBatchQueue.ts and src/postgresBatchQueue.ts): the insert is
    tried until it succeeds or `MAX_FLUSH_RETRIES` attempts have failed, with an
    exponential wait after each failure but the last. */
module Retry {
  /** How the loop ends: the insert succeeded; every attempt failed (the generic
      queue then exits the process, the older one rethrows); or the loop never ran
      because the retry limit is not positive, in which case it returns normally
      without inserting anything. */
  datatype Outcome = Inserted | Exhausted | NotTried

  /** The outcome, how many times the insert was called, and the waits in ms. */
  datatype Attempts = Attempts(outcome: Outcome, calls: nat, waits: seq<nat>)

  function Pow2(k: nat): (p: nat)
    ensures p >= 1
  {
    if k == 0 then 1 else 2 * Pow2(k - 1)
  }

  /** The wait after failed attempt number `attempt`: 2^attempt * 1000 ms. */
  function Backoff(attempt: nat): nat {
    Pow2(attempt) * 1000
  }

  lemma {:induction false} BackoffIncreasing(i: nat, j: nat)
    requires i < j
    ensures Backoff(i) < Backoff(j)
    decreases j
  {
    if i < j - 1 {
      BackoffIncreasing(i, j - 1);
    }
  }

  /** The waits after failed attempts 1 .. n: Backoff(1), ..., Backoff(n). */
  function Waits(n: nat): (w: seq<nat>)
    ensures |w| == n
    ensures forall i :: 0 <= i < n ==> w[i] == Backoff(i + 1)
  {
    if n == 0 then [] else Waits(n - 1) + [Backoff(n)]
  }

  /** The index of the first successful call among calls `from` .. `limit` - 1,
      or `limit` when all of them fail; `ok(k)` says whether call k succeeds. */
  function FirstSuccess(ok: nat -> bool, from: nat, limit: nat): (k: nat)
    requires from <= limit
    ensures from <= k <= limit
    ensures forall i :: from <= i < k ==> !ok(i)
    ensures k < limit ==> ok(k)
    decreases limit - from
  {
    if from == limit then limit
    else if ok(from) then from
    else FirstSuccess(ok, from + 1, limit)
  }

  /** Reference definition of the loop's effect. */
  function Attempt(maxRetries: int, ok: nat -> bool): Attempts {
    if maxRetries <= 0 then Attempts(NotTried, 0, [])
    else
      var k := FirstSuccess(ok, 0, maxRetries);
      if k < maxRetries then Attempts(Inserted, k + 1, Waits(k))
      else Attempts(Exhausted, maxRetries, Waits(maxRetries - 1))
  }

  /** The insert is called at most `maxRetries` times and never again after it
      succeeds; every call but a successful last one failed; the waits strictly
      increase; exhaustion means every one of the `maxRetries` calls failed. */
  lemma AttemptProperties(maxRetries: int, ok: nat -> bool)
    ensures var a := Attempt(maxRetries, ok);
            (maxRetries <= 0 <==> a.outcome == NotTried)
            && (a.outcome == NotTried ==> a.calls == 0)
            && (maxRetries > 0 ==> 1 <= a.calls <= maxRetries)
            && (forall i :: 0 <= i < a.calls - 1 ==> !ok(i))
            && (a.outcome == Inserted <==> a.calls >= 1 && ok(a.calls - 1))
            && (a.outcome == Exhausted <==> maxRetries > 0 && forall i :: 0 <= i < maxRetries ==> !ok(i))
            && |a.waits| == (if a.calls == 0 then 0 else a.calls - 1)
            && forall i, j :: 0 <= i < j < |a.waits| ==> a.waits[i] < a.waits[j]
  {
    var a := Attempt(maxRetries, ok);
    forall i, j | 0 <= i < j < |a.waits| ensures a.waits[i] < a.waits[j] {
      BackoffIncreasing(i + 1, j + 1);
    }
    if maxRetries > 0 {
      var k := FirstSuccess(ok, 0, maxRetries);
      if k < maxRetries {
        assert !(forall i :: 0 <= i < maxRetries ==> !ok(i)) by { assert ok(k); }
      }
    }
  }

  /** The `while (attempt < MAX_FLUSH_RETRIES && !success)` loop. */
  method AttemptFlush(maxRetries: int, ok: nat -> bool) returns (a: Attempts)
    ensures a == Attempt(maxRetries, ok)
  {
    var attempt: nat := 0;
    var success := false;
    var waits: seq<nat> := [];
    while attempt < maxRetries && !success
      invariant maxRetries > 0 ==>
                  attempt < maxRetries && FirstSuccess(ok, 0, maxRetries) == FirstSuccess(ok, attempt, maxRetries)
      invariant maxRetries <= 0 ==> attempt == 0 && !success
      invariant forall i :: 0 <= i < attempt ==> !ok(i)
      invariant success ==> attempt < maxRetries && ok(attempt)
      invariant waits == Waits(attempt)
      decreases maxRetries - attempt, if success then 0 else 1
    {
      if ok(attempt) {
        success := true;
      } else {
        attempt := attempt + 1;
        if attempt < maxRetries {
          waits := waits + [Backoff(attempt)];
        } else {
          return Attempts(Exhausted, attempt, waits);
        }
      }
    }
    if success {
      a := Attempts(Inserted, attempt + 1, waits);
    } else {
      a := Attempts(NotTried, 0, waits);
    }
  }
}
