/** The retry discipline every API call follows: up to ten GET requests; a 200
    ends the loop; a 429 (rate limited) or 502 (bad gateway) is followed by a
    sleep of `backoff_time(i)` before the next attempt; any other status is
    either fatal (the fetch returns `None`) or ignored (the loop goes on at
    once, without sleeping), depending on the caller.  If no attempt returns
    200 the loop simply ends and the variable that should hold the body was
    never assigned.

    The server is a function from the attempt number to the status it
    answers; sleeping is modelled by the list of waits, in milliseconds. */
module Retry {

  const MaxRetries: nat := 10
  const InitialDelayMs: nat := 200

  function Pow2(n: nat): (p: nat)
    ensures p >= 1
  {
    if n == 0 then 1 else 2 * Pow2(n - 1)
  }

  /** `backoff_time(i)` = 0.2 s * 2^i, in milliseconds. */
  function BackoffMs(retryCount: nat): (ms: nat)
    ensures ms >= InitialDelayMs
  {
    InitialDelayMs * Pow2(retryCount)
  }

  /** Each wait is twice the one before, starting from 200 ms. */
  lemma BackoffDoubles(retryCount: nat)
    ensures BackoffMs(0) == 200
    ensures BackoffMs(retryCount + 1) == 2 * BackoffMs(retryCount)
  {
  }

  /** Statuses that are retried after a back-off. */
  predicate IsTransient(status: int) {
    status == 429 || status == 502
  }

  /** What the loop does on a status that is neither 200 nor transient. */
  datatype Policy =
    | ReturnNoneOnError   // print it and return None (account, event registrations, nested event)
    | RetryOnError        // print it and try again at once (memberships, account pages)

  datatype Outcome =
    | Success(attempt: nat)                  // attempt `attempt` answered 200
    | Abandoned(attempt: nat, status: int)   // a fatal status ended the fetch
    | Exhausted                              // ten attempts, no 200: the body is unbound

  /** One resource on the server: the status it answers to each attempt and
      the JSON body it sends with a 200. */
  datatype Exchange<T> = Exchange(status: nat -> int, body: T)

  /** What one run of the loop did: how it ended, how many requests it sent,
      and the sleeps it took, in order. */
  datatype Trace = Trace(outcome: Outcome, requests: nat, waits: seq<nat>)

  /** The sleep after attempt `j`: its back-off when the answer was
      transient, nothing otherwise. */
  function Slept(status: nat -> int, j: nat): seq<nat> {
    if IsTransient(status(j)) then [BackoffMs(j)] else []
  }

  /** The back-offs slept after the transient answers among attempts lo..hi-1. */
  function TransientBackoffs(status: nat -> int, lo: nat, hi: nat): seq<nat>
    decreases hi - lo, status
  {
    if lo >= hi then [] else Slept(status, lo) + TransientBackoffs(status, lo + 1, hi)
  }

  /** The trace of a loop that has already sent `requests` requests and slept
      `waits`, and goes on as `rest`. */
  function Continue(requests: nat, waits: seq<nat>, rest: Trace): Trace {
    Trace(rest.outcome, requests + rest.requests, waits + rest.waits)
  }

  /** The loop from attempt `i` on.  (`status` in the decreases clause keeps
      the verifier from evaluating the whole loop whenever `i` is a literal.) */
  function RetryFrom(policy: Policy, status: nat -> int, i: nat): Trace
    requires i <= MaxRetries
    decreases MaxRetries - i, status
  {
    if i == MaxRetries then Trace(Exhausted, 0, [])
    else if status(i) == 200 then Trace(Success(i), 1, [])
    else if IsTransient(status(i)) then Continue(1, [BackoffMs(i)], RetryFrom(policy, status, i + 1))
    else if policy == ReturnNoneOnError then Trace(Abandoned(i, status(i)), 1, [])
    else Continue(1, [], RetryFrom(policy, status, i + 1))
  }

  /** The whole loop, `for i in range(max_retries)`. */
  function RetrySpec(policy: Policy, status: nat -> int): Trace {
    RetryFrom(policy, status, 0)
  }

  /** Attempt `j` neither succeeds nor ends the loop. */
  predicate Skipped(policy: Policy, status: nat -> int, j: nat) {
    status(j) != 200 && (policy == ReturnNoneOnError ==> IsTransient(status(j)))
  }

  /** The attempt the loop stops at (ten when it runs out). */
  function StopAt(o: Outcome): nat {
    match o
    case Success(k) => k
    case Abandoned(k, _) => k
    case Exhausted => MaxRetries
  }

  /** Where and why the loop from attempt `i` stops: at a 200, or at a fatal
      status (only under `ReturnNoneOnError`), or after attempt 9. */
  lemma {:induction false} RetryFromStopsAt(policy: Policy, status: nat -> int, i: nat)
    requires i <= MaxRetries
    decreases MaxRetries - i
    ensures var o := RetryFrom(policy, status, i).outcome;
            && i <= StopAt(o) <= MaxRetries
            && (o.Success? ==> o.attempt < MaxRetries && status(o.attempt) == 200)
            && (o.Abandoned? ==>
                  policy == ReturnNoneOnError && o.attempt < MaxRetries
                  && o.status == status(o.attempt) && o.status != 200 && !IsTransient(o.status))
  {
    if i < MaxRetries && Skipped(policy, status, i) {
      RetryFromSkip(policy, status, i);
      RetryFromStopsAt(policy, status, i + 1);
    }
  }

  /** Every attempt before the one the loop stops at answered something other
      than 200, and (under `ReturnNoneOnError`) something transient. */
  lemma {:induction false} RetryFromSkips(policy: Policy, status: nat -> int, i: nat)
    requires i <= MaxRetries
    decreases MaxRetries - i
    ensures forall j :: i <= j < StopAt(RetryFrom(policy, status, i).outcome) ==> Skipped(policy, status, j)
  {
    if i < MaxRetries && Skipped(policy, status, i) {
      RetryFromSkip(policy, status, i);
      RetryFromSkips(policy, status, i + 1);
      assert RetryFrom(policy, status, i).outcome == RetryFrom(policy, status, i + 1).outcome;
    } else {
      assert StopAt(RetryFrom(policy, status, i).outcome) == i;
    }
  }

  /** One attempt that neither succeeds nor ends the loop: one request and
      its back-off, if any, in front of the loop from the next attempt. */
  lemma RetryFromSkip(policy: Policy, status: nat -> int, i: nat)
    requires i < MaxRetries && Skipped(policy, status, i)
    ensures RetryFrom(policy, status, i) == Continue(1, Slept(status, i), RetryFrom(policy, status, i + 1))
  {
  }

  /** Two stretches of the loop run one after the other. */
  lemma ContinueThen(requests1: nat, waits1: seq<nat>, requests2: nat, waits2: seq<nat>, rest: Trace)
    ensures Continue(requests1, waits1, Continue(requests2, waits2, rest))
            == Continue(requests1 + requests2, waits1 + waits2, rest)
  {
    assert waits1 + (waits2 + rest.waits) == (waits1 + waits2) + rest.waits;
  }

  /** Attempts `i` to `k - 1` that neither succeed nor end the loop each add
      one request and their back-off in front of the loop from attempt `k`. */
  lemma {:induction false} RetryFromPrefix(policy: Policy, status: nat -> int, i: nat, k: nat)
    requires i <= k <= MaxRetries
    requires forall j :: i <= j < k ==> Skipped(policy, status, j)
    ensures RetryFrom(policy, status, i)
            == Continue(k - i, TransientBackoffs(status, i, k), RetryFrom(policy, status, k))
    decreases k - i
  {
    var rest := RetryFrom(policy, status, k);
    if i < k {
      assert Skipped(policy, status, i);
      RetryFromPrefix(policy, status, i + 1, k);
      RetryFromSkip(policy, status, i);
      ContinueThen(1, Slept(status, i), k - (i + 1), TransientBackoffs(status, i + 1, k), rest);
    } else {
      assert [] + rest.waits == rest.waits;
    }
  }

  /** The back-offs up to attempt `hi` grow by the one after attempt `hi`. */
  lemma {:induction false} TransientBackoffsSnoc(status: nat -> int, lo: nat, hi: nat)
    requires lo <= hi
    ensures TransientBackoffs(status, lo, hi + 1) == TransientBackoffs(status, lo, hi) + Slept(status, hi)
    decreases hi - lo
  {
    if lo < hi {
      TransientBackoffsSnoc(status, lo + 1, hi);
      assert Slept(status, lo) + (TransientBackoffs(status, lo + 1, hi) + Slept(status, hi))
          == (Slept(status, lo) + TransientBackoffs(status, lo + 1, hi)) + Slept(status, hi);
    } else {
      assert TransientBackoffs(status, hi + 1, hi + 1) == [];
      assert Slept(status, hi) + [] == [] + Slept(status, hi);
    }
  }

  /** The loop as the fetch coroutines run it. */
  method RetryLoop(policy: Policy, status: nat -> int) returns (outcome: Outcome, requests: nat, waits: seq<nat>)
    ensures Trace(outcome, requests, waits) == RetrySpec(policy, status)
    ensures requests <= MaxRetries
  {
    waits := [];
    for i := 0 to MaxRetries
      invariant RetrySpec(policy, status) == Continue(i, waits, RetryFrom(policy, status, i))
    {
      var answer := status(i);
      if answer == 200 {
        assert waits + [] == waits;
        return Success(i), i + 1, waits;
      }
      if !IsTransient(answer) && policy == ReturnNoneOnError {
        assert waits + [] == waits;
        return Abandoned(i, answer), i + 1, waits;
      }
      RetryFromSkip(policy, status, i);
      ContinueThen(i, waits, 1, Slept(status, i), RetryFrom(policy, status, i + 1));
      if IsTransient(answer) {
        waits := waits + [BackoffMs(i)];
      } else {
        assert waits + [] == waits;
      }
    }
    assert waits + [] == waits;
    return Exhausted, MaxRetries, waits;
  }

  // ---------------------------------------------------------------------
  // Properties

  function Sum(s: seq<nat>): nat {
    if s == [] then 0 else s[0] + Sum(s[1..])
  }

  /** The first attempt that does not go on ends the loop: the outcome is
      that attempt's, after one request per attempt so far and the back-offs
      of the transient answers before it. */
  lemma RetryEnd(policy: Policy, status: nat -> int, k: nat)
    requires k < MaxRetries && !Skipped(policy, status, k)
    requires forall j :: 0 <= j < k ==> Skipped(policy, status, j)
    ensures RetrySpec(policy, status)
            == Trace(if status(k) == 200 then Success(k) else Abandoned(k, status(k)), k + 1, TransientBackoffs(status, 0, k))
  {
    RetryFromPrefix(policy, status, 0, k);
    assert TransientBackoffs(status, 0, k) + [] == TransientBackoffs(status, 0, k);
  }

  /** At most ten requests are sent, and a 200 is taken at the first attempt
      that answers it, provided nothing fatal came first; the waits are the
      back-offs of the transient answers before it. */
  lemma RetryFindsFirstSuccess(policy: Policy, status: nat -> int, k: nat)
    requires k < MaxRetries && status(k) == 200
    requires forall j :: 0 <= j < k ==> Skipped(policy, status, j)
    ensures RetrySpec(policy, status) == Trace(Success(k), k + 1, TransientBackoffs(status, 0, k))
  {
    RetryEnd(policy, status, k);
  }

  /** With the "return None" policy the first non-transient failure ends the
      fetch: no further request is sent and nothing more is slept. */
  lemma FatalStatusStops(status: nat -> int, k: nat)
    requires k < MaxRetries && status(k) != 200 && !IsTransient(status(k))
    requires forall j :: 0 <= j < k ==> IsTransient(status(j))
    ensures RetrySpec(ReturnNoneOnError, status) == Trace(Abandoned(k, status(k)), k + 1, TransientBackoffs(status, 0, k))
  {
    assert forall j :: 0 <= j < k ==> Skipped(ReturnNoneOnError, status, j);
    RetryEnd(ReturnNoneOnError, status, k);
  }

  /** Ten attempts without a 200 (and, under "return None", without a fatal
      status) leave the body unbound after ten requests and every back-off. */
  lemma NoSuccessExhausts(policy: Policy, status: nat -> int)
    requires forall j :: 0 <= j < MaxRetries ==> Skipped(policy, status, j)
    ensures RetrySpec(policy, status) == Trace(Exhausted, MaxRetries, TransientBackoffs(status, 0, MaxRetries))
  {
    RetryFromPrefix(policy, status, 0, MaxRetries);
    assert TransientBackoffs(status, 0, MaxRetries) + [] == TransientBackoffs(status, 0, MaxRetries);
  }

  /** With the "retry" policy a fetch is never abandoned: it ends in a 200 or
      after ten attempts. */
  lemma RetryOnErrorNeverAbandons(status: nat -> int)
    ensures !RetrySpec(RetryOnError, status).outcome.Abandoned?
    ensures RetrySpec(RetryOnError, status).outcome.Exhausted? <==> forall j :: 0 <= j < MaxRetries ==> status(j) != 200
  {
    var o := RetrySpec(RetryOnError, status).outcome;
    RetryFromStopsAt(RetryOnError, status, 0);
    if o.Exhausted? {
      RetryFromSkips(RetryOnError, status, 0);
      forall j | 0 <= j < MaxRetries
        ensures status(j) != 200
      {
        assert Skipped(RetryOnError, status, j);
      }
    } else {
      assert o.Success? && o.attempt < MaxRetries && status(o.attempt) == 200;
    }
  }

  lemma {:induction false} TransientBackoffsAllTransient(status: nat -> int, lo: nat, hi: nat)
    requires lo <= hi
    requires forall j :: lo <= j < hi ==> IsTransient(status(j))
    ensures |TransientBackoffs(status, lo, hi)| == hi - lo
    ensures Sum(TransientBackoffs(status, lo, hi)) == InitialDelayMs * (Pow2(hi) - Pow2(lo))
    decreases hi - lo
  {
    if lo < hi {
      TransientBackoffsAllTransient(status, lo + 1, hi);
      var rest := TransientBackoffs(status, lo + 1, hi);
      assert TransientBackoffs(status, lo, hi) == [BackoffMs(lo)] + rest;
      assert ([BackoffMs(lo)] + rest)[1..] == rest;
      assert Pow2(lo + 1) == 2 * Pow2(lo);
    }
  }

  /** When every attempt is rate limited: ten requests, ten sleeps of
      0.2, 0.4, ..., 102.4 seconds, 204.6 seconds in all, and no body. */
  lemma AllTransientExhausts(policy: Policy, status: nat -> int)
    requires forall j :: 0 <= j < MaxRetries ==> IsTransient(status(j))
    ensures RetrySpec(policy, status).outcome == Exhausted
    ensures RetrySpec(policy, status).requests == MaxRetries
    ensures |RetrySpec(policy, status).waits| == MaxRetries
    ensures Sum(RetrySpec(policy, status).waits) == 204600
  {
    assert forall j :: 0 <= j < MaxRetries ==> Skipped(policy, status, j);
    NoSuccessExhausts(policy, status);
    TransientBackoffsAllTransient(status, 0, MaxRetries);
    assert Pow2(MaxRetries) == 1024;
  }
}
