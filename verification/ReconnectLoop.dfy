/** Winning a dropped daemon back: the bounded reconnect loop, on a clock in milliseconds. */
module ReconnectLoop {

  const CONNECT_TIMEOUT_MS := 3000
  const RECONNECT_BUDGET_MS := 30000
  const RECONNECT_ATTEMPT_DELAY_MS := 500
  const MAX_DELAY_MS := 5000

  /** What the daemon would do with one attempt: when its socket answers and how, then when its greeting does. */
  datatype Attempt = Attempt(openMs: nat, opens: bool, helloMs: nat, greets: bool)

  datatype Connected = Connected(elapsed: nat, ok: bool)

  function Min(a: int, b: int): int { if a <= b then a else b }

  /** One connect: the window bounds the opening of the socket and, again, the wait for the greeting. */
  function Connect(window: nat, a: Attempt): Connected
  {
    if a.openMs >= window then Connected(window, false)
    else if !a.opens then Connected(a.openMs, false)
    else if a.helloMs >= window then Connected(a.openMs + window, false)
    else Connected(a.openMs + a.helloMs, a.greets)
  }

  function Backoff(delay: nat, failures: nat): nat { Min(delay * failures, MAX_DELAY_MS) }

  /** A pause that is cut to what is left of the budget; a timer never waits for less than a millisecond. */
  function Pause(delay: nat, failures: nat, remaining: nat): (ms: nat)
    ensures ms >= 1
  {
    var wait := Min(Backoff(delay, failures), remaining);
    if wait < 1 then 1 else wait
  }

  /** The pauses after the first `failures` failed attempts, uncut by the deadline. */
  function BackoffSum(delay: nat, failures: nat): nat
  {
    if failures == 0 then 0
    else BackoffSum(delay, failures - 1) + if delay * failures <= 5000 then delay * failures else 5000
  }

  /** The loop's end: when, after how many failed attempts, and whether the daemon is back. */
  datatype Recovery = Recovery(end: nat, failures: nat, ok: bool)

  datatype Status = Reconnecting | Reconnected | Failed

  /** When the n-th attempt starts, if all before it fail; at the deadline there is none. */
  function StartOf(start: nat, deadline: nat, delay: nat, attempts: nat -> Attempt, n: nat): nat
  {
    if n == 0 then start
    else NextStart(StartOf(start, deadline, delay, attempts, n - 1), deadline, delay, attempts, n - 1)
  }

  function NextStart(now: nat, deadline: nat, delay: nat, attempts: nat -> Attempt, n: nat): nat
  {
    if now >= deadline then now
    else
      var after := now + Tried(now, deadline, attempts, n).elapsed;
      if deadline <= after then after else after + Pause(delay, n + 1, deadline - after)
  }

  /** The n-th attempt, started before the deadline: its window is cut to what is left of the budget. */
  function Tried(now: nat, deadline: nat, attempts: nat -> Attempt, n: nat): Connected
    requires now < deadline
  {
    Connect(Min(CONNECT_TIMEOUT_MS, deadline - now), attempts(n))
  }

  /** The n-th attempt starts before the deadline and fails. */
  ghost predicate FailsAt(start: nat, deadline: nat, delay: nat, attempts: nat -> Attempt, n: nat)
  {
    var now := StartOf(start, deadline, delay, attempts, n);
    now < deadline && !Tried(now, deadline, attempts, n).ok
  }

  /** The first `n` attempts start in time and fail. */
  ghost predicate FirstFail(start: nat, deadline: nat, delay: nat, attempts: nat -> Attempt, n: nat)
  {
    forall m :: 0 <= m < n ==> FailsAt(start, deadline, delay, attempts, m)
  }

  /** How the loop ends: at the first attempt that succeeds, or at the deadline with every attempt failed. */
  ghost predicate IsOutcome(start: nat, deadline: nat, delay: nat, attempts: nat -> Attempt, r: Recovery)
  {
    var last := StartOf(start, deadline, delay, attempts, r.failures);
    && FirstFail(start, deadline, delay, attempts, r.failures)
    && (r.ok ==> last < deadline && Tried(last, deadline, attempts, r.failures).ok
                 && r.end == last + Tried(last, deadline, attempts, r.failures).elapsed)
    && (!r.ok ==> deadline <= last && r.end == last)
  }

  /**
   * Reconnect until the budget is gone. The clock moves by what the attempts and pauses take,
   * and every pause takes some.
   */
  method EnableAutoReconnect(budgetMs: nat, attemptDelayMs: nat, start: nat, attempts: nat -> Attempt)
    returns (r: Recovery, statuses: seq<Status>)
    ensures IsOutcome(start, start + budgetMs, attemptDelayMs, attempts, r)
    ensures r.ok ==> |statuses| == r.failures + 2 && statuses[r.failures + 1] == Reconnected
    ensures !r.ok ==> |statuses| == r.failures + 1 && statuses[r.failures] == Failed
    ensures forall i :: 0 <= i < |statuses| - 1 ==> statuses[i] == Reconnecting
  {
    var deadline := start + budgetMs;
    var now, attempt := start, 0;
    statuses := [];
    while now < deadline
      invariant now == StartOf(start, deadline, attemptDelayMs, attempts, attempt)
      invariant FirstFail(start, deadline, attemptDelayMs, attempts, attempt)
      invariant |statuses| == attempt && forall i :: 0 <= i < attempt ==> statuses[i] == Reconnecting
      decreases deadline - now
    {
      statuses := statuses + [Reconnecting];
      var remaining := deadline - now;
      var tried := Connect(Min(CONNECT_TIMEOUT_MS, remaining), attempts(attempt));
      if tried.ok {
        return Recovery(now + tried.elapsed, attempt, true), statuses + [Reconnected];
      }
      AnotherFailure(start, deadline, attemptDelayMs, attempts, attempt, now);
      attempt := attempt + 1;
      now := WaitAfterFailure(now + tried.elapsed, deadline, attemptDelayMs, attempt);
    }
    r, statuses := Recovery(now, attempt, false), statuses + [Failed];
  }

  /** The pause after a failed attempt; none once the deadline has passed. */
  method WaitAfterFailure(failedAt: nat, deadline: nat, attemptDelayMs: nat, attempt: nat) returns (now: nat)
    ensures now ==
            if deadline <= failedAt then failedAt else failedAt + Pause(attemptDelayMs, attempt, deadline - failedAt)
    ensures failedAt < deadline ==> failedAt < now
  {
    if deadline <= failedAt {
      return failedAt;
    }
    var wait := Min(Min(attemptDelayMs * attempt, MAX_DELAY_MS), deadline - failedAt);
    now := failedAt + if wait < 1 then 1 else wait;
  }

  lemma AnotherFailure(start: nat, deadline: nat, delay: nat, attempts: nat -> Attempt, n: nat, now: nat)
    requires now == StartOf(start, deadline, delay, attempts, n) && FirstFail(start, deadline, delay, attempts, n)
    requires now < deadline && !Tried(now, deadline, attempts, n).ok
    ensures FirstFail(start, deadline, delay, attempts, n + 1)
    ensures StartOf(start, deadline, delay, attempts, n + 1) == NextStart(now, deadline, delay, attempts, n)
  {
  }

  // ---------------------------------------------------------------- which attempt succeeds

  /** The longest an attempt may take for its socket, and again for its greeting: three seconds, or what is left. */
  function WindowOf(left: nat): nat { if left < 3000 then left else 3000 }

  /** The socket opens and a good greeting comes, each within the window. */
  predicate Succeeds(a: Attempt, left: nat)
  {
    a.opens && a.openMs < WindowOf(left) && a.greets && a.helloMs < WindowOf(left)
  }

  /** How long a failed attempt takes: up to the refusal, the bad greeting, or the end of the window it waits in. */
  function FailsAfter(a: Attempt, left: nat): nat
  {
    if a.openMs >= WindowOf(left) then WindowOf(left)
    else if !a.opens then a.openMs
    else if a.helloMs >= WindowOf(left) then a.openMs + WindowOf(left)
    else a.openMs + a.helloMs
  }

  /** An attempt started in time succeeds if and only if socket and greeting come within its window, and ends then. */
  lemma AttemptExactly(now: nat, deadline: nat, attempts: nat -> Attempt, n: nat)
    requires now < deadline
    ensures var tried, a := Tried(now, deadline, attempts, n), attempts(n);
            && (tried.ok <==> Succeeds(a, deadline - now))
            && (tried.ok ==> tried.elapsed == a.openMs + a.helloMs)
            && (!tried.ok ==> tried.elapsed == FailsAfter(a, deadline - now))
  {
  }

  /**
   * The next attempt starts when the failed one is over and its pause is through: delay times the
   * failures so far, at most five seconds, cut to what is left, and never less than a millisecond.
   */
  lemma NextAttemptExactly(start: nat, deadline: nat, delay: nat, attempts: nat -> Attempt, n: nat)
    requires var now := StartOf(start, deadline, delay, attempts, n);
             now < deadline && !Succeeds(attempts(n), deadline - now)
    ensures var now := StartOf(start, deadline, delay, attempts, n);
            var over := now + FailsAfter(attempts(n), deadline - now);
            var backoff := if delay * (n + 1) <= 5000 then delay * (n + 1) else 5000;
            var pause := if deadline - over < backoff then deadline - over else backoff;
            StartOf(start, deadline, delay, attempts, n + 1)
            == if deadline <= over then over else if pause < 1 then over + 1 else over + pause
  {
    AttemptExactly(StartOf(start, deadline, delay, attempts, n), deadline, attempts, n);
  }

  /** The first attempt to succeed ends the loop, and only an attempt that starts in time can. */
  lemma RecoversExactly(start: nat, deadline: nat, delay: nat, attempts: nat -> Attempt, r: Recovery, n: nat)
    requires IsOutcome(start, deadline, delay, attempts, r)
    ensures r.ok && r.failures == n
            <==> && FirstFail(start, deadline, delay, attempts, n)
                 && StartOf(start, deadline, delay, attempts, n) < deadline
                 && !FailsAt(start, deadline, delay, attempts, n)
  {
    assert !FailsAt(start, deadline, delay, attempts, r.failures);
    if n < r.failures {
      assert FailsAt(start, deadline, delay, attempts, n);
    }
  }

  /** The n-th attempt starts in time, and it is not one that succeeds. */
  ghost predicate Misses(start: nat, deadline: nat, delay: nat, attempts: nat -> Attempt, n: nat)
  {
    var now := StartOf(start, deadline, delay, attempts, n);
    now < deadline && !Succeeds(attempts(n), deadline - now)
  }

  /**
   * The loop ends with the n-th attempt, at its start plus the time its socket and its greeting take,
   * if and only if all before it miss and it starts in time and succeeds.
   */
  lemma EndsWithTheFirstSuccess(start: nat, deadline: nat, delay: nat, attempts: nat -> Attempt, r: Recovery, n: nat)
    requires IsOutcome(start, deadline, delay, attempts, r)
    ensures var now := StartOf(start, deadline, delay, attempts, n);
            && (r.ok && r.failures == n
                <==> && (forall m :: 0 <= m < n ==> Misses(start, deadline, delay, attempts, m))
                     && now < deadline && Succeeds(attempts(n), deadline - now))
            && (r.ok && r.failures == n ==> r.end == now + attempts(n).openMs + attempts(n).helloMs)
  {
    RecoversExactly(start, deadline, delay, attempts, r, n);
    forall m: nat
      ensures FailsAt(start, deadline, delay, attempts, m) <==> Misses(start, deadline, delay, attempts, m)
    {
      var now := StartOf(start, deadline, delay, attempts, m);
      if now < deadline {
        AttemptExactly(now, deadline, attempts, m);
      }
    }
    var now := StartOf(start, deadline, delay, attempts, n);
    if now < deadline {
      AttemptExactly(now, deadline, attempts, n);
    }
  }

  // ---------------------------------------------------------------- the bounds

  /** No attempt, and no pause, runs more than one connect window past the deadline. */
  lemma {:induction false} EndsWithinOneWindow(start: nat, deadline: nat, delay: nat, attempts: nat -> Attempt, n: nat)
    requires start <= deadline
    ensures var now := StartOf(start, deadline, delay, attempts, n);
            && now <= deadline + CONNECT_TIMEOUT_MS
            && (now < deadline ==> now + Tried(now, deadline, attempts, n).elapsed <= deadline + CONNECT_TIMEOUT_MS)
  {
    if n == 0 {
    } else {
      EndsWithinOneWindow(start, deadline, delay, attempts, n - 1);
    }
  }

  /** An attempt that starts at all starts after every pause before it in full. */
  lemma {:induction false} PausesComeFirst(start: nat, deadline: nat, delay: nat, attempts: nat -> Attempt, n: nat)
    requires StartOf(start, deadline, delay, attempts, n) < deadline
    ensures start + BackoffSum(delay, n) <= StartOf(start, deadline, delay, attempts, n)
  {
    if n == 0 {
    } else {
      var before := StartOf(start, deadline, delay, attempts, n - 1);
      assert before < deadline;
      PausesComeFirst(start, deadline, delay, attempts, n - 1);
    }
  }

  lemma {:induction false} NothingStartsEarly(start: nat, deadline: nat, delay: nat, attempts: nat -> Attempt, n: nat)
    ensures start <= StartOf(start, deadline, delay, attempts, n)
  {
    if n == 0 {
    } else {
      NothingStartsEarly(start, deadline, delay, attempts, n - 1);
    }
  }

  /**
   * Whatever the daemon does: the loop is over within the budget and one connect window, the
   * pauses between its failed attempts fit into the budget, and it gives up only once the budget
   * is gone.
   */
  lemma RecoveryIsBounded(start: nat, budgetMs: nat, delay: nat, attempts: nat -> Attempt, r: Recovery)
    requires IsOutcome(start, start + budgetMs, delay, attempts, r)
    ensures start <= r.end <= start + budgetMs + CONNECT_TIMEOUT_MS
    ensures r.failures > 0 ==> BackoffSum(delay, r.failures - 1) < budgetMs
    ensures !r.ok ==> start + budgetMs <= r.end
  {
    NothingStartsEarly(start, start + budgetMs, delay, attempts, r.failures);
    EndsWithinOneWindow(start, start + budgetMs, delay, attempts, r.failures);
    if r.failures > 0 {
      assert FailsAt(start, start + budgetMs, delay, attempts, r.failures - 1);
      PausesComeFirst(start, start + budgetMs, delay, attempts, r.failures - 1);
    }
  }

  lemma {:induction false} BackoffSumGrows(delay: nat, m: nat, n: nat)
    requires m <= n
    ensures BackoffSum(delay, m) <= BackoffSum(delay, n)
  {
    if m < n {
      BackoffSumGrows(delay, m, n - 1);
    }
  }

  /** With the default budget and delay: at most eleven failed attempts, over within 33 seconds. */
  lemma DefaultRecoveryIsBounded(start: nat, attempts: nat -> Attempt, r: Recovery)
    requires IsOutcome(start, start + RECONNECT_BUDGET_MS, RECONNECT_ATTEMPT_DELAY_MS, attempts, r)
    ensures r.failures <= 11 && r.end <= start + 33000 && (!r.ok ==> start + 30000 <= r.end)
  {
    RecoveryIsBounded(start, RECONNECT_BUDGET_MS, RECONNECT_ATTEMPT_DELAY_MS, attempts, r);
    if r.failures > 11 {
      assert BackoffSum(500, 4) == 5000;
      assert BackoffSum(500, 8) == 18000;
      assert BackoffSum(500, 11) == 32500;
      BackoffSumGrows(500, 11, r.failures - 1);
    }
  }
}
