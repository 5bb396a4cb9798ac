/**
 Renewal pacing: the backoff formula, and how soon after one renewal request the next may
 begin, whatever fails in between.
 */
module Pacing {
  import opened Durable
  import opened Credentials
  import opened Runs
  import opened Cutover
  import opened Survival

  lemma {:induction false} Pow2Monotone(m: nat, n: nat)
    requires m <= n
    ensures 1 <= Pow2(m) <= Pow2(n)
    decreases n
  {
    if m < n {
      Pow2Monotone(m, n - 1);
    } else if n > 0 {
      Pow2Monotone(m - 1, n - 1);
    }
  }

  /** The clamp at twelve never shows: the backoff is the capped power of two for every attempt. */
  lemma BackoffIsCappedDoubling(attempt: int)
    requires attempt >= 1
    ensures var full := 60 * Pow2(attempt - 1);
            RenewalBackoff(attempt) == if full < 86400 then full else 86400
  {
    assert Pow2(11) == 2048 by { assert Pow2(6) == 64; }
    if attempt > 12 {
      Pow2Monotone(11, attempt - 1);
    }
  }

  /** One minute first, then twice as long after each attempt, and never more than a day. */
  lemma BackoffDoubles(attempt: int)
    ensures attempt <= 1 ==> RenewalBackoff(attempt) == 60
    ensures attempt >= 1 ==>
              RenewalBackoff(attempt + 1) == if 2 * RenewalBackoff(attempt) < 24 * 60 * 60 then 2 * RenewalBackoff(attempt) else 24 * 60 * 60
  {
    assert Pow2(11) == 2048 && Pow2(12) == 4096 by { assert Pow2(6) == 64; }
    if attempt >= 1 {
      BackoffIsCappedDoubling(attempt);
      BackoffIsCappedDoubling(attempt + 1);
      if attempt >= 12 { Pow2Monotone(11, attempt - 1); }
    }
  }

  function Delay(attempts: int): int {
    var backoff := RenewalBackoff(attempts);
    if backoff < 300 then backoff else 300
  }

  /** After a request at `start` that made the count `attempts`. */
  predicate Waiting(s: Sys, start: int, attempts: int) {
    && s.mem == s.disk.config
    && s.mem.renewalAttempts == attempts
    && s.mem.renewalNextRetry >= start + Delay(attempts)
  }

  function StepTime(step: Step, otherwise: int): int {
    match step
    case BeginStep(now, _, _, _) => now
    case ApplyStep(now, _, _) => now
    case ResumeStep(now, _) => now
    case RecordStep(now, _, _, _) => now
    case _ => otherwise
  }

  /** New credentials were installed, or another request was begun. */
  predicate RenewsOrBegins(s: Sys, step: Step) {
    && Call(s, step).outcome.Done?
    && (step.BeginStep? || step.ApplyStep? || (step.ResumeStep? && CompletePending(s.mem)))
  }

  lemma KeepsWaiting(s: Sys, step: Step, start: int, attempts: int)
    requires Waiting(s, start, attempts) && attempts >= 1
    requires StepTime(step, start) >= start && !RenewsOrBegins(s, step)
    ensures Waiting(Next(s, step), start, attempts)
  {
    match step
    case ApplyStep(now, r, f) =>
      if Accepts(s, now, r) { AnyApply(s, now, r, f); }
    case ResumeStep(now, f) =>
      if CompletePending(s.mem) { ResumeShape(s, now, f); }
    case RecordStep(now, code, clear, f) =>
      RecordShape(s, now, code, clear, f);
    case BeginStep(now, freshId, key, f) =>
      BeginShape(s, now, freshId, key, f);
    case _ =>
  }

  function NextAll(s: Sys, steps: seq<Step>): Sys {
    if steps == [] then s else Next(NextAll(s, steps[..|steps| - 1]), steps[|steps| - 1])
  }

  /** Steps after `start` with neither success nor another request among them. */
  predicate Between(s: Sys, steps: seq<Step>, start: int) {
    steps == [] ||
    (&& Between(s, steps[..|steps| - 1], start)
     && StepTime(steps[|steps| - 1], start) >= start
     && !RenewsOrBegins(NextAll(s, steps[..|steps| - 1]), steps[|steps| - 1]))
  }

  lemma {:induction false} StillWaiting(s: Sys, steps: seq<Step>, start: int, attempts: int)
    requires Waiting(s, start, attempts) && attempts >= 1 && Between(s, steps, start)
    ensures Waiting(NextAll(s, steps), start, attempts)
  {
    if steps != [] {
      StillWaiting(s, steps[..|steps| - 1], start, attempts);
      KeepsWaiting(NextAll(s, steps[..|steps| - 1]), steps[|steps| - 1], start, attempts);
    }
  }

  /** Two consecutive requests are at least min(300 s, backoff) apart. */
  lemma RequestsArePaced(s: Sys, first: Step, between: seq<Step>, second: int)
    requires s.mem == s.disk.config && s.mem.renewalAttempts >= 0
    requires first.BeginStep? && Call(s, first).outcome.Done?
    requires Between(Next(s, first), between, first.now)
    requires NextAll(Next(s, first), between).mem.renewalNextRetry <= second  // the guard before every request
    ensures var attempts := s.mem.renewalAttempts + 1;
            Next(s, first).mem.renewalAttempts == attempts && second >= first.now + Delay(attempts)
  {
    StillWaiting(Next(s, first), between, first.now, s.mem.renewalAttempts + 1);
  }
}
