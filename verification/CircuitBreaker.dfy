/** src/core/circuit-breaker.ts, as a system of steps: calls overlap, so a call that
    was admitted in one state may complete in another. */
module CircuitBreakers {
  datatype CircuitState = CLOSED | OPEN | HALF_OPEN

  datatype Options = Options(failureThreshold: int, recoveryTimeMs: int, halfOpenMaxAttempts: int)

  datatype Breaker = Breaker(state: CircuitState, failureCount: int, successCount: int, openedAt: int)

  const INITIAL := Breaker(CLOSED, 0, 0, 0)

  /** `execute` is split into its admission and the completion of its call. */
  datatype Step =
    | Look(now: int)
    | Begin(now: int)
    | Succeed(now: int)
    | Fail(now: int)
    | Reset(now: int)

  function Looked(o: Options, b: Breaker, now: int): Breaker {
    if b.state == OPEN && now - b.openedAt >= o.recoveryTimeMs then b.(state := HALF_OPEN, successCount := 0) else b
  }

  predicate Admits(o: Options, b: Breaker, now: int) {
    Looked(o, b, now).state != OPEN
  }

  function Succeeded(o: Options, b: Breaker): Breaker {
    if b.state != HALF_OPEN then b.(failureCount := 0)
    else if b.successCount + 1 >= o.halfOpenMaxAttempts then Breaker(CLOSED, 0, 0, b.openedAt)
    else b.(successCount := b.successCount + 1)
  }

  predicate Opens(o: Options, b: Breaker, step: Step) {
    step.Fail? && (b.state == HALF_OPEN || b.failureCount + 1 >= o.failureThreshold)
  }

  function Failed(o: Options, b: Breaker, now: int): Breaker {
    if b.state == HALF_OPEN then Breaker(OPEN, b.failureCount + 1, 0, now)
    else if b.failureCount + 1 >= o.failureThreshold then Breaker(OPEN, b.failureCount + 1, b.successCount, now)
    else b.(failureCount := b.failureCount + 1)
  }

  function Take(o: Options, b: Breaker, step: Step): Breaker {
    match step
    case Look(now) => Looked(o, b, now)
    case Begin(now) => Looked(o, b, now)
    case Succeed(_) => Succeeded(o, b)
    case Fail(now) => Failed(o, b, now)
    case Reset(_) => INITIAL
  }

  function Run(o: Options, steps: seq<Step>): Breaker {
    if steps == [] then INITIAL else Take(o, Run(o, steps[..|steps| - 1]), steps[|steps| - 1])
  }

  // --------------------------------------------------------------- the counts

  /** Failures completed since the last success or reset. */
  function TrailingFailures(steps: seq<Step>): nat {
    if steps == [] then 0
    else
      var step, rest := steps[|steps| - 1], steps[..|steps| - 1];
      if step.Fail? then TrailingFailures(rest) + 1
      else if step.Succeed? || step.Reset? then 0
      else TrailingFailures(rest)
  }

  /** For any options, with any overlap of calls: a closed breaker has counted exactly the
      trailing failures, and fewer than the threshold or none; a half-open one has counted
      fewer successes than it needs to close, or none. */
  lemma {:induction false} CountsExact(o: Options, steps: seq<Step>)
    ensures var b := Run(o, steps);
            && (b.state == CLOSED ==> b.failureCount == TrailingFailures(steps))
            && (b.state == CLOSED ==> b.failureCount < o.failureThreshold || b.failureCount == 0)
            && (b.state == HALF_OPEN ==> 0 <= b.successCount)
            && (b.state == HALF_OPEN ==> b.successCount < o.halfOpenMaxAttempts || b.successCount == 0)
            && b.failureCount >= 0
  {
    if steps != [] {
      CountsExact(o, steps[..|steps| - 1]);
    }
  }

  ghost predicate Bounded(o: Options, b: Breaker) {
    && (b.state == CLOSED ==> b.failureCount < o.failureThreshold)
    && (b.state == HALF_OPEN ==> b.successCount < o.halfOpenMaxAttempts)
  }

  ghost predicate AlwaysBounded(o: Options) {
    forall steps :: Bounded(o, Run(o, steps))
  }

  /** The constructor takes any options. The counts stay below their bounds in every run if
      and only if both bounds are at least 1. */
  lemma CountsBoundedIff(o: Options)
    ensures AlwaysBounded(o) <==> o.failureThreshold >= 1 && o.halfOpenMaxAttempts >= 1
  {
    if o.failureThreshold >= 1 && o.halfOpenMaxAttempts >= 1 {
      forall steps
        ensures Bounded(o, Run(o, steps))
      {
        CountsExact(o, steps);
      }
    }
    if AlwaysBounded(o) {
      assert Bounded(o, Run(o, []));
      var n, steps := o.failureThreshold, Failures(o.failureThreshold);
      FailedUntilOpen(o, steps, n);
      ThenHalfOpen(o, steps, n);
      assert Bounded(o, Run(o, steps + [Look(o.recoveryTimeMs)]));
    }
  }

  function Failures(n: nat): seq<Step> {
    if n == 0 then [] else Failures(n - 1) + [Fail(0)]
  }

  lemma OneMoreStep(o: Options, steps: seq<Step>, step: Step)
    ensures Run(o, steps + [step]) == Take(o, Run(o, steps), step)
  {
    assert (steps + [step])[..|steps|] == steps;
  }

  lemma {:induction false} StillClosed(o: Options, n: nat)
    requires n < o.failureThreshold
    ensures Run(o, Failures(n)) == Breaker(CLOSED, n, 0, 0)
  {
    if n > 0 {
      StillClosed(o, n - 1);
      OneMoreStep(o, Failures(n - 1), Fail(0));
    }
  }

  lemma FailedUntilOpen(o: Options, steps: seq<Step>, n: nat)
    requires n == o.failureThreshold >= 1 && steps == Failures(n)
    ensures Run(o, steps) == Breaker(OPEN, n, 0, 0)
  {
    StillClosed(o, n - 1);
    ThenOpen(o, Failures(n - 1), n);
  }

  lemma ThenOpen(o: Options, steps: seq<Step>, n: nat)
    requires n == o.failureThreshold >= 1 && Run(o, steps) == Breaker(CLOSED, n - 1, 0, 0)
    ensures Run(o, steps + [Fail(0)]) == Breaker(OPEN, n, 0, 0)
  {
    OneMoreStep(o, steps, Fail(0));
  }

  lemma ThenHalfOpen(o: Options, steps: seq<Step>, n: nat)
    requires Run(o, steps) == Breaker(OPEN, n, 0, 0)
    ensures Run(o, steps + [Look(o.recoveryTimeMs)]) == Breaker(HALF_OPEN, n, 0, 0)
  {
    OneMoreStep(o, steps, Look(o.recoveryTimeMs));
  }

  /** A breaker leaves the closed state exactly at a failure that makes the trailing run as
      long as the threshold. */
  lemma OpensAtThreshold(o: Options, steps: seq<Step>, step: Step)
    requires Run(o, steps).state == CLOSED
    ensures Run(o, steps + [step]).state != CLOSED
       <==> step.Fail? && TrailingFailures(steps + [step]) >= o.failureThreshold
    ensures o.failureThreshold >= 1 && TrailingFailures(steps + [step]) >= o.failureThreshold ==> step.Fail?
    ensures Run(o, steps + [step]).state != CLOSED ==> Run(o, steps + [step]).state == OPEN
  {
    CountsExact(o, steps);
    assert (steps + [step])[..|steps|] == steps;
  }

  // ------------------------------------------------------------------ half-open

  function Successes(steps: seq<Step>): nat {
    if steps == [] then 0
    else Successes(steps[..|steps| - 1]) + if steps[|steps| - 1].Succeed? then 1 else 0
  }

  /** Step `i` has turned the breaker half-open, and it has been so ever since. */
  ghost predicate HalfOpenSince(o: Options, steps: seq<Step>, i: nat) {
    && i < |steps| && Run(o, steps[..i]).state == OPEN
    && forall k :: i < k <= |steps| ==> Run(o, steps[..k]).state == HALF_OPEN
  }

  /** A half-open breaker has been turned so at some step, and has counted the successes
      since. */
  lemma {:induction false} HalfOpenCounts(o: Options, steps: seq<Step>) returns (i: nat)
    requires Run(o, steps).state == HALF_OPEN
    ensures HalfOpenSince(o, steps, i) && Run(o, steps).successCount == Successes(steps[i + 1..])
  {
    var n := |steps| - 1;
    assert steps[..|steps|] == steps;
    if Run(o, steps[..n]).state == HALF_OPEN {
      i := HalfOpenCounts(o, steps[..n]);
      HalfOpenStill(o, steps, i);
      assert steps[i + 1..][..n - i - 1] == steps[..n][i + 1..];
    } else {
      i := n;
    }
  }

  lemma HalfOpenStill(o: Options, steps: seq<Step>, i: nat)
    requires steps != [] && HalfOpenSince(o, steps[..|steps| - 1], i) && Run(o, steps).state == HALF_OPEN
    ensures HalfOpenSince(o, steps, i)
  {
    var n := |steps| - 1;
    assert steps[..n][..i] == steps[..i];
    forall k | i < k <= |steps|
      ensures Run(o, steps[..k]).state == HALF_OPEN
    {
      if k <= n {
        assert steps[..n][..k] == steps[..k];
      } else {
        assert steps[..k] == steps;
      }
    }
  }

  /** There is only one such step. */
  lemma HalfOpenOnce(o: Options, steps: seq<Step>, i: nat, j: nat)
    requires HalfOpenSince(o, steps, i) && HalfOpenSince(o, steps, j)
    ensures i == j
  {
  }

  /** The counterpart of `OpensAtThreshold`: a half-open breaker closes exactly at a reset, or
      at a success that makes the successes since it turned half-open as many as it needs; and
      it opens exactly at a failure. A success that closes it leaves no failures counted. */
  lemma ClosesAtAttempts(o: Options, steps: seq<Step>, step: Step, i: nat)
    requires HalfOpenSince(o, steps, i)
    ensures
      var after, successes := Run(o, steps + [step]), Successes(steps[i + 1..] + [step]);
      && (after.state == CLOSED <==> step.Reset? || (step.Succeed? && successes >= o.halfOpenMaxAttempts))
      && (after.state == OPEN <==> step.Fail?)
      && (after.state == CLOSED ==> after.failureCount == 0)
      && (after.state == OPEN ==> after.openedAt == step.now && after.failureCount == Run(o, steps).failureCount + 1)
  {
    assert steps[..|steps|] == steps;
    var j := HalfOpenCounts(o, steps);
    HalfOpenOnce(o, steps, i, j);
    OneMoreStep(o, steps, step);
    OneMoreSuccess(steps[i + 1..], step);
    HalfOpenStep(o, Run(o, steps), step);
  }

  lemma OneMoreSuccess(steps: seq<Step>, step: Step)
    ensures Successes(steps + [step]) == Successes(steps) + if step.Succeed? then 1 else 0
  {
    assert (steps + [step])[..|steps|] == steps;
  }

  lemma HalfOpenStep(o: Options, b: Breaker, step: Step)
    requires b.state == HALF_OPEN
    ensures
      var after := Take(o, b, step);
      && (after.state == CLOSED <==> step.Reset? || (step.Succeed? && b.successCount + 1 >= o.halfOpenMaxAttempts))
      && (after.state == OPEN <==> step.Fail?)
      && (after.state == CLOSED ==> after.failureCount == 0)
      && (after.state == OPEN ==> after.openedAt == step.now && after.failureCount == b.failureCount + 1)
  {
  }

  /** An open breaker turns half-open exactly when it is looked at after the recovery time, and
      closes exactly at a reset. A late failure is counted, and starts the recovery time again
      when there are as many as the threshold; a late success clears the count. */
  lemma LeavesOpenIff(o: Options, steps: seq<Step>, step: Step)
    requires Run(o, steps).state == OPEN
    ensures
      var before, after := Run(o, steps), Run(o, steps + [step]);
      && (after.state == HALF_OPEN
          <==> (step.Look? || step.Begin?) && step.now - before.openedAt >= o.recoveryTimeMs)
      && (after.state == HALF_OPEN ==> after.successCount == 0)
      && (after.state == CLOSED <==> step.Reset?)
      && (step.Fail? ==> after.failureCount == before.failureCount + 1)
      && (step.Fail? ==>
            after.openedAt == if after.failureCount >= o.failureThreshold then step.now else before.openedAt)
      && (step.Succeed? ==> after.failureCount == 0 && after.openedAt == before.openedAt)
  {
    OneMoreStep(o, steps, step);
    OpenStep(o, Run(o, steps), step);
  }

  lemma OpenStep(o: Options, b: Breaker, step: Step)
    requires b.state == OPEN
    ensures
      var after := Take(o, b, step);
      && (after.state == HALF_OPEN <==> (step.Look? || step.Begin?) && step.now - b.openedAt >= o.recoveryTimeMs)
      && (after.state == HALF_OPEN ==> after.successCount == 0)
      && (after.state == CLOSED <==> step.Reset?)
      && (step.Fail? ==> after.failureCount == b.failureCount + 1)
      && (step.Fail? ==> after.openedAt == if after.failureCount >= o.failureThreshold then step.now else b.openedAt)
      && (step.Succeed? ==> after.failureCount == 0 && after.openedAt == b.openedAt)
  {
  }

  // -------------------------------------------------------------- the cooldown

  ghost predicate ClockMonotone(steps: seq<Step>) {
    forall i, j :: 0 <= i < j < |steps| ==> steps[i].now <= steps[j].now
  }

  /** After an opening at time `t`: open since `t` or later, or past the cooldown. */
  ghost predicate Cooling(o: Options, b: Breaker, t: int, now: int) {
    if b.state == OPEN then b.openedAt >= t else now - t >= o.recoveryTimeMs
  }

  lemma CoolingStep(o: Options, b: Breaker, t: int, before: int, step: Step)
    requires Cooling(o, b, t, before) && t <= before <= step.now && !step.Reset?
    ensures Cooling(o, Take(o, b, step), t, step.now)
  {
  }

  lemma {:induction false} CoolingRun(o: Options, steps: seq<Step>, i: nat, j: nat)
    requires ClockMonotone(steps) && i < j <= |steps|
    requires Opens(o, Run(o, steps[..i]), steps[i])
    requires forall k :: i < k < j ==> !steps[k].Reset?
    ensures Cooling(o, Run(o, steps[..j]), steps[i].now, steps[j - 1].now)
    decreases j
  {
    assert steps[..j][..j - 1] == steps[..j - 1];
    if j > i + 1 {
      CoolingRun(o, steps, i, j - 1);
      CoolingStep(o, Run(o, steps[..j - 1]), steps[i].now, steps[j - 2].now, steps[j - 1]);
    }
  }

  /** Without a reset, no call is admitted within the recovery time of an opening. */
  lemma NoAdmissionDuringCooldown(o: Options, steps: seq<Step>, i: nat, j: nat)
    requires ClockMonotone(steps) && i < j < |steps|
    requires Opens(o, Run(o, steps[..i]), steps[i])
    requires forall k :: i < k < j ==> !steps[k].Reset?
    requires steps[j].Begin? && Admits(o, Run(o, steps[..j]), steps[j].now)
    ensures steps[j].now - steps[i].now >= o.recoveryTimeMs
  {
    CoolingRun(o, steps, i, j);
  }

  /** Step `i` opened the breaker, and no reset has followed. */
  ghost predicate OpenedBy(o: Options, steps: seq<Step>, i: nat) {
    && i < |steps| && Opens(o, Run(o, steps[..i]), steps[i])
    && forall k :: i < k < |steps| ==> !steps[k].Reset?
  }

  /** An open breaker was opened, at the time it says. */
  lemma {:induction false} OpenWasOpened(o: Options, steps: seq<Step>) returns (i: nat)
    requires Run(o, steps).state == OPEN
    ensures OpenedBy(o, steps, i) && steps[i].now == Run(o, steps).openedAt
  {
    var n := |steps| - 1;
    var b := Run(o, steps[..n]);
    if Opens(o, b, steps[n]) {
      i := n;
    } else {
      i := OpenWasOpened(o, steps[..n]);
      assert steps[..n][..i] == steps[..i];
    }
  }

  /** A call is admitted if and only if every opening since the last reset is at least the
      recovery time ago. */
  lemma AdmittedIff(o: Options, steps: seq<Step>, now: int)
    requires ClockMonotone(steps) && (steps != [] ==> steps[|steps| - 1].now <= now)
    ensures Admits(o, Run(o, steps), now)
       <==> forall i: nat :: OpenedBy(o, steps, i) ==> now - steps[i].now >= o.recoveryTimeMs
  {
    assert steps[..|steps|] == steps;
    forall i: nat | OpenedBy(o, steps, i)
      ensures Cooling(o, Run(o, steps), steps[i].now, steps[|steps| - 1].now)
    {
      CoolingRun(o, steps, i, |steps|);
    }
    if Run(o, steps).state == OPEN {
      var i := OpenWasOpened(o, steps);
    }
  }

  // ------------------------------------------------------------------ the class

  class CircuitBreaker {
    const options: Options
    var state: CircuitState
    var failureCount: int
    var successCount: int
    var openedAt: int

    function Value(): Breaker
      reads this
    {
      Breaker(state, failureCount, successCount, openedAt)
    }

    constructor (options: Options)
      ensures Value() == INITIAL && this.options == options
    {
      this.options := options;
      state, failureCount, successCount, openedAt := CLOSED, 0, 0, 0;
    }

    method GetState(now: int) returns (r: CircuitState)
      modifies this
      ensures Value() == Take(options, old(Value()), Look(now)) && r == state
    {
      if state == OPEN && now - openedAt >= options.recoveryTimeMs {
        state := HALF_OPEN;
        successCount := 0;
      }
      r := state;
    }

    method ResetCircuit(now: int)
      modifies this
      ensures Value() == Take(options, old(Value()), Reset(now))
    {
      state := CLOSED;
      failureCount, successCount, openedAt := 0, 0, 0;
    }

    /** The first half of `execute`. */
    method BeginCall(now: int) returns (admitted: bool)
      modifies this
      ensures Value() == Take(options, old(Value()), Begin(now))
      ensures admitted <==> Admits(options, old(Value()), now)
    {
      var currentState := GetState(now);
      admitted := currentState != OPEN;
    }

    method OnSuccess(now: int)
      modifies this
      ensures Value() == Take(options, old(Value()), Succeed(now))
    {
      if state == HALF_OPEN {
        successCount := successCount + 1;
        if successCount >= options.halfOpenMaxAttempts {
          state := CLOSED;
          failureCount := 0;
          successCount := 0;
        }
      } else {
        failureCount := 0;
      }
    }

    method OnFailure(now: int)
      modifies this
      ensures Value() == Take(options, old(Value()), Fail(now))
    {
      failureCount := failureCount + 1;
      if state == HALF_OPEN {
        state := OPEN;
        openedAt := now;
        successCount := 0;
      } else if failureCount >= options.failureThreshold {
        state := OPEN;
        openedAt := now;
      }
    }
  }
}
