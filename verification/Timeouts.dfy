/**
  Time limits of blocking calls and of periodic tasks (tasks.c).  The code sees a tick
  count modulo TICK_RANGE and a 32-bit count of its wraps; the statements here are about
  unbounded time.
 */
module Timeouts {
  import opened KernelConfig

  /** xNumOfOverflows is a 32-bit counter too. */
  const OVERFLOW_RANGE: nat := 0x1_0000_0000

  function TickAt(time: nat): TickType {
    time % TICK_RANGE
  }

  function OverflowsAt(time: nat): nat {
    time / TICK_RANGE % OVERFLOW_RANGE
  }

  lemma TickParts(time: nat)
    ensures time == TICK_RANGE * (time / TICK_RANGE) + TickAt(time)
  {
  }

  /** The difference of two ticks is the elapsed time modulo TICK_RANGE. */
  lemma ElapsedTicks(entered: nat, time: nat)
    requires entered <= time
    ensures TickSub(TickAt(time), TickAt(entered)) == (time - entered) % TICK_RANGE
  {
    TickParts(entered);
    TickParts(time);
    var q, d := time / TICK_RANGE - entered / TICK_RANGE, TickSub(TickAt(time), TickAt(entered));
    if TickAt(entered) <= TickAt(time) {
      assert time - entered == TICK_RANGE * q + d;
    } else {
      assert time - entered == TICK_RANGE * (q - 1) + d;
    }
  }

  /** The test of xTaskCheckForTimeOut for a full turn: another wrap count, and a tick that is not smaller. */
  predicate TurnSeen(entered: nat, time: nat) {
    OverflowsAt(time) != OverflowsAt(entered) && TickAt(time) >= TickAt(entered)
  }

  /** The test never reports a full turn that did not happen. */
  lemma TurnSeenIsTrue(entered: nat, time: nat)
    requires entered <= time && TurnSeen(entered, time)
    ensures time - entered >= TICK_RANGE
  {
    TickParts(entered);
    TickParts(time);
  }

  /** The elapsed time as the check sees it. */
  function SeenElapsed(entered: nat, time: nat): (e: nat)
    requires entered <= time
    ensures e <= time - entered
  {
    if TurnSeen(entered, time) then time - entered else (time - entered) % TICK_RANGE
  }

  /** What the check sees is true exactly within a full turn, or if it sees the turn. */
  predicate Visible(entered: nat, time: nat) {
    time < entered + TICK_RANGE || TurnSeen(entered, time)
  }

  lemma SeenIsTrueIff(entered: nat, time: nat)
    requires entered <= time
    ensures SeenElapsed(entered, time) == time - entered <==> Visible(entered, time)
  {
  }

  /** Expiry is misjudged exactly when a turn goes unseen and what is left of the elapsed time is less than the wait. */
  lemma ExpiryIsTrueIff(entered: nat, time: nat, ticksToWait: TickType)
    requires entered <= time
    ensures (SeenElapsed(entered, time) >= ticksToWait <==> time - entered >= ticksToWait) <==>
              (Visible(entered, time) || (time - entered) % TICK_RANGE >= ticksToWait)
  {
    SeenIsTrueIff(entered, time);
  }

  /** Two wraps with a smaller tick: of a full turn and one tick, one tick is seen, and a wait of 5 goes on. */
  lemma ExpiryMissed()
    ensures SeenElapsed(PORT_MAX_DELAY, 2 * TICK_RANGE) == 1 && 2 * TICK_RANGE - PORT_MAX_DELAY >= 5
  {
  }

  // ---------------------------------------------------------------- a series of checks

  /** The instant check number i looks back to, and the check after the last would. */
  function Before(entered: nat, checks: seq<nat>, i: nat): nat
    requires i <= |checks|
  {
    if i == 0 then entered else checks[i - 1]
  }

  ghost predicate Ascending(entered: nat, checks: seq<nat>) {
    forall i :: 0 <= i < |checks| ==> Before(entered, checks, i) <= checks[i]
  }

  ghost predicate AllVisible(entered: nat, checks: seq<nat>, n: nat)
    requires n <= |checks|
  {
    forall i :: 0 <= i < n ==> Visible(Before(entered, checks, i), checks[i])
  }

  /** The time seen to have passed by the first n checks. */
  ghost function SeenBy(entered: nat, checks: seq<nat>, n: nat): nat
    requires Ascending(entered, checks) && n <= |checks|
  {
    if n == 0 then 0
    else SeenBy(entered, checks, n - 1) + SeenElapsed(Before(entered, checks, n - 1), checks[n - 1])
  }

  /** A series of checks sees the true elapsed time exactly if every single one does. */
  lemma {:induction false} SeenByIsTrueIff(entered: nat, checks: seq<nat>, n: nat)
    requires Ascending(entered, checks) && n <= |checks|
    ensures SeenBy(entered, checks, n) <= Before(entered, checks, n) - entered
    ensures SeenBy(entered, checks, n) == Before(entered, checks, n) - entered <==> AllVisible(entered, checks, n)
  {
    hide SeenElapsed, Visible;
    if n > 0 {
      SeenByIsTrueIff(entered, checks, n - 1);
      SeenIsTrueIff(Before(entered, checks, n - 1), checks[n - 1]);
      assert Before(entered, checks, n) == checks[n - 1];
    }
  }

  // ---------------------------------------------------------------- time limits

  class TimeOut {
    var overflowCount: nat
    var timeOnEntering: TickType

    /** The structure records the instant entered. */
    ghost predicate Marks(entered: nat)
      reads this
    {
      overflowCount == OverflowsAt(entered) && timeOnEntering == TickAt(entered)
    }

    /** vTaskInternalSetTimeOutState at the instant time. */
    method Set(time: nat)
      modifies this
      ensures Marks(time)
    {
      overflowCount, timeOnEntering := OverflowsAt(time), TickAt(time);
    }

    /**
      xTaskCheckForTimeOut at the instant time.  It reports expiry exactly when the elapsed
      time it sees has reached the wait, and never for an indefinite wait.
     */
    method CheckForTimeOut(time: nat, ticksToWait: TickType, ghost entered: nat) returns (expired: bool, remaining: TickType)
      requires Marks(entered) && entered <= time
      modifies this
      ensures ticksToWait == PORT_MAX_DELAY ==> !expired && remaining == PORT_MAX_DELAY && Marks(entered)
      ensures ticksToWait < PORT_MAX_DELAY ==>
                (expired <==> SeenElapsed(entered, time) >= ticksToWait) && (expired ==> remaining == 0)
      ensures ticksToWait < PORT_MAX_DELAY && !expired ==>
                remaining == ticksToWait - SeenElapsed(entered, time) && Marks(time)
      // The elapsed time is seen in full if the wrap count changed and the tick is not smaller, else modulo the range.
      ensures ticksToWait < PORT_MAX_DELAY ==>
                var turn := time / TICK_RANGE % OVERFLOW_RANGE != entered / TICK_RANGE % OVERFLOW_RANGE
                            && time % TICK_RANGE >= entered % TICK_RANGE;
                var seen := if turn then time - entered else (time - entered) % TICK_RANGE;
                (expired <==> seen >= ticksToWait) && remaining == if expired then 0 else ticksToWait - seen
    {
      var elapsed := TickSub(TickAt(time), timeOnEntering);
      ElapsedTicks(entered, time);
      if TurnSeen(entered, time) {
        TurnSeenIsTrue(entered, time);
      }
      remaining := ticksToWait;
      if ticksToWait == PORT_MAX_DELAY {
        expired := false;
      } else if OverflowsAt(time) != overflowCount && TickAt(time) >= timeOnEntering {
        remaining := 0;
        expired := true;
      } else if elapsed < ticksToWait {
        remaining := ticksToWait - elapsed;
        Set(time);
        expired := false;
      } else {
        remaining := 0;
        expired := true;
      }
    }

    /**
      The retry loop of a blocking call, whose checks happen at the instants checks.  The
      first check reported as expired is the first by which the wait is seen to have passed;
      until then the remaining wait and the time seen add up to the wait.
     */
    method Retry(checks: seq<nat>, requested: TickType, ghost entered: nat) returns (first: nat, remaining: TickType)
      requires Marks(entered) && Ascending(entered, checks)
      modifies this
      ensures first <= |checks|
      ensures requested == PORT_MAX_DELAY ==> first == |checks| && remaining == PORT_MAX_DELAY
      ensures requested < PORT_MAX_DELAY ==>
                && (forall i :: 0 < i <= first ==> SeenBy(entered, checks, i) < requested)
                && (first < |checks| ==> SeenBy(entered, checks, first + 1) >= requested && remaining == 0)
                && (first == |checks| ==> remaining + SeenBy(entered, checks, first) == requested)
      ensures requested < PORT_MAX_DELAY && AllVisible(entered, checks, |checks|) ==>
                && (forall i :: 0 <= i < first ==> checks[i] - entered < requested)
                && (first < |checks| ==> checks[first] - entered >= requested)
                && (first == |checks| > 0 ==> remaining + (checks[first - 1] - entered) == requested)
    {
      hide Ascending, SeenElapsed, AllVisible, OverflowsAt, TickAt;
      first, remaining := 0, requested;
      var expired := false;
      while first < |checks| && !expired
        invariant first <= |checks|
        invariant requested == PORT_MAX_DELAY ==> !expired && remaining == PORT_MAX_DELAY && Marks(entered)
        invariant requested < PORT_MAX_DELAY && !expired ==>
                    Marks(Before(entered, checks, first)) && remaining + SeenBy(entered, checks, first) == requested
        invariant requested < PORT_MAX_DELAY ==>
                    forall i :: 0 < i <= first ==> SeenBy(entered, checks, i) < requested
        invariant expired ==>
                    && requested < PORT_MAX_DELAY && first < |checks|
                    && SeenBy(entered, checks, first + 1) >= requested && remaining == 0
        decreases |checks| - first, if expired then 0 else 1
      {
        NextCheck(entered, checks, first);
        expired, remaining := CheckForTimeOut(checks[first], remaining,
                                if requested == PORT_MAX_DELAY then entered else Before(entered, checks, first));
        if !expired {
          first := first + 1;
        }
      }
      if requested < PORT_MAX_DELAY && AllVisible(entered, checks, |checks|) {
        AllSeen(entered, checks);
      }
    }
  }

  lemma NextCheck(entered: nat, checks: seq<nat>, n: nat)
    requires Ascending(entered, checks) && n < |checks|
    ensures entered <= checks[n] && Before(entered, checks, n) <= checks[n] && Before(entered, checks, n + 1) == checks[n]
  {
    SeenByIsTrueIff(entered, checks, n);
  }

  lemma AllSeen(entered: nat, checks: seq<nat>)
    requires Ascending(entered, checks) && AllVisible(entered, checks, |checks|)
    ensures forall i :: 0 <= i < |checks| ==> SeenBy(entered, checks, i + 1) == checks[i] - entered
    ensures |checks| > 0 ==> SeenBy(entered, checks, |checks|) == checks[|checks| - 1] - entered
  {
    forall i | 0 <= i < |checks|
      ensures SeenBy(entered, checks, i + 1) == checks[i] - entered
    {
      SeenByIsTrueIff(entered, checks, i + 1);
      assert Before(entered, checks, i + 1) == checks[i];
    }
    if |checks| > 0 {
      assert SeenBy(entered, checks, (|checks| - 1) + 1) == checks[|checks| - 1] - entered;
    }
  }

  // ---------------------------------------------------------------- periodic tasks

  datatype Delay = Delay(nextWakeTime: TickType, ticks: Option<TickType>)

  /** The decision of xTaskDelayUntil: the next wake time, and how long to sleep if at all. */
  function PlanDelay(previousWakeTime: TickType, increment: TickType, tick: TickType): Delay {
    var elapsed := TickSub(tick, previousWakeTime);
    Delay(TickAdd(previousWakeTime, increment), if increment > elapsed then Some(increment - elapsed) else None)
  }

  /** The stored wake time after n calls. */
  function PreviousWake(start: TickType, increment: TickType, n: nat): TickType {
    if n == 0 then start else TickAdd(PreviousWake(start, increment, n - 1), increment)
  }

  lemma TickAddIs(time: nat, increment: TickType)
    ensures TickAdd(TickAt(time), increment) == TickAt(time + increment)
  {
    TickParts(time);
    var q, r := time / TICK_RANGE, TickAdd(TickAt(time), increment);
    if TickAt(time) + increment < TICK_RANGE {
      assert time + increment == TICK_RANGE * q + r;
    } else {
      assert time + increment == TICK_RANGE * (q + 1) + r;
    }
  }

  /** The stored wake times are start, start + increment, start + 2 * increment, ... */
  lemma {:induction false} WakeTimesDoNotDrift(start: nat, increment: TickType, n: nat)
    ensures PreviousWake(TickAt(start), increment, n) == TickAt(start + n * increment)
  {
    if n == 0 {
    } else {
      WakeTimesDoNotDrift(start, increment, n - 1);
      TickAddIs(start + (n - 1) * increment, increment);
      assert (n - 1) * increment + increment == n * increment;
    }
  }

  /**
    A call at the instant call sleeps until exactly previous + increment, or not at all if that
    is over, exactly if it is not early, that is, before the previous wake time, and is less
    than a full turn of the counter late or looks late by the increment or more.
   */
  lemma SleepsUntilNextWakeIff(previous: nat, increment: TickType, call: nat)
    requires increment > 0
    ensures var plan := PlanDelay(TickAt(previous), increment, TickAt(call));
            var right := if previous + increment > call then Some(previous + increment - call) else None;
            plan.ticks == right <==>
              previous <= call && (call - previous < TICK_RANGE || increment <= (call - previous) % TICK_RANGE)
  {
    if previous <= call {
      ElapsedTicks(previous, call);
      hide TickAdd, TickSub, TickAt;
      if call - previous < TICK_RANGE {
        assert (call - previous) % TICK_RANGE == call - previous;
      }
    }
  }

  /** Two ticks more than a full turn late, a call that should not sleep at all looks early and sleeps 3 ticks. */
  lemma LateCallSleeps()
    ensures PlanDelay(TickAt(0), 5, TickAt(TICK_RANGE + 2)).ticks == Some(3) && 0 + 5 <= TICK_RANGE + 2
  {
  }

  /** A task resumed 40 ticks before its previous wake time does not sleep, with 90 ticks to go. */
  lemma EarlyCallReturns()
    ensures PlanDelay(TickAt(100), 50, TickAt(60)).ticks == None && 100 + 50 - 60 == 90
  {
  }

  /** Call number n of a task that is neither early nor a full turn late wakes it at start + (n + 1) * increment. */
  lemma PeriodicTask(start: nat, increment: TickType, n: nat, call: nat)
    requires increment > 0
    requires start + n * increment <= call < start + n * increment + TICK_RANGE
    ensures var plan := PlanDelay(PreviousWake(TickAt(start), increment, n), increment, TickAt(call));
            var wake := start + (n + 1) * increment;
            && plan.nextWakeTime == TickAt(wake)
            && plan.ticks == if wake > call then Some(wake - call) else None
  {
    WakeTimesDoNotDrift(start, increment, n);
    WakeTimesDoNotDrift(start, increment, n + 1);
    SleepsUntilNextWakeIff(start + n * increment, increment, call);
    assert n * increment + increment == (n + 1) * increment;
  }
}
