/**
  The timer daemon of timers.c.  It alone touches the timer lists; callbacks are counted
  in a ghost multiset.  Ticks are what the code reads, and the ghost parameters beside
  them are the instants of unbounded time those ticks stand for.
 */
module Timers {
  import opened KernelConfig
  import opened ListViews
  import opened Timeouts
  import opened TimerTables

  datatype Command =
    | StartTimer(timer: TimerId)
    | StopTimer(timer: TimerId)
    | ChangePeriod(timer: TimerId, period: TickType)
    | DeleteTimer(timer: TimerId)

  /** A message of the timer queue, with the instants it was sent and is handled. */
  datatype Message = Message(command: Command, sent: nat, handled: nat)

  /** What the daemon's loop does: look at its lists, or handle a message from its queue. */
  datatype Event = Look(time: nat) | Handle(message: Message)

  /** What one turn of the daemon's loop does before it looks at its queue. */
  datatype Turn = Switched | Fired | Blocked(ticks: TickType, indefinitely: bool)

  /** The callback of t was made n more times, and no other. */
  ghost predicate Called(before: multiset<TimerId>, after: multiset<TimerId>, t: TimerId, n: nat) {
    forall u :: after[u] == before[u] + if u == t then n else 0
  }

  lemma CalledNever(calls: multiset<TimerId>, t: TimerId)
    ensures Called(calls, calls, t, 0)
  {
  }

  lemma CalledAgain(before: multiset<TimerId>, calls: multiset<TimerId>, t: TimerId, n: nat)
    requires Called(before, calls, t, n)
    ensures Called(before, calls[t := calls[t] + 1], t, n + 1)
  {
  }

  /** Timer t is of the same kind as it was, all else is as it was, and t next expires at expiry. */
  ghost predicate ReloadedTo(was: Tables, d: Tables, epoch: nat, t: TimerId, expiry: Option<nat>) {
    && Tidy(d) && OthersKept(was, d, t) && t in was.timers && d.timers.Keys == was.timers.Keys
    && SameKind(was.timers[t], d.timers[t]) && was.timers[t].active == d.timers[t].active
    && d.Expiry(epoch, t) == expiry
  }

  /** The head of the current list is settled by the instant n; nothing else changes. */
  ghost predicate HeadSettled(a: Account, b: Account, n: nat, inWork: set<TimerId>) {
    && Tidy(b.tables) && ActiveIffListed(b.tables, inWork) && b.tables.timers.Keys == a.tables.timers.Keys
    && a.tables.current != [] && a.tables.current[0] in a.tables.timers && b.epoch == a.epoch
    && a.tables.timers[a.tables.current[0]].period > 0
    && OthersKept(a.tables, b.tables, a.tables.current[0])
    && (forall u :: u != a.tables.current[0] ==> b.calls[u] == a.calls[u])
    && SettledFor(a, b, a.tables.current[0], n)
  }

  class TimerDaemon {
    var timers: map<TimerId, Timer>
    var current: seq<TimerId>
    var overflow: seq<TimerId>
    /** xLastTime of prvSampleTimeNow, and the instant of that sample. */
    var lastTime: TickType
    ghost var sampled: nat
    ghost var calls: multiset<TimerId>

    function Lists(): Tables
      reads `timers, `current, `overflow
    {
      Tables(timers, current, overflow)
    }

    ghost function State(): Account
      reads this
    {
      Account(Lists(), Epoch(sampled), calls)
    }

    ghost predicate Valid(inWork: set<TimerId>)
      reads this
    {
      Tidy(Lists()) && ActiveIffListed(Lists(), inWork) && lastTime == TickAt(sampled)
    }

    constructor ()
      ensures Valid({}) && timers == map[] && sampled == 0 && calls == multiset{}
    {
      timers, current, overflow, lastTime := map[], [], [], 0;
      sampled, calls := 0, multiset{};
    }

    /** prvInsertTimerInActiveList */
    method InsertTimerInActiveList(t: TimerId, next: TickType, now: TickType, command: TickType,
                                   ghost commanded: nat, ghost time: nat) returns (expired: bool)
      requires Tidy(Lists()) && t in timers && !Lists().Listed(t)
      requires commanded <= time && Epoch(time) == Epoch(sampled) && now == TickAt(time)
      requires command == TickAt(commanded) && next == TickAt(commanded + timers[t].period)
      modifies this`timers, this`current, this`overflow
      ensures Tidy(Lists()) && OthersKept(old(Lists()), Lists(), t)
      ensures t in timers && timers[t] == old(timers[t]).(value := next) && Lists().Listed(t) == !expired
      ensures expired <==> Waited(commanded, time) >= timers[t].period
      ensures expired <==> (time - commanded) % TICK_RANGE >= timers[t].period
      ensures !expired && time - commanded < TICK_RANGE ==>
                State().tables.Expiry(Epoch(sampled), t) == Some(commanded + timers[t].period)
      ensures time - commanded < TICK_RANGE ==> Waited(commanded, time) == time - commanded
      ensures now == PORT_MAX_DELAY ==> current == old(current)
      ensures timers.Keys == old(timers.Keys)
    {
      hide Tidy, OthersKept, Waited, TickAt, Epoch, Tables.Expiry, Tables.Listed, Put, SortedPosition, Values;
      ghost var was := Lists();
      Judgement(was, t, commanded, time, Epoch(sampled));
      WaitedIs(commanded, time);
      timers := timers[t := timers[t].(value := next)];
      expired := false;
      if next <= now {
        if TickSub(now, command) >= timers[t].period {
          expired := true;
        } else {
          overflow := Put(overflow, SortedPosition(Values(timers, overflow), next), t);
        }
      } else {
        if now < command && next >= command {
          expired := true;
        } else {
          current := Put(current, SortedPosition(Values(timers, current), next), t);
        }
      }
      assert Lists() == Inserted(was, t, next, now, command);
    }

    ghost predicate Reloaded(was: Tables, t: TimerId, expiry: Option<nat>)
      reads `timers, `current, `overflow, `sampled
    {
      ReloadedTo(was, Lists(), Epoch(sampled), t, expiry)
    }

    lemma StartReload(t: TimerId)
      requires Tidy(Lists()) && t in timers && !Lists().Listed(t)
      ensures Reloaded(Lists(), t, None)
    {
    }

    lemma OffLists(was: Tables, t: TimerId)
      requires Reloaded(was, t, None)
      ensures Tidy(Lists()) && t in timers && !Lists().Listed(t) && timers[t].period == was.timers[t].period > 0
    {
    }

    /** The loop condition of prvReloadTimer. */
    method TryNextPeriod(t: TimerId, x: TickType, now: TickType, period: TickType,
                         ghost e: nat, ghost time: nat, ghost was: Tables) returns (again: bool)
      requires Reloaded(was, t, None) && x == TickAt(e) && period == was.timers[t].period
      requires e <= time < e + TICK_RANGE && Epoch(time) == Epoch(sampled) && now == TickAt(time)
      modifies this`timers, this`current, this`overflow
      ensures again <==> e + period <= time
      ensures Reloaded(was, t, if again then None else Some(e + period))
      ensures now == PORT_MAX_DELAY ==> current == old(current)
    {
      OffLists(was, t);
      TickAddIs(e, period);
      ghost var before := Lists();
      hide Tidy, OthersKept, Waited, TickAt, Epoch, TickAdd;
      again := InsertTimerInActiveList(t, TickAdd(x, period), now, x, e, time);
      KeptTwice(was, before, Lists(), t);
    }

    /** prvReloadTimer: one callback for each further period that is over at the instant time. */
    method ReloadTimer(t: TimerId, expiredTime: TickType, now: TickType, ghost expired: nat, ghost time: nat)
      requires Tidy(Lists()) && t in timers && !Lists().Listed(t) && timers[t].period > 0
      requires expired <= time < expired + TICK_RANGE && expiredTime == TickAt(expired)
      requires Epoch(time) == Epoch(sampled) && now == TickAt(time)
      modifies this`timers, this`current, this`overflow, this`calls
      ensures var period := old(timers[t].period);
              && Reloaded(old(Lists()), t, Some(FirstAfter(expired + period, period, time)))
              && Called(old(calls), calls, t, Multiples(expired + period, period, time))
      ensures now == PORT_MAX_DELAY ==> current == old(current)
    {
      hide Reloaded, Tidy, OthersKept, TickAt, Epoch, TickAdd, Tables.Listed, Multiples, FirstAfter, Called;
      ghost var was, before := Lists(), calls;
      ghost var e, made := expired, 0;
      var x, period := expiredTime, timers[t].period;
      StartReload(t);
      CalledNever(calls, t);
      var again := TryNextPeriod(t, x, now, period, e, time, was);
      while again
        invariant expired <= e <= time && x == TickAt(e)
        invariant again <==> e + period <= time
        invariant Reloaded(was, t, if again then None else Some(e + period))
        invariant FirstAfter(expired + period, period, time) == FirstAfter(e + period, period, time)
        invariant made + Multiples(e + period, period, time) == Multiples(expired + period, period, time)
        invariant Called(before, calls, t, made)
        invariant now == PORT_MAX_DELAY ==> current == old(current)
        decreases time - e
      {
        TickAddIs(e, period);
        x, e := TickAdd(x, period), e + period;
        MultiplesStep(e, period, time);
        CalledAgain(before, calls, t, made);
        calls, made := calls[t := calls[t] + 1], made + 1;
        again := TryNextPeriod(t, x, now, period, e, time, was);
      }
      MultiplesStep(e + period, period, time);
    }

    /** prvProcessExpiredTimer: the head of the current list gets every callback due by the instant time. */
    method ProcessExpiredTimer(next: TickType, now: TickType, ghost time: nat, ghost inWork: set<TimerId>)
      requires Valid(inWork) && current != [] && current[0] in timers && current[0] !in inWork
      requires next == timers[current[0]].value <= now
      requires Epoch(time) == Epoch(sampled) && now == TickAt(time)
      modifies `timers, `current, `overflow, `calls
      ensures Valid(inWork) && HeadSettled(old(State()), State(), time, inWork)
      ensures now == PORT_MAX_DELAY ==> current == Drop(old(current), 0)
      // A one-shot timer has its one callback, an auto-reload timer one for each period that is over.
      ensures var t, p := old(current)[0], old(timers)[old(current)[0]].period;
              var x := Epoch(time) * TICK_RANGE + next;
              && t in timers && p > 0 && x <= time
              && (!old(timers)[t].autoReload ==>
                    calls[t] == old(calls[t]) + 1 && Lists().Expiry(Epoch(time), t) == None && !timers[t].active)
              && (old(timers)[t].autoReload ==>
                    var k := (time - x) / p + 1;
                    && calls[t] == old(calls[t]) + k && Lists().Expiry(Epoch(time), t) == Some(x + k * p)
                    && timers[t].active)
    {
      hide Tidy, OthersKept, ActiveIffListed, Multiples, FirstAfter, TickAt, Epoch, Tables.Expiry, Tables.Listed,
           Tables.Unlisted, SettledFor, Called, ReloadedTo, HeadSettled;
      ghost var was, epoch, before := Lists(), Epoch(sampled), calls;
      HeadFacts(was, epoch, time, inWork);
      var t := current[0];
      current := Drop(current, 0);
      assert Lists() == was.Unlisted(t);
      if timers[t].autoReload {
        ReloadTimer(t, next, now, epoch * TICK_RANGE + next, time);
        AutoReloadDone(was, Lists(), epoch, time, inWork, before, calls);
      } else {
        timers := timers[t := timers[t].(active := false)];
        assert Lists() == was.Unlisted(t).SetTimer(t, was.timers[t].(active := false));
        OneShotDone(was, Lists(), epoch, time, inWork, before);
      }
      calls := calls[t := calls[t] + 1];
      HeadSettledValid(Account(was, epoch, before), State(), time, inWork);
      HeadMeans(Account(was, epoch, before), State(), time, inWork);
    }

    /**
      prvSwitchTimerLists.  Every callback of the old epoch is made, no timer goes back on
      the list that is drained, and the overflow list becomes the current one.
     */
    method SwitchTimerLists(ghost inWork: set<TimerId>)
      requires Valid(inWork) && NoneListed(Lists(), inWork)
      modifies `timers, `current, `overflow, `calls
      ensures Tidy(Lists()) && ActiveIffListed(Lists(), inWork) && NoneListed(Lists(), inWork)
      ensures overflow == []
      ensures AllSettled(old(State()), Account(Lists(), Epoch(sampled) + 1, calls), EndOfEpoch(sampled))
      ensures old(Idle(Lists())) ==> Lists() == old(Lists()) && calls == old(calls)
    {
      hide Tidy, ActiveIffListed, NoneListed, Draining, HeadSettled, AllSettled, Epoch, TickAt, EndOfEpoch;
      ghost var start, n := State(), EndOfEpoch(sampled);
      LastInstant(sampled);
      DrainStart(start, n, inWork);
      while current != []
        invariant Valid(inWork) && Draining(start, State(), n, inWork)
        invariant Idle(start.tables) ==> State() == start
        decreases |current|
      {
        ghost var before := State();
        DrainHead(start, before, n, inWork);
        var next := timers[current[0]].value;
        ProcessExpiredTimer(next, PORT_MAX_DELAY, n, inWork);
        DrainStep(start, before, State(), n, inWork);
      }
      DrainEnd(start, State(), n, inWork);
      current, overflow := overflow, current;
    }

    /**
      prvSampleTimeNow at the instant time.  The list epochs follow the true epochs as long
      as less than TICK_RANGE ticks pass between samples, unless no timer is active.
     */
    method SampleTimeNow(tick: TickType, ghost time: nat, ghost inWork: set<TimerId>) returns (switched: bool)
      requires Valid(inWork) && NoneListed(Lists(), inWork) && tick == TickAt(time) && sampled <= time
      requires time < sampled + TICK_RANGE || Idle(Lists())
      modifies this
      ensures Valid(inWork) && NoneListed(Lists(), inWork) && sampled == time
      ensures time < old(sampled) + TICK_RANGE ==>
                && (switched <==> Epoch(time) != Epoch(old(sampled)))
                && (switched ==> overflow == [] && AllSettled(old(State()), State(), EndOfEpoch(old(sampled))))
                && (!switched ==> State() == old(State()))
      ensures old(Idle(Lists())) ==> Lists() == old(Lists()) && calls == old(calls)
    {
      hide Tidy, ActiveIffListed, NoneListed, AllSettled, TickAt, EndOfEpoch;
      EpochFollowedIff(sampled, time);
      switched := tick < lastTime;
      if switched {
        SwitchTimerLists(inWork);
      }
      lastTime, sampled := tick, time;
    }

    /**
      prvGetNextExpireTime and prvProcessTimerOrBlockTask.  The daemon blocks only when no
      callback is owed, and for no longer than until the next expiry or the next wrap of
      the tick count.  Its block time is zero exactly when the current list is empty at tick 0.
     */
    method TakeTurn(tick: TickType, ghost time: nat) returns (turn: Turn)
      requires Valid({}) && tick == TickAt(time) && sampled <= time
      requires time < sampled + TICK_RANGE || Idle(Lists())
      modifies this
      ensures Valid({}) && sampled == time
      ensures forall t :: t in old(timers) ==> Conserved(old(State()), State(), t, time)
      ensures time < old(sampled) + TICK_RANGE ==> (turn.Switched? <==> Epoch(time) != Epoch(old(sampled)))
      ensures turn.Fired? ==> HeadSettled(old(State()), State(), time, {})
      ensures turn.Blocked? ==>
                && Lists() == old(Lists()) && calls == old(calls) && NoneDue(Lists(), Epoch(time), time, turn.ticks)
                && time + turn.ticks <= EndOfEpoch(time) + 1
                && (current == [] && tick > 0 ==> time + turn.ticks == EndOfEpoch(time) + 1)
      // It blocks with nothing due, until the head of the current list expires, if there is one.
      ensures turn.Blocked? ==>
                && (forall t :: t in timers && Lists().Listed(t) ==>
                      var x := Lists().Expiry(Epoch(time), t);
                      x.Some? && x.value > time && x.value >= time + turn.ticks)
                && (current != [] ==> current[0] in timers && Lists().Expiry(Epoch(time), current[0]) == Some(time + turn.ticks))
      ensures turn.Blocked? ==> (turn.indefinitely <==> current == [] && overflow == [])
      ensures turn.Blocked? ==> (turn.ticks == 0 <==> current == [] && tick == 0)
    {
      hide Tidy, ActiveIffListed, AllSettled, HeadSettled, TickAt, Epoch, EndOfEpoch, Conserved, NoneDue;
      NothingInWork(Lists());
      ghost var start, since := State(), EndOfEpoch(sampled);
      LastInstant(sampled);
      AllPeriods(start);
      var empty := current == [];
      HeadListed(Lists());
      var next := if empty then 0 else timers[current[0]].value;
      var switched := SampleTimeNow(tick, time, {});
      IdleOrNot(start, State(), time);
      if switched {
        turn := Switched;
        if time < old(sampled) + TICK_RANGE {
          LaterEpoch(old(sampled), time);
          SettledConserved(start, State(), since, time);
        }
      } else if !empty && next <= tick {
        ProcessExpiredTimer(next, tick, time, {});
        turn := Fired;
        HeadConserved(start, State(), time, {});
      } else {
        turn := Blocked(TickSub(next, tick), if empty then overflow == [] else false);
        BlockedUntil(Lists(), time, turn.ticks);
        NoneDueMeans(Lists(), Epoch(time), time, turn.ticks);
        LastInstant(time);
        NothingConserved(start, time);
      }
    }

    /** The state in which timer t is off the lists and its command is carried out. */
    ghost predicate InCommand(t: TimerId)
      reads `timers, `current, `overflow, `lastTime, `sampled
    {
      && Tidy(Lists()) && ActiveIffListed(Lists(), {t}) && lastTime == TickAt(sampled)
      && t in timers && !Lists().Listed(t) && timers[t].period > 0
    }

    /** Every command first takes its timer off its list, and then samples the time. */
    method BeginCommand(t: TimerId, tick: TickType, ghost time: nat)
      requires Valid({}) && t in timers && tick == TickAt(time) && sampled <= time
      requires time < sampled + TICK_RANGE || Idle(Lists().Unlisted(t))
      modifies this
      ensures InCommand(t) && sampled == time && SameKind(old(timers[t]), timers[t]) && calls[t] == old(calls[t])
      ensures forall u :: u in old(timers) && u != t ==> Conserved(old(State()), State(), u, time)
      ensures timers.Keys == old(timers.Keys)
    {
      hide Tidy, ActiveIffListed, AllSettled, TickAt, Epoch, EndOfEpoch, Conserved, Tables.Unlisted, Tables.Listed, NoneListed;
      ghost var start, since := State(), EndOfEpoch(sampled);
      LastInstant(sampled);
      TakenOff(start, t);
      if t in current {
        current := Without(current, t);
      }
      if t in overflow {
        overflow := Without(overflow, t);
      }
      UnlistedIs(start.tables, t);
      ghost var off := State();
      assert off == Account(start.tables.Unlisted(t), start.epoch, calls);
      var switched := SampleTimeNow(tick, time, {t});
      KeptInCommand(start, off, t, time);
      if time >= old(sampled) + TICK_RANGE {
        IdleInCommand(start, off, State(), t, time);
      } else if switched {
        LaterEpoch(old(sampled), time);
        SettledInCommand(start, off, State(), t, since, time);
      }
      InCommandFrom(Lists(), t);
    }

    /** tmrCOMMAND_START and tmrCOMMAND_RESET, sent at the instant commanded and carried out at time. */
    method CarryOutStart(t: TimerId, command: TickType, tick: TickType, ghost commanded: nat, ghost time: nat)
      requires InCommand(t) && sampled == time && tick == TickAt(time)
      requires commanded <= time < commanded + TICK_RANGE && command == TickAt(commanded)
      modifies `timers, `current, `overflow, `calls
      ensures Valid({})
      ensures CarriedOut(old(State()), State(), t, old(timers[t].period), Some(commanded + old(timers[t].period)), time)
    {
      hide Tidy, ActiveIffListed, OthersKept, TickAt, TickAdd, Epoch, Waited, Tables.Listed, Tables.Expiry, Called,
           ReloadedTo, Multiples, FirstAfter, CarriedOut;
      ghost var before, inForce := State(), timers[t].(active := true);
      Activated(Lists(), t, inForce);
      TickAddIs(commanded, timers[t].period);
      timers := timers[t := timers[t].(active := true)];
      assert Lists() == before.tables.SetTimer(t, inForce);
      ghost var valued := Lists();
      var next := TickAdd(command, timers[t].period);
      var expired := InsertTimerInActiveList(t, next, tick, command, commanded, time);
      KeptTwice(before.tables, valued, Lists(), t);
      if !expired {
        StartInserted(before, State(), t, commanded, time);
      } else {
        ghost var off := Lists();
        if timers[t].autoReload {
          ReloadTimer(t, next, tick, commanded + timers[t].period, time);
          StartReloaded(before, off, Lists(), t, commanded, time, calls);
        } else {
          timers := timers[t := timers[t].(active := false)];
          assert Lists() == off.SetTimer(t, off.timers[t].(active := false));
          StartExpired(before, off, Lists(), t, commanded, time);
        }
        calls := calls[t := calls[t] + 1];
      }
      CarriedOutValid(before, State(), t, inForce.period, Some(commanded + inForce.period), time);
    }

    /** tmrCOMMAND_STOP */
    method CarryOutStop(t: TimerId, ghost time: nat)
      requires InCommand(t) && sampled == time
      modifies `timers
      ensures Valid({}) && CarriedOut(old(State()), State(), t, old(timers[t].period), None, time)
    {
      ghost var before := State();
      Activated(Lists(), t, timers[t].(active := false));
      timers := timers[t := timers[t].(active := false)];
      assert Lists() == before.tables.SetTimer(t, before.tables.timers[t].(active := false));
      hide Tidy, ActiveIffListed, OthersKept, TickAt, Epoch;
      ActiveOthers(before.tables, Lists(), t);
    }

    /** tmrCOMMAND_CHANGE_PERIOD: the new period counts from now, so it cannot be over yet. */
    method CarryOutChangePeriod(t: TimerId, period: TickType, tick: TickType, ghost time: nat)
      requires InCommand(t) && sampled == time && tick == TickAt(time) && period > 0
      modifies `timers, `current, `overflow
      ensures Valid({}) && CarriedOut(old(State()), State(), t, period, Some(time + period), time)
    {
      hide Tidy, ActiveIffListed, OthersKept, TickAt, TickAdd, Epoch, Waited, Tables.Listed, Tables.Expiry, CarriedOut;
      ghost var before, inForce := State(), timers[t].(active := true, period := period);
      Activated(Lists(), t, inForce);
      TickAddIs(time, period);
      timers := timers[t := timers[t].(active := true, period := period)];
      assert Lists() == before.tables.SetTimer(t, inForce);
      ghost var valued := Lists();
      var expired := InsertTimerInActiveList(t, TickAdd(tick, period), tick, tick, time, time);
      KeptTwice(before.tables, valued, Lists(), t);
      PeriodChanged(before, State(), t, time);
      CarriedOutValid(before, State(), t, period, Some(time + period), time);
    }

    /** tmrCOMMAND_DELETE: the control block is freed. */
    method CarryOutDelete(t: TimerId)
      requires InCommand(t)
      modifies `timers
      ensures Valid({}) && timers == old(timers) - {t} && OthersKept(old(Lists()), Lists(), t)
    {
      ghost var was := Lists();
      timers := timers - {t};
      Freed(was, t);
    }

    /** One turn of the loop of prvProcessReceivedCommands. */
    method ProcessCommand(c: Command, value: TickType, tick: TickType, ghost commanded: nat, ghost time: nat)
      requires Valid({}) && c.timer in timers && (c.ChangePeriod? ==> c.period > 0)
      requires tick == TickAt(time) && sampled <= time && value == TickAt(commanded)
      requires time < sampled + TICK_RANGE || Idle(Lists().Unlisted(c.timer))
      requires c.StartTimer? ==> commanded <= time < commanded + TICK_RANGE
      modifies this
      ensures Valid({}) && sampled == time
      ensures Obeyed(old(State()), State(), c, commanded, time)
      // What becomes of the timer, in closed form: a start counts from the instant it was sent.
      ensures c.DeleteTimer? ==> c.timer !in timers
      ensures !c.DeleteTimer? ==> c.timer in timers && timers[c.timer].autoReload == old(timers)[c.timer].autoReload
      ensures c.StopTimer? ==>
                && calls[c.timer] == old(calls[c.timer]) && timers[c.timer].period == old(timers)[c.timer].period
                && !timers[c.timer].active && Lists().Expiry(Epoch(time), c.timer) == None
      ensures c.ChangePeriod? ==>
                && calls[c.timer] == old(calls[c.timer]) && timers[c.timer].period == c.period
                && timers[c.timer].active && Lists().Expiry(Epoch(time), c.timer) == Some(time + c.period)
      ensures c.StartTimer? ==>
                var p := old(timers)[c.timer].period;
                var x := commanded + p;
                && p > 0 && timers[c.timer].period == p
                && (time < x ==>
                      && calls[c.timer] == old(calls[c.timer]) && timers[c.timer].active
                      && Lists().Expiry(Epoch(time), c.timer) == Some(x))
                && (x <= time && !timers[c.timer].autoReload ==>
                      && calls[c.timer] == old(calls[c.timer]) + 1 && !timers[c.timer].active
                      && Lists().Expiry(Epoch(time), c.timer) == None)
                && (x <= time && timers[c.timer].autoReload ==>
                      var k := (time - x) / p + 1;
                      && calls[c.timer] == old(calls[c.timer]) + k && timers[c.timer].active
                      && Lists().Expiry(Epoch(time), c.timer) == Some(x + k * p))
      ensures forall u :: u in old(timers) && u != c.timer ==> Conserved(old(State()), State(), u, time)
    {
      hide Tidy, ActiveIffListed, OthersKept, TickAt, Epoch, Conserved, CarriedOut, Tables.Listed, Tables.Expiry;
      ghost var start := State();
      BeginCommand(c.timer, tick, time);
      ghost var mid, period0 := State(), timers[c.timer].period;
      match c {
        case StartTimer(t) =>
          CarryOutStart(t, value, tick, commanded, time);
          OthersConserved(start, mid, State(), t, period0, Some(commanded + period0), time);
        case StopTimer(t) =>
          CarryOutStop(t, time);
          OthersConserved(start, mid, State(), t, period0, None, time);
        case ChangePeriod(t, period) =>
          CarryOutChangePeriod(t, period, tick, time);
          OthersConserved(start, mid, State(), t, period, Some(time + period), time);
        case DeleteTimer(t) =>
          CarryOutDelete(t);
          FreedConserved(start, mid, State(), t, time);
      }
      CommandMeans(start, State(), c, commanded, time);
    }

    /** xTimerCreate: a new timer is dormant until a command starts it. */
    method CreateTimer(t: TimerId, period: TickType, autoReload: bool)
      requires Valid({}) && t !in timers && period > 0
      modifies `timers
      ensures Valid({}) && timers == old(timers)[t := Timer(period, autoReload, false, 0)]
      ensures Lists().Expiry(Epoch(sampled), t) == None
      ensures OthersKept(old(Lists()), Lists(), t)
    {
      NotListed(Lists(), t);
      SetTimerTidy(Lists(), t, Timer(period, autoReload, false, 0));
      assert Lists().SetTimer(t, Timer(period, autoReload, false, 0)) ==
        Tables(timers[t := Timer(period, autoReload, false, 0)], current, overflow);
      timers := timers[t := Timer(period, autoReload, false, 0)];
    }

    /**
      A run of prvTimerTask: any number of looks at the lists and messages handled; trace has
      the state before each of them and after the last.  A message has its effect at once,
      and from any point on, a timer that no later message names gets the callbacks it is
      owed there: when a last look at the instant last lets the daemon block, exactly those.
      The run ends early only at an event that finds a timer active after a full turn of
      the tick count without a sample.
     */
    method RunTask(from: nat, events: seq<Event>, last: nat) returns (handled: nat, turn: Option<Turn>, ghost trace: seq<Account>)
      requires Valid({}) && sampled == from && AllKnown(timers.Keys, events) && InOrder(from, events + [Look(last)])
      modifies this
      ensures Valid({}) && handled <= |events| && |trace| == handled + 1 && trace[0] == old(State())
      ensures handled < |events| ==>
                turn == None && !InTime(Lists(), TimeBefore(from, events, handled), events[handled])
      ensures handled == |events| ==>
                (turn.Some? <==> InTime(trace[handled].tables, TimeBefore(from, events, handled), Look(last)))
      ensures AllObeyed(events, handled, trace)
      ensures AllConserved(events, handled, trace, State(), if turn.Some? then last else TimeBefore(from, events, handled))
      ensures turn.Some? ==> sampled == last
      ensures turn.Some? && turn.value.Blocked? ==>
                && NoneDue(Lists(), Epoch(last), last, turn.value.ticks)
                && forall i, u :: 0 <= i <= |events| && u in trace[i].tables.timers && !Names(events, i, |events|, u) ==>
                     CallbacksMade(trace[i], State(), u, last)
    {
      hide Tidy, ActiveIffListed, Conserved, Obeyed, TickAt, Epoch, Names, NoneDue, HeadSettled, CallbacksMade,
           Tables.Expiry, Tables.Listed, AllObeyed, AllConserved;
      ghost var all := events + [Look(last)];
      trace := [State()];
      AllPeriods(State());
      RunStarts(events, State(), sampled);
      handled := 0;
      while handled < |events| && InTime(Lists(), TimeBefore(from, events, handled), events[handled])
        invariant handled <= |events| && Valid({}) && sampled == TimeBefore(from, events, handled)
        invariant |trace| == handled + 1 && trace[0] == old(State()) && trace[handled] == State()
        invariant AllObeyed(events, handled, trace) && AllConserved(events, handled, trace, State(), sampled)
        invariant Known(events, handled, timers.Keys)
      {
        ghost var before, since := State(), sampled;
        assert all[handled] == events[handled];
        NextEvent(from, all, handled);
        HandleEvent(events[handled]);
        if events[handled].Look? {
          StillKnownLook(before, State(), events, handled, sampled);
        } else {
          var m := events[handled].message;
          StillKnown(before, State(), events, handled, trace[0].tables.timers.Keys, m.sent, m.handled);
        }
        AllPeriods(State());
        RunGoesOn(events, handled, trace, before, State(), since, sampled);
        trace := trace + [State()];
        handled := handled + 1;
      }
      turn := None;
      if handled == |events| && InTime(Lists(), TimeBefore(from, events, handled), Look(last)) {
        ghost var before, since := State(), sampled;
        NextEvent(from, all, handled);
        var t := TakeTurn(TickAt(last), last);
        LastLook(events, trace, before, State(), since, last);
        if t.Blocked? {
          MadeForAll(events, trace, State(), last, t.ticks);
        }
        turn := Some(t);
      }
    }

    method HandleEvent(e: Event)
      requires Valid({}) && Orderly(sampled, e) && InTime(Lists(), sampled, e)
      requires e.Handle? ==> e.message.command.timer in timers
      modifies this
      ensures Valid({}) && sampled == TimeOf(e)
      ensures forall u :: u in old(timers) && !HandlesTimer(e, u) ==> Conserved(old(State()), State(), u, sampled)
      ensures e.Handle? ==> Obeyed(old(State()), State(), e.message.command, e.message.sent, e.message.handled)
    {
      hide Tidy, ActiveIffListed, Conserved, Obeyed, TickAt, Epoch, NoneDue, HeadSettled, Tables.Expiry, Tables.Listed;
      if e.Look? {
        var _ := TakeTurn(TickAt(e.time), e.time);
      } else {
        var m := e.message;
        ProcessCommand(m.command, TickAt(m.sent), TickAt(m.handled), m.sent, m.handled);
      }
    }
  }

  /** The tables after prvInsertTimerInActiveList. */
  function Inserted(d: Tables, t: TimerId, next: TickType, now: TickType, command: TickType): Tables
    requires t in d.timers
  {
    var v := d.SetTimer(t, d.timers[t].(value := next));
    if AlreadyExpired(next, now, command, d.timers[t].period) then v
    else if next <= now then v.IntoOverflow(t)
    else v.IntoCurrent(t)
  }

  ghost predicate InsertedOk(d: Tables, r: Tables, t: TimerId, next: TickType)
    requires t in d.timers
  {
    Tidy(r) && OthersKept(d, r, t) && t in r.timers && r.timers[t] == d.timers[t].(value := next)
  }

  /** The tables with the timer put on one of the lists, or on none. */
  lemma ListedTables(d: Tables, t: TimerId, next: TickType, epoch: nat)
    requires Tidy(d) && t in d.timers && !d.Listed(t)
    ensures var v := d.SetTimer(t, d.timers[t].(value := next));
            && t in v.timers && InsertedOk(d, v, t, next) && !v.Listed(t) && v.current == d.current
            && InsertedOk(d, v.IntoOverflow(t), t, next) && v.IntoOverflow(t).Listed(t)
            && v.IntoOverflow(t).current == d.current
            && v.IntoOverflow(t).Expiry(epoch, t) == Some((epoch + 1) * TICK_RANGE + next)
            && InsertedOk(d, v.IntoCurrent(t), t, next) && v.IntoCurrent(t).Listed(t)
            && v.IntoCurrent(t).Expiry(epoch, t) == Some(epoch * TICK_RANGE + next)
  {
    SetTimerTidy(d, t, d.timers[t].(value := next));
    InsertedTidy(d.SetTimer(t, d.timers[t].(value := next)), t, epoch);
    hide Tidy, Put, SortedPosition, Values, Tables.Expiry;
  }

  /** The list operations alone: next, now and command are any ticks, expiry any instant. */
  lemma InsertedOnList(d: Tables, t: TimerId, next: TickType, now: TickType, command: TickType, epoch: nat, expiry: nat)
    requires Tidy(d) && t in d.timers && !d.Listed(t)
    ensures var expired := AlreadyExpired(next, now, command, d.timers[t].period);
            var r := Inserted(d, t, next, now, command);
            && InsertedOk(d, r, t, next) && (r.Listed(t) <==> !expired)
            && (!expired && expiry == (if next <= now then epoch + 1 else epoch) * TICK_RANGE + next ==>
                  r.Expiry(epoch, t) == Some(expiry))
            && (now == PORT_MAX_DELAY ==> r.current == d.current)
  {
    ListedTables(d, t, next, epoch);
    hide Tidy, InsertedOk, Tables.IntoOverflow, Tables.IntoCurrent, Tables.SetTimer, AlreadyExpired, Tables.Expiry, Tables.Listed;
  }

  lemma Judgement(d: Tables, t: TimerId, commanded: nat, time: nat, epoch: nat)
    requires Tidy(d) && t in d.timers && !d.Listed(t) && commanded <= time && Epoch(time) == epoch
    ensures var period := d.timers[t].period;
            var next, expired := TickAt(commanded + period), Waited(commanded, time) >= period;
            var r := Inserted(d, t, next, TickAt(time), TickAt(commanded));
            && InsertedOk(d, r, t, next) && (r.Listed(t) <==> !expired)
            && (AlreadyExpired(next, TickAt(time), TickAt(commanded), period) <==> expired)
            && (time - commanded < TICK_RANGE ==> Waited(commanded, time) == time - commanded)
            && (!expired && time - commanded < TICK_RANGE ==> r.Expiry(epoch, t) == Some(commanded + period))
            && (TickAt(time) == PORT_MAX_DELAY ==> r.current == d.current)
  {
    var period := d.timers[t].period;
    AlreadyExpiredIff(commanded, time, period);
    if time < commanded + period {
      ListOfExpiry(commanded, time, period);
    }
    InsertedOnList(d, t, TickAt(commanded + period), TickAt(time), TickAt(commanded), epoch, commanded + period);
    hide *;
  }

  lemma WaitedIs(commanded: nat, time: nat)
    requires commanded <= time
    ensures Waited(commanded, time) == (time - commanded) % TICK_RANGE
  {
  }

  lemma KeptTwice(a: Tables, b: Tables, c: Tables, t: TimerId)
    requires OthersKept(a, b, t) && OthersKept(b, c, t)
    ensures OthersKept(a, c, t)
  {
  }

  /** The head is active and due; it comes off the list. */
  lemma HeadFacts(d: Tables, epoch: nat, time: nat, inWork: set<TimerId>)
    requires Tidy(d) && ActiveIffListed(d, inWork) && d.current != []
    requires d.current[0] in d.timers && d.current[0] !in inWork
    requires d.timers[d.current[0]].value <= TickAt(time) && Epoch(time) == epoch
    ensures var t := d.current[0];
            var e := epoch * TICK_RANGE + d.timers[t].value;
            && d.Expiry(epoch, t) == Some(e) && e <= time < e + TICK_RANGE && TickAt(e) == d.timers[t].value
            && d.timers[t].active && d.timers[t].period > 0
            && d.Unlisted(t) == d.(current := Drop(d.current, 0))
            && Tidy(d.Unlisted(t)) && !d.Unlisted(t).Listed(t) && OthersKept(d, d.Unlisted(t), t)
  {
    var t := d.current[0];
    assert t in d.current;
    TickParts(time);
    PositionUnique(d.current, 0);
    UnlistedTidy(d, t);
    assert d.Listed(t);
  }

  lemma ActiveKept(a: Tables, b: Tables, t: TimerId, inWork: set<TimerId>)
    requires ActiveIffListed(a, inWork) && OthersKept(a, b, t) && t in b.timers
    requires b.timers[t].active <==> b.Listed(t)
    ensures ActiveIffListed(b, inWork)
  {
  }

  lemma AutoReloadDone(d: Tables, r: Tables, epoch: nat, time: nat, inWork: set<TimerId>,
                       before: multiset<TimerId>, calls: multiset<TimerId>)
    requires Tidy(d) && ActiveIffListed(d, inWork) && d.current != [] && d.current[0] in d.timers
    requires var t := d.current[0];
             var timer := d.timers[t];
             var e := epoch * TICK_RANGE + timer.value;
             && e <= time && timer.period > 0 && timer.active && timer.autoReload && d.Expiry(epoch, t) == Some(e)
             && OthersKept(d, d.Unlisted(t), t)
             && ReloadedTo(d.Unlisted(t), r, epoch, t, Some(FirstAfter(e + timer.period, timer.period, time)))
             && Called(before, calls, t, Multiples(e + timer.period, timer.period, time))
    ensures var t := d.current[0];
            HeadSettled(Account(d, epoch, before), Account(r, epoch, calls[t := calls[t] + 1]), time, inWork)
  {
    var t := d.current[0];
    MultiplesStep(epoch * TICK_RANGE + d.timers[t].value, d.timers[t].period, time);
    KeptTwice(d, d.Unlisted(t), r, t);
    ActiveKept(d, r, t, inWork);
    hide Tidy, OthersKept, ActiveIffListed, Multiples, FirstAfter;
  }

  lemma OneShotDone(d: Tables, r: Tables, epoch: nat, time: nat, inWork: set<TimerId>, before: multiset<TimerId>)
    requires Tidy(d) && ActiveIffListed(d, inWork) && d.current != [] && d.current[0] in d.timers
    requires var t := d.current[0];
             var e := epoch * TICK_RANGE + d.timers[t].value;
             && e <= time && !d.timers[t].autoReload && d.Expiry(epoch, t) == Some(e) && d.timers[t].period > 0
             && Tidy(d.Unlisted(t)) && !d.Unlisted(t).Listed(t) && OthersKept(d, d.Unlisted(t), t)
             && r == d.Unlisted(t).SetTimer(t, d.timers[t].(active := false))
    ensures var t := d.current[0];
            HeadSettled(Account(d, epoch, before), Account(r, epoch, before[t := before[t] + 1]), time, inWork)
  {
    var t := d.current[0];
    SetTimerTidy(d.Unlisted(t), t, d.timers[t].(active := false));
    KeptTwice(d, d.Unlisted(t), r, t);
    ActiveKept(d, r, t, inWork);
    hide Tidy, OthersKept, ActiveIffListed;
  }

  // ---------------------------------------------------------------- switching the lists

  ghost predicate NoneListed(d: Tables, inWork: set<TimerId>) {
    forall t :: t in inWork ==> !d.Listed(t)
  }

  /** Timers still on the list that is drained are as they were, all others are settled. */
  ghost predicate Draining(a: Account, b: Account, n: nat, inWork: set<TimerId>) {
    && SameTimers(a, b) && a.epoch == b.epoch && NoneListed(b.tables, inWork)
    && (forall t :: t in a.tables.timers ==>
          if t in b.tables.current then KeptFor(a, b, t) else SettledFor(a, b, t, n))
  }

  lemma LastInstant(time: nat)
    ensures TickAt(EndOfEpoch(time)) == PORT_MAX_DELAY && Epoch(EndOfEpoch(time)) == Epoch(time)
    ensures EndOfEpoch(time) == Epoch(time) * TICK_RANGE + PORT_MAX_DELAY
  {
  }

  lemma DrainStart(a: Account, n: nat, inWork: set<TimerId>)
    requires Tidy(a.tables) && NoneListed(a.tables, inWork) && n == a.epoch * TICK_RANGE + PORT_MAX_DELAY
    ensures Draining(a, a, n, inWork)
  {
    hide NoneListed;
  }

  lemma DrainHead(a: Account, b: Account, n: nat, inWork: set<TimerId>)
    requires Tidy(b.tables) && Draining(a, b, n, inWork) && b.tables.current != []
    ensures b.tables.current[0] in b.tables.timers && b.tables.current[0] !in inWork
  {
    assert b.tables.current[0] in b.tables.current;
    assert b.tables.Listed(b.tables.current[0]);
  }

  lemma DrainStepFor(a: Account, b: Account, c: Account, n: nat, inWork: set<TimerId>, t: TimerId)
    requires Tidy(b.tables) && Draining(a, b, n, inWork) && HeadSettled(b, c, n, inWork)
    requires c.tables.current == Drop(b.tables.current, 0) && t in a.tables.timers
    ensures t in c.tables.timers
    ensures if t in c.tables.current then KeptFor(a, c, t) else SettledFor(a, c, t, n)
  {
    var h := b.tables.current[0];
    assert h in b.tables.current;
    DropNoDuplicates(b.tables.current, 0);
    hide Owed, Settled, NoneListed, ActiveIffListed, Drop;
    if t == h {
      assert KeptFor(a, b, t) && SettledFor(b, c, t, n);
    } else {
      assert b.tables.timers[t] == c.tables.timers[t];
    }
  }

  lemma NoneListedStep(b: Tables, c: Tables, h: TimerId, inWork: set<TimerId>)
    requires NoneListed(b, inWork) && OthersKept(b, c, h) && h !in inWork
    ensures NoneListed(c, inWork)
  {
    forall t | t in inWork
      ensures !c.Listed(t)
    {
      assert !b.Listed(t);
    }
  }

  lemma DrainStep(a: Account, b: Account, c: Account, n: nat, inWork: set<TimerId>)
    requires Tidy(b.tables) && Draining(a, b, n, inWork) && HeadSettled(b, c, n, inWork)
    requires c.tables.current == Drop(b.tables.current, 0) && b.tables.current[0] !in inWork
    ensures Draining(a, c, n, inWork)
  {
    NoneListedStep(b.tables, c.tables, b.tables.current[0], inWork);
    assert SameTimers(a, c);
    hide Tidy, NoneListed, ActiveIffListed, KeptFor, SettledFor, Drop, OthersKept;
    forall t | t in a.tables.timers
      ensures t in c.tables.timers && if t in c.tables.current then KeptFor(a, c, t) else SettledFor(a, c, t, n)
    {
      DrainStepFor(a, b, c, n, inWork, t);
    }
  }

  lemma DrainEnd(a: Account, b: Account, n: nat, inWork: set<TimerId>)
    requires Tidy(b.tables) && ActiveIffListed(b.tables, inWork) && Draining(a, b, n, inWork) && b.tables.current == []
    ensures var d := Tables(b.tables.timers, b.tables.overflow, b.tables.current);
            && Tidy(d) && ActiveIffListed(d, inWork) && NoneListed(d, inWork)
            && AllSettled(a, Account(d, b.epoch + 1, b.calls), n)
  {
    var d := Tables(b.tables.timers, b.tables.overflow, b.tables.current);
    forall t
      ensures d.Listed(t) == b.tables.Listed(t)
    {
    }
    hide Owed, Settled;
    forall t | t in a.tables.timers
      ensures SettledFor(a, Account(d, b.epoch + 1, b.calls), t, n)
    {
      assert SettledFor(a, b, t, n);
    }
  }

  /** The head of the current list, in closed form. */
  lemma HeadMeans(a: Account, b: Account, n: nat, inWork: set<TimerId>)
    requires HeadSettled(a, b, n, inWork) && a.tables.current[0] !in inWork
    requires var t := a.tables.current[0]; a.epoch * TICK_RANGE + a.tables.timers[t].value <= n
    ensures var t := a.tables.current[0];
            var p, x := a.tables.timers[t].period, a.epoch * TICK_RANGE + a.tables.timers[t].value;
            && t in b.tables.timers && p > 0
            && (!a.tables.timers[t].autoReload ==>
                  b.calls[t] == a.calls[t] + 1 && b.tables.Expiry(b.epoch, t) == None && !b.tables.timers[t].active)
            && (a.tables.timers[t].autoReload ==>
                  var k := (n - x) / p + 1;
                  && b.calls[t] == a.calls[t] + k && b.tables.Expiry(b.epoch, t) == Some(x + k * p)
                  && b.tables.timers[t].active)
  {
    var t := a.tables.current[0];
    assert t in a.tables.current;
    SettledClosedForm(a.tables.timers[t], a.epoch * TICK_RANGE + a.tables.timers[t].value, n);
    hide Owed, Settled, Tidy, OthersKept;
  }

  lemma HeadSettledValid(a: Account, b: Account, n: nat, inWork: set<TimerId>)
    requires HeadSettled(a, b, n, inWork)
    ensures Tidy(b.tables) && ActiveIffListed(b.tables, inWork)
  {
  }

  // ---------------------------------------------------------------- turns of the daemon

  lemma NothingInWork(d: Tables)
    ensures NoneListed(d, {})
  {
  }

  lemma HeadListed(d: Tables)
    requires Tidy(d)
    ensures d.current != [] ==> d.current[0] in d.timers
  {
    if d.current != [] {
      assert d.current[0] in d.current;
    }
  }

  lemma AllPeriods(a: Account)
    requires Tidy(a.tables)
    ensures forall t :: t in a.tables.timers ==> a.tables.timers[t].period > 0
  {
  }

  lemma LaterEpoch(last: nat, time: nat)
    requires last <= time && Epoch(last) != Epoch(time)
    ensures EndOfEpoch(last) <= time
  {
    TickParts(last);
    TickParts(time);
  }

  lemma SettledConserved(a: Account, b: Account, n: nat, from: nat)
    requires AllSettled(a, b, n) && n <= from
    ensures forall t :: t in a.tables.timers ==> Conserved(a, b, t, from)
  {
    forall t | t in a.tables.timers
      ensures Conserved(a, b, t, from)
    {
      CallbacksConserved(a, b, t, n, from);
    }
  }

  lemma HeadConserved(a: Account, b: Account, n: nat, inWork: set<TimerId>)
    requires HeadSettled(a, b, n, inWork)
    requires forall t :: t in a.tables.timers ==> a.tables.timers[t].period > 0
    ensures forall t :: t in a.tables.timers ==> Conserved(a, b, t, n)
  {
    forall t | t in a.tables.timers
      ensures Conserved(a, b, t, n)
    {
      assert t != a.tables.current[0] ==> KeptFor(a, b, t);
      CallbacksConserved(a, b, t, n, n);
    }
  }

  lemma IdleOrNot(a: Account, b: Account, from: nat)
    requires forall t :: t in a.tables.timers ==> a.tables.timers[t].period > 0
    ensures Idle(a.tables) && b.tables == a.tables && b.calls == a.calls ==>
              forall t :: t in a.tables.timers ==> Conserved(a, b, t, from)
  {
    hide Conserved;
    if Idle(a.tables) && b.tables == a.tables && b.calls == a.calls {
      IdleConserved(a, b, from);
    }
  }

  lemma NothingConserved(a: Account, from: nat)
    requires forall t :: t in a.tables.timers ==> a.tables.timers[t].period > 0
    ensures forall t :: t in a.tables.timers ==> Conserved(a, a, t, from)
  {
  }

  /** No timer expires by the instant time, or within the ticks after it. */
  ghost predicate NoneDue(d: Tables, epoch: nat, time: nat, ticks: nat) {
    && (forall t :: t in d.timers && d.Listed(t) ==>
          var x := d.Expiry(epoch, t);
          x.Some? && x.value > time && x.value >= time + ticks)
    && (d.current != [] ==> d.current[0] in d.timers && d.Expiry(epoch, d.current[0]) == Some(time + ticks))
  }

  lemma NoneDueMeans(d: Tables, epoch: nat, time: nat, ticks: nat)
    requires NoneDue(d, epoch, time, ticks)
    ensures forall t :: t in d.timers && d.Listed(t) ==>
              var x := d.Expiry(epoch, t);
              x.Some? && x.value > time && x.value >= time + ticks
    ensures d.current != [] ==> d.current[0] in d.timers && d.Expiry(epoch, d.current[0]) == Some(time + ticks)
  {
  }

  lemma BlockedUntil(d: Tables, time: nat, ticks: TickType)
    requires Tidy(d) && (d.current == [] || d.current[0] in d.timers)
    requires d.current != [] ==> d.timers[d.current[0]].value > TickAt(time)
    requires ticks == TickSub(if d.current == [] then 0 else d.timers[d.current[0]].value, TickAt(time))
    ensures NoneDue(d, Epoch(time), time, ticks)
    ensures time + ticks <= EndOfEpoch(time) + 1
    ensures d.current == [] && TickAt(time) > 0 ==> time + ticks == EndOfEpoch(time) + 1
  {
    TickParts(time);
    forall t | t in d.timers && d.Listed(t)
      ensures var x := d.Expiry(Epoch(time), t);
              x.Some? && x.value > time && x.value >= time + ticks
    {
      if d.current != [] {
        assert d.current[0] in d.current;
        HeadIsEarliest(d, Epoch(time), t);
      }
    }
    if d.current != [] {
      assert d.current[0] in d.current;
    }
  }

  /** A blocked daemon owes no callback. */
  lemma NothingOwed(d: Tables, epoch: nat, time: nat, ticks: nat, t: TimerId)
    requires NoneDue(d, epoch, time, ticks) && t in d.timers && d.timers[t].period > 0
    ensures Owed(d.timers[t], d.Expiry(epoch, t), time) == 0
  {
    if d.Listed(t) {
      assert d.Expiry(epoch, t).value > time;
    }
  }

  // ---------------------------------------------------------------- commands

  lemma TakenOff(a: Account, t: TimerId)
    requires Tidy(a.tables) && ActiveIffListed(a.tables, {}) && t in a.tables.timers
    ensures var off := Account(a.tables.Unlisted(t), a.epoch, a.calls);
            && Tidy(off.tables) && ActiveIffListed(off.tables, {t}) && NoneListed(off.tables, {t})
            && off.tables.timers == a.tables.timers && off.tables.Expiry(a.epoch, t) == None
            && a.tables.timers[t].period > 0
            && (forall u :: u in a.tables.timers && u != t ==> KeptFor(a, off, u))
  {
    UnlistedTidy(a.tables, t);
    hide Tables.Unlisted, Tidy;
  }

  lemma UnlistedIs(d: Tables, t: TimerId)
    ensures d.Unlisted(t) == d.(current := if t in d.current then Without(d.current, t) else d.current,
                                overflow := if t in d.overflow then Without(d.overflow, t) else d.overflow)
  {
  }

  lemma SettledInCommand(a: Account, off: Account, b: Account, t: TimerId, n: nat, time: nat)
    requires AllSettled(off, b, n) && n <= time && t in a.tables.timers && off.tables.timers == a.tables.timers
    requires off.tables.Expiry(off.epoch, t) == None
    requires forall u :: u in a.tables.timers && u != t ==> KeptFor(a, off, u)
    ensures t in b.tables.timers && SameKind(a.tables.timers[t], b.tables.timers[t]) && b.calls[t] == off.calls[t]
    ensures forall u :: u in a.tables.timers && u != t ==> Conserved(a, b, u, time)
    ensures b.tables.timers.Keys == a.tables.timers.Keys
  {
    assert SettledFor(off, b, t, n);
    forall u | u in a.tables.timers && u != t
      ensures Conserved(a, b, u, time)
    {
      CallbacksConserved(a, off, u, n, time);
      CallbacksConserved(off, b, u, n, time);
      ConservedTwice(a, off, b, u, time);
    }
  }

  lemma IdleInCommand(a: Account, off: Account, b: Account, t: TimerId, time: nat)
    requires Idle(off.tables) && b.tables == off.tables && b.calls == off.calls
    requires off.tables.timers == a.tables.timers && t in a.tables.timers
    requires forall u :: u in a.tables.timers && u != t ==> Conserved(a, off, u, time)
    ensures SameKind(a.tables.timers[t], b.tables.timers[t])
    ensures forall u :: u in a.tables.timers && u != t ==> Conserved(a, b, u, time)
  {
    IdleConserved(off, b, time);
    forall u | u in a.tables.timers && u != t
      ensures Conserved(a, b, u, time)
    {
      assert Conserved(a, off, u, time);
      ConservedTwice(a, off, b, u, time);
    }
  }

  lemma KeptInCommand(a: Account, off: Account, t: TimerId, time: nat)
    requires Tidy(a.tables) && off.tables.timers == a.tables.timers
    requires forall u :: u in a.tables.timers && u != t ==> KeptFor(a, off, u)
    ensures forall u :: u in a.tables.timers && u != t ==> Conserved(a, off, u, time)
  {
    forall u | u in a.tables.timers && u != t
      ensures Conserved(a, off, u, time)
    {
      CallbacksConserved(a, off, u, time, time);
    }
  }

  lemma ConservedTwice(a: Account, b: Account, c: Account, t: TimerId, from: nat)
    requires Conserved(a, b, t, from) && Conserved(b, c, t, from)
    ensures Conserved(a, c, t, from)
  {
    hide Total;
    forall horizon | horizon >= from
      ensures Total(c, t, horizon) == Total(a, t, horizon)
    {
      assert Total(b, t, horizon) == Total(a, t, horizon);
    }
  }

  lemma InCommandFrom(d: Tables, t: TimerId)
    requires Tidy(d) && NoneListed(d, {t})
    ensures !d.Listed(t) && (t in d.timers ==> d.timers[t].period > 0)
  {
  }

  /** Timer t now has this period and is settled by time as if it had been due to expire at x. */
  ghost predicate CarriedOut(a: Account, b: Account, t: TimerId, period: nat, x: Option<nat>, time: nat) {
    && Tidy(b.tables) && ActiveIffListed(b.tables, {}) && b.epoch == a.epoch
    && b.tables.timers.Keys == a.tables.timers.Keys && OthersKept(a.tables, b.tables, t)
    && (forall u :: u != t ==> b.calls[u] == a.calls[u])
    && t in b.tables.timers && b.tables.timers[t].period == period > 0
    && b.tables.timers[t].autoReload == a.tables.timers[t].autoReload
    && b.tables.Expiry(b.epoch, t) == Settled(b.tables.timers[t], x, time)
    && b.calls[t] == a.calls[t] + Owed(b.tables.timers[t], x, time)
  }

  lemma Activated(d: Tables, t: TimerId, timer: Timer)
    requires Tidy(d) && t in d.timers && !d.Listed(t) && timer.period > 0
    ensures Tidy(d.SetTimer(t, timer)) && OthersKept(d, d.SetTimer(t, timer), t) && !d.SetTimer(t, timer).Listed(t)
  {
    SetTimerTidy(d, t, timer);
  }

  lemma CarriedOutValid(a: Account, b: Account, t: TimerId, period: nat, x: Option<nat>, time: nat)
    requires CarriedOut(a, b, t, period, x, time)
    ensures Tidy(b.tables) && ActiveIffListed(b.tables, {})
  {
  }

  ghost predicate StartedFrom(a: Account, off: Tables, t: TimerId) {
    && ActiveIffListed(a.tables, {t}) && OthersKept(a.tables, off, t) && Tidy(off)
    && t in a.tables.timers && t in off.timers && off.timers.Keys == a.tables.timers.Keys
    && SameKind(a.tables.timers[t], off.timers[t]) && off.timers[t].active && off.timers[t].period > 0
  }

  lemma ActiveOthers(a: Tables, b: Tables, t: TimerId)
    requires ActiveIffListed(a, {t}) && OthersKept(a, b, t) && t in b.timers && (b.timers[t].active <==> b.Listed(t))
    ensures ActiveIffListed(b, {})
  {
  }

  lemma StartInserted(a: Account, b: Account, t: TimerId, commanded: nat, time: nat)
    requires StartedFrom(a, b.tables, t) && b.tables.Listed(t) && b.epoch == a.epoch && b.calls == a.calls
    requires var x := commanded + b.tables.timers[t].period;
             x > time && b.tables.Expiry(b.epoch, t) == Some(x)
    ensures CarriedOut(a, b, t, a.tables.timers[t].period, Some(commanded + a.tables.timers[t].period), time)
  {
    ActiveOthers(a.tables, b.tables, t);
    hide Tidy, ActiveIffListed, OthersKept, Multiples, FirstAfter;
  }

  lemma StartReloaded(a: Account, off: Tables, d: Tables, t: TimerId, commanded: nat, time: nat, calls: multiset<TimerId>)
    requires StartedFrom(a, off, t) && off.timers[t].autoReload
    requires var p := off.timers[t].period;
             var x := commanded + p;
             && x <= time && ReloadedTo(off, d, a.epoch, t, Some(FirstAfter(x + p, p, time)))
             && Called(a.calls, calls, t, Multiples(x + p, p, time))
    ensures CarriedOut(a, Account(d, a.epoch, calls[t := calls[t] + 1]), t, a.tables.timers[t].period,
                       Some(commanded + a.tables.timers[t].period), time)
  {
    var p := off.timers[t].period;
    MultiplesStep(commanded + p, p, time);
    KeptTwice(a.tables, off, d, t);
    ActiveOthers(a.tables, d, t);
    hide Tidy, ActiveIffListed, OthersKept, Multiples, FirstAfter;
  }

  lemma StartExpired(a: Account, off: Tables, d: Tables, t: TimerId, commanded: nat, time: nat)
    requires StartedFrom(a, off, t) && !off.timers[t].autoReload && !off.Listed(t)
    requires commanded + off.timers[t].period <= time && d == off.SetTimer(t, off.timers[t].(active := false))
    ensures CarriedOut(a, Account(d, a.epoch, a.calls[t := a.calls[t] + 1]), t, a.tables.timers[t].period,
                       Some(commanded + a.tables.timers[t].period), time)
  {
    SetTimerTidy(off, t, off.timers[t].(active := false));
    KeptTwice(a.tables, off, d, t);
    ActiveOthers(a.tables, d, t);
    hide Tidy, ActiveIffListed, OthersKept, Multiples, FirstAfter;
  }

  lemma PeriodChanged(a: Account, b: Account, t: TimerId, time: nat)
    requires ActiveIffListed(a.tables, {t}) && OthersKept(a.tables, b.tables, t) && Tidy(b.tables)
    requires t in a.tables.timers && t in b.tables.timers && b.tables.timers.Keys == a.tables.timers.Keys
    requires a.tables.timers[t].autoReload == b.tables.timers[t].autoReload
    requires b.tables.timers[t].active && b.tables.timers[t].period > 0
    requires b.epoch == a.epoch && b.calls == a.calls && b.tables.Listed(t)
    requires b.tables.Expiry(b.epoch, t) == Some(time + b.tables.timers[t].period)
    ensures CarriedOut(a, b, t, b.tables.timers[t].period, Some(time + b.tables.timers[t].period), time)
  {
    ActiveOthers(a.tables, b.tables, t);
    hide Tidy, ActiveIffListed, OthersKept, Multiples, FirstAfter;
  }

  lemma Freed(d: Tables, t: TimerId)
    requires Tidy(d) && ActiveIffListed(d, {t}) && t in d.timers && !d.Listed(t)
    ensures var f := d.(timers := d.timers - {t});
            Tidy(f) && ActiveIffListed(f, {}) && OthersKept(d, f, t)
  {
    var f := d.(timers := d.timers - {t});
    assert Values(f.timers, d.current) == Values(d.timers, d.current);
    assert Values(f.timers, d.overflow) == Values(d.timers, d.overflow);
  }

  /** The timer commanded ends with its new period and is settled from the instant the command set. */
  ghost predicate Obeyed(a: Account, b: Account, c: Command, commanded: nat, time: nat) {
    && c.timer in a.tables.timers
    && var p := if c.ChangePeriod? then c.period else a.tables.timers[c.timer].period;
       var x := if c.StopTimer? then None else Some(if c.ChangePeriod? then time + p else commanded + p);
       if c.DeleteTimer? then c.timer !in b.tables.timers
       else
         && c.timer in b.tables.timers && b.tables.timers[c.timer].period == p > 0
         && b.tables.timers[c.timer].autoReload == a.tables.timers[c.timer].autoReload
         && b.tables.Expiry(b.epoch, c.timer) == Settled(b.tables.timers[c.timer], x, time)
         && b.calls[c.timer] == a.calls[c.timer] + Owed(b.tables.timers[c.timer], x, time)
  }

  /** The same in closed form. */
  lemma CommandMeans(a: Account, b: Account, c: Command, commanded: nat, time: nat)
    requires Obeyed(a, b, c, commanded, time) && ActiveIffListed(b.tables, {})
    ensures c.timer in a.tables.timers
    ensures c.DeleteTimer? ==> c.timer !in b.tables.timers
    ensures !c.DeleteTimer? ==>
              c.timer in b.tables.timers && b.tables.timers[c.timer].autoReload == a.tables.timers[c.timer].autoReload
    ensures c.StopTimer? ==>
              var t := b.tables.timers[c.timer];
              && b.calls[c.timer] == a.calls[c.timer] && t.period == a.tables.timers[c.timer].period
              && !t.active && b.tables.Expiry(b.epoch, c.timer) == None
    ensures c.ChangePeriod? ==>
              var t := b.tables.timers[c.timer];
              && b.calls[c.timer] == a.calls[c.timer] && t.period == c.period
              && t.active && b.tables.Expiry(b.epoch, c.timer) == Some(time + c.period)
    ensures c.StartTimer? ==>
              var t, p := b.tables.timers[c.timer], a.tables.timers[c.timer].period;
              var x := commanded + p;
              && p > 0 && t.period == p
              && (time < x ==>
                    b.calls[c.timer] == a.calls[c.timer] && t.active && b.tables.Expiry(b.epoch, c.timer) == Some(x))
              && (x <= time && !t.autoReload ==>
                    b.calls[c.timer] == a.calls[c.timer] + 1 && !t.active && b.tables.Expiry(b.epoch, c.timer) == None)
              && (x <= time && t.autoReload ==>
                    var k := (time - x) / p + 1;
                    && b.calls[c.timer] == a.calls[c.timer] + k && t.active
                    && b.tables.Expiry(b.epoch, c.timer) == Some(x + k * p))
  {
    if !c.DeleteTimer? {
      ActiveMeans(b.tables, b.epoch, c.timer);
      hide Owed, Settled, Tables.Expiry, Tables.Listed, ActiveIffListed;
      var t, p := b.tables.timers[c.timer], b.tables.timers[c.timer].period;
      SettledClosedForm(t, if c.ChangePeriod? then time + p else commanded + p, time);
    }
  }

  lemma ActiveMeans(d: Tables, epoch: nat, t: TimerId)
    requires ActiveIffListed(d, {}) && t in d.timers
    ensures d.timers[t].active <==> d.Expiry(epoch, t).Some?
  {
  }

  lemma OthersConserved(a: Account, mid: Account, b: Account, t: TimerId, period: nat, x: Option<nat>, time: nat)
    requires CarriedOut(mid, b, t, period, x, time)
    requires forall u :: u in a.tables.timers && u != t ==> Conserved(a, mid, u, time)
    ensures forall u :: u in a.tables.timers && u != t ==> Conserved(a, b, u, time)
    ensures t in b.tables.timers && b.tables.timers[t].period == period > 0
    ensures t in mid.tables.timers && b.tables.timers[t].autoReload == mid.tables.timers[t].autoReload
    ensures b.tables.Expiry(b.epoch, t) == Settled(b.tables.timers[t], x, time)
    ensures b.calls[t] == mid.calls[t] + Owed(b.tables.timers[t], x, time)
  {
    OthersKeptExpiry(mid.tables, b.tables, t, b.epoch);
    forall u | u in a.tables.timers && u != t
      ensures Conserved(a, b, u, time)
    {
      assert Conserved(a, mid, u, time);
      assert KeptFor(mid, b, u);
      CallbacksConserved(mid, b, u, time, time);
      ConservedTwice(a, mid, b, u, time);
    }
  }

  lemma FreedConserved(a: Account, mid: Account, b: Account, t: TimerId, time: nat)
    requires OthersKept(mid.tables, b.tables, t) && b.epoch == mid.epoch && b.calls == mid.calls
    requires forall u :: u in a.tables.timers && u != t ==> Conserved(a, mid, u, time)
    ensures forall u :: u in a.tables.timers && u != t ==> Conserved(a, b, u, time)
  {
    OthersKeptExpiry(mid.tables, b.tables, t, b.epoch);
    forall u | u in a.tables.timers && u != t
      ensures Conserved(a, b, u, time)
    {
      assert Conserved(a, mid, u, time);
      assert KeptFor(mid, b, u);
      CallbacksConserved(mid, b, u, time, time);
      ConservedTwice(a, mid, b, u, time);
    }
  }

  // ---------------------------------------------------------------- runs of the daemon

  lemma NotListed(d: Tables, t: TimerId)
    requires Tidy(d) && t !in d.timers
    ensures !d.Listed(t)
  {
  }

  function TimeOf(e: Event): nat {
    if e.Look? then e.time else e.message.handled
  }

  function TimeBefore(sampled: nat, events: seq<Event>, i: nat): nat
    requires i <= |events|
  {
    if i == 0 then sampled else TimeOf(events[i - 1])
  }

  predicate HandlesTimer(e: Event, t: TimerId) {
    e.Handle? && e.message.command.timer == t
  }

  /** One of the events from position i to before position j is a message for t. */
  ghost predicate Names(events: seq<Event>, i: nat, j: nat, t: TimerId)
    requires i <= j <= |events|
  {
    exists k :: i <= k < j && HandlesTimer(events[k], t)
  }

  /** Each of the first n messages has done to its timer what its command says. */
  ghost predicate AllObeyed(events: seq<Event>, n: nat, trace: seq<Account>)
    requires n <= |events| && |trace| > n
  {
    forall i :: 0 <= i < n && events[i].Handle? ==>
      Obeyed(trace[i], trace[i + 1], events[i].message.command, events[i].message.sent, events[i].message.handled)
  }

  /** From any of the first n events on, timers that are not named have lost and gained no callback. */
  ghost predicate AllConserved(events: seq<Event>, n: nat, trace: seq<Account>, now: Account, time: nat)
    requires n <= |events| && |trace| > n
  {
    forall i, u :: 0 <= i <= n && u in trace[i].tables.timers && !Names(events, i, n, u) ==>
      Conserved(trace[i], now, u, time)
  }

  /** Time does not go back, a start is handled within a full turn of its being sent, and no period is zero. */
  predicate Orderly(last: nat, e: Event) {
    && last <= TimeOf(e)
    && (e.Handle? ==>
          && (e.message.command.StartTimer? ==> e.message.sent <= e.message.handled < e.message.sent + TICK_RANGE)
          && (e.message.command.ChangePeriod? ==> e.message.command.period > 0))
  }

  ghost predicate InOrder(sampled: nat, events: seq<Event>) {
    forall i :: 0 <= i < |events| ==> Orderly(TimeBefore(sampled, events, i), events[i])
  }

  /** Less than TICK_RANGE ticks pass between samples, or no timer is active, but for the one handled. */
  predicate InTime(d: Tables, last: nat, e: Event) {
    TimeOf(e) < last + TICK_RANGE || Idle(if e.Handle? then d.Unlisted(e.message.command.timer) else d)
  }

  /** From position i on, the messages name existing timers. */
  ghost predicate Known(events: seq<Event>, i: nat, timers: set<TimerId>) {
    forall j :: i <= j < |events| && events[j].Handle? ==> events[j].message.command.timer in timers
  }

  /** Every message names a timer that exists and that no earlier message deletes. */
  ghost predicate AllKnown(known: set<TimerId>, events: seq<Event>) {
    && Known(events, 0, known)
    && (forall i, j :: 0 <= i < j < |events| && events[i].Handle? && events[i].message.command.DeleteTimer? ==>
          !HandlesTimer(events[j], events[i].message.command.timer))
  }

  lemma NextEvent(sampled: nat, events: seq<Event>, i: nat)
    requires InOrder(sampled, events) && i < |events|
    ensures Orderly(TimeBefore(sampled, events, i), events[i])
  {
  }

  lemma RunStarts(events: seq<Event>, a: Account, time: nat)
    requires forall t :: t in a.tables.timers ==> a.tables.timers[t].period > 0
    ensures AllObeyed(events, 0, [a]) && AllConserved(events, 0, [a], a, time)
  {
    NothingConserved(a, time);
  }

  lemma ConservedFurther(a: Account, b: Account, c: Account, t: TimerId, last: nat, now: nat)
    requires Conserved(a, b, t, last) && Conserved(b, c, t, now) && last <= now
    ensures Conserved(a, c, t, now)
  {
    assert Conserved(a, b, t, now);
    ConservedTwice(a, b, c, t, now);
  }

  /** One more event, after which the timers it does not handle are conserved since the one before. */
  lemma RunGoesOn(events: seq<Event>, n: nat, trace: seq<Account>, b: Account, c: Account, last: nat, now: nat)
    requires n < |events| && |trace| == n + 1 && trace[n] == b && last <= now
    requires AllObeyed(events, n, trace) && AllConserved(events, n, trace, b, last)
    requires forall t :: t in c.tables.timers ==> c.tables.timers[t].period > 0
    requires forall u :: u in b.tables.timers && !HandlesTimer(events[n], u) ==> Conserved(b, c, u, now)
    requires events[n].Handle? ==> Obeyed(b, c, events[n].message.command, events[n].message.sent, events[n].message.handled)
    ensures AllObeyed(events, n + 1, trace + [c]) && AllConserved(events, n + 1, trace + [c], c, now)
  {
    hide Conserved, Obeyed, HandlesTimer;
    var longer := trace + [c];
    NothingConserved(c, now);
    forall i | 0 <= i < n + 1 && events[i].Handle?
      ensures Obeyed(longer[i], longer[i + 1], events[i].message.command, events[i].message.sent, events[i].message.handled)
    {
      if i < n {
        assert longer[i] == trace[i] && longer[i + 1] == trace[i + 1];
      }
    }
    forall i, u | 0 <= i <= n + 1 && u in longer[i].tables.timers && !Names(events, i, n + 1, u)
      ensures Conserved(longer[i], c, u, now)
    {
      if i <= n {
        assert !Names(events, i, n, u) && !HandlesTimer(events[n], u);
        assert Conserved(trace[i], b, u, last);
        StillThere(trace[i], b, u, last);
        ConservedFurther(trace[i], b, c, u, last, now);
      }
    }
  }

  lemma StillThere(a: Account, b: Account, t: TimerId, from: nat)
    requires Conserved(a, b, t, from)
    ensures t in b.tables.timers
  {
  }

  lemma LastLook(events: seq<Event>, trace: seq<Account>, b: Account, c: Account, last: nat, now: nat)
    requires |trace| == |events| + 1 && AllConserved(events, |events|, trace, b, last) && last <= now
    requires forall u :: u in b.tables.timers ==> Conserved(b, c, u, now)
    ensures AllConserved(events, |events|, trace, c, now)
  {
    hide Conserved, Names;
    forall i, u | 0 <= i <= |events| && u in trace[i].tables.timers && !Names(events, i, |events|, u)
      ensures Conserved(trace[i], c, u, now)
    {
      StillThere(trace[i], b, u, last);
      ConservedFurther(trace[i], b, c, u, last, now);
    }
  }

  lemma StillKnownLook(b: Account, c: Account, events: seq<Event>, i: nat, now: nat)
    requires Known(events, i, b.tables.timers.Keys)
    requires forall u :: u in b.tables.timers ==> Conserved(b, c, u, now)
    ensures Known(events, i + 1, c.tables.timers.Keys)
  {
    hide Total;
    forall j | i < j < |events| && events[j].Handle?
      ensures events[j].message.command.timer in c.tables.timers
    {
      assert Conserved(b, c, events[j].message.command.timer, now);
    }
  }

  lemma StillKnown(b: Account, c: Account, events: seq<Event>, i: nat, known: set<TimerId>, commanded: nat, now: nat)
    requires AllKnown(known, events) && i < |events| && events[i].Handle?
    requires Known(events, i, b.tables.timers.Keys)
    requires Obeyed(b, c, events[i].message.command, commanded, now)
    requires forall u :: u in b.tables.timers && u != events[i].message.command.timer ==> Conserved(b, c, u, now)
    ensures Known(events, i + 1, c.tables.timers.Keys)
  {
    hide Total, Owed, Settled;
    forall j | i < j < |events| && events[j].Handle?
      ensures events[j].message.command.timer in c.tables.timers
    {
      var u := events[j].message.command.timer;
      assert HandlesTimer(events[j], u);
      if u != events[i].message.command.timer {
        assert Conserved(b, c, u, now);
      }
    }
  }

  /** By the instant time, t has had the callbacks that were due since state a, and no more. */
  ghost predicate CallbacksMade(a: Account, b: Account, t: TimerId, time: nat) {
    && t in a.tables.timers && a.tables.timers[t].period > 0
    && b.calls[t] == a.calls[t] + Owed(a.tables.timers[t], a.tables.Expiry(a.epoch, t), time)
  }

  lemma MadeForAll(events: seq<Event>, trace: seq<Account>, b: Account, time: nat, ticks: nat)
    requires |trace| == |events| + 1 && AllConserved(events, |events|, trace, b, time)
    requires NoneDue(b.tables, b.epoch, time, ticks)
    ensures forall i, u :: 0 <= i <= |events| && u in trace[i].tables.timers && !Names(events, i, |events|, u) ==>
              CallbacksMade(trace[i], b, u, time)
  {
    hide Names;
    forall i, u | 0 <= i <= |events| && u in trace[i].tables.timers && !Names(events, i, |events|, u)
      ensures CallbacksMade(trace[i], b, u, time)
    {
      assert Conserved(trace[i], b, u, time);
      NothingOwed(b.tables, b.epoch, time, ticks, u);
      assert Total(b, u, time) == Total(trace[i], u, time);
    }
  }
}
