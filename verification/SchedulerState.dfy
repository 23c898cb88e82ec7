/**
  The scheduler's variables at one moment, the invariant that every kernel call
  keeps, and what moving one task between lists does to both.
 */
module SchedulerState {
  import opened KernelConfig
  import opened ListViews
  import opened TaskTables
  import opened SleepModel
  import opened Refinement
  import opened PriorityRules

  datatype Snapshot = Snapshot(
    db: Db,
    clock: Clock,
    nextUnblock: TickType,
    top: nat,
    current: Task,
    numberOfTasks: nat,
    deleted: nat)
  {
    ghost function Model(): Model {
      ModelOf(db, clock)
    }
  }

  /** The lists agree with the control blocks and partition the tasks. */
  ghost predicate TablesOk(d: Db) {
    d.Consistent() && d.Placed(MAX_PRIORITIES) && WakeSorted(d)
  }

  predicate Blocked(tcb: Tcb) {
    tcb.stateList in {Some(DelayedA), Some(DelayedB), Some(Suspended)}
  }

  /** A task waits for an event only while it is blocked. */
  ghost predicate WaitersBlocked(d: Db, but: set<Task>) {
    forall t :: t in d.tasks && t !in but && d.tasks[t].eventList.Some? ==> Blocked(d.tasks[t])
  }

  /** uxTopReadyPriority is an upper bound of the priorities of ready tasks. */
  ghost predicate NothingAbove(d: Db, top: nat) {
    forall p :: top < p ==> d.L(Ready(p)).items == []
  }

  ghost predicate Core(s: Snapshot, but: set<Task>) {
    && TablesOk(s.db) && WaitersBlocked(s.db, but) && s.clock.Valid()
    && s.top < MAX_PRIORITIES && NothingAbove(s.db, s.top)
    && s.current in s.db.tasks
    && s.numberOfTasks == |s.db.tasks| && s.deleted == |s.db.L(Termination).items|
  }

  /** xNextTaskUnblockTime never exceeds a value on the current delayed list. */
  ghost predicate NoneBefore(d: Db, l: ListId, next: TickType) {
    forall t :: t in d.L(l).items && t in d.tasks ==> next <= d.tasks[t].wakeValue
  }

  /** Between ticks no sleeper is overdue; one may be due now, but not at the last tick of an epoch. */
  ghost predicate NoneOverdue(d: Db, c: Clock) {
    forall t :: t in d.L(c.delayed).items && t in d.tasks ==>
      c.tick < d.tasks[t].wakeValue || (c.tick == d.tasks[t].wakeValue && c.tick < PORT_MAX_DELAY)
  }

  ghost predicate Timely(s: Snapshot) {
    NoneBefore(s.db, s.clock.delayed, s.nextUnblock) && NoneOverdue(s.db, s.clock)
  }

  ghost predicate NonePending(d: Db) {
    d.L(PendingReady).items == []
  }

  /** Only the places of tasks differ, not their priorities or item values. */
  ghost predicate OnlyPlacesChanged(a: Db, b: Db) {
    && a.tasks.Keys == b.tasks.Keys
    && forall t :: t in a.tasks ==>
         b.tasks[t] == a.tasks[t].(stateList := b.tasks[t].stateList, eventList := b.tasks[t].eventList)
  }

  lemma PlacesSame(a: Db)
    ensures OnlyPlacesChanged(a, a)
  {
  }

  lemma PlacesChangedTwice(a: Db, b: Db, c: Db)
    requires OnlyPlacesChanged(a, b) && OnlyPlacesChanged(b, c)
    ensures OnlyPlacesChanged(a, c)
  {
  }

  // ---------------------------------------------------------------- moving one task

  predicate IsDestination(d: Db, t: Task, dest: ListId)
    requires t in d.tasks
  {
    dest == Ready(d.tasks[t].priority) || dest == Suspended || dest == Termination
  }

  function StatusOn(dest: ListId): Status {
    if dest == Suspended then Indefinite else if dest == Termination then Terminated else Runnable
  }

  function TopWith(top: nat, dest: ListId): nat {
    if dest.Ready? && top < dest.priority then dest.priority else top
  }

  function MovedTo(s: Snapshot, dest: ListId, after: Db): Snapshot {
    s.(db := after, top := TopWith(s.top, dest), deleted := if dest == Termination then s.deleted + 1 else s.deleted)
  }

  lemma RelocatedTables(d: Db, c: Clock, t: Task, dest: ListId, after: Db)
    requires TablesOk(d) && c.Valid() && t in d.tasks && IsDestination(d, t, dest)
    requires after.Consistent() && d.Relocated(t, dest, after)
    ensures TablesOk(after)
    ensures ModelOf(after, c) == Leave(ModelOf(d, c), t, StatusOn(dest))
  {
    hide ModelOf, Db.Consistent, WakeSorted;
    MovedSorted(d, t, Some(dest), after);
    MovedModel(d, c, t, Some(dest), after);
  }

  lemma CoreFacts(s: Snapshot, but: set<Task>)
    requires Core(s, but)
    ensures TablesOk(s.db) && s.clock.Valid() && s.current in s.db.tasks && s.top < MAX_PRIORITIES
    ensures forall t :: t in s.db.tasks ==> s.db.tasks[t].priority < MAX_PRIORITIES && s.db.tasks[t].stateList.Some?
  {
  }

  lemma CoreCount(s: Snapshot, but: set<Task>)
    requires Core(s, but)
    ensures s.numberOfTasks > 0
  {
    assert s.db.tasks.Keys != {};
  }

  lemma SoundCore(s: Snapshot, but: set<Task>)
    requires Core(s, but)
    ensures Sound(s.Model())
  {
    ModelSound(s.db, s.clock);
  }

  lemma TimelyFrom(s: Snapshot, next: TickType)
    requires Timely(s) && NoneBefore(s.db, s.clock.delayed, next)
    ensures Timely(s.(nextUnblock := next))
  {
  }

  lemma OutranksSame(a: Db, b: Db, t: Task, current: Task)
    requires OnlyPlacesChanged(a, b)
    ensures Outranks(a, t, current) <==> Outranks(b, t, current)
  {
  }

  /** One of the tasks ts has at least the priority of the running task. */
  ghost predicate AnyOutranks(d: Db, ts: seq<Task>, current: Task) {
    exists t :: t in ts && Outranks(d, t, current)
  }

  lemma NoneOutranks(d: Db, current: Task)
    ensures !AnyOutranks(d, [], current)
  {
  }

  lemma AnyOutranksStep(d: Db, ts: seq<Task>, current: Task)
    requires ts != []
    ensures AnyOutranks(d, ts, current) <==> Outranks(d, ts[0], current) || AnyOutranks(d, Tail(ts, 1), current)
  {
    forall t | t in ts && t != ts[0]
      ensures t in Tail(ts, 1)
    {
      var i :| 0 <= i < |ts| && ts[i] == t;
      assert Tail(ts, 1)[i - 1] == t;
    }
  }

  lemma CoreUnblock(s: Snapshot, next: TickType)
    requires Core(s, {})
    ensures Core(s.(nextUnblock := next), {})
  {
  }

  /** No list other than the destination gains an item. */
  lemma RelocatedItems(d: Db, t: Task, dest: ListId, after: Db, l: ListId)
    requires d.Consistent() && d.Relocated(t, dest, after) && l != dest
    ensures forall u :: u in after.L(l).items ==> u in d.L(l).items
    ensures d.L(l).items == [] ==> after.L(l).items == []
    ensures t !in d.L(l).items ==> after.L(l) == d.L(l)
  {
    if t in d.L(l).items {
      assert WellFormed(d.L(l));
      DropNoDuplicates(d.L(l).items, PositionOf(d.L(l).items, t));
    }
  }

  lemma RelocatedAbove(d: Db, t: Task, dest: ListId, after: Db, top: nat)
    requires d.Consistent() && d.Relocated(t, dest, after) && NothingAbove(d, top)
    ensures NothingAbove(after, TopWith(top, dest))
  {
    forall p | TopWith(top, dest) < p
      ensures after.L(Ready(p)).items == []
    {
      RelocatedItems(d, t, dest, after, Ready(p));
    }
  }

  lemma RelocatedTimes(d: Db, t: Task, dest: ListId, after: Db, c: Clock, next: TickType)
    requires d.Consistent() && d.Relocated(t, dest, after) && c.Valid() && !dest.DelayedA? && !dest.DelayedB?
    ensures NoneBefore(d, c.delayed, next) ==> NoneBefore(after, c.delayed, next)
    ensures NoneOverdue(d, c) ==> NoneOverdue(after, c)
  {
    RelocatedItems(d, t, dest, after, c.delayed);
  }

  lemma RelocatedTermination(d: Db, t: Task, dest: ListId, after: Db)
    requires d.Consistent() && d.Relocated(t, dest, after) && d.tasks[t].stateList != Some(Termination)
    ensures |after.L(Termination).items| == |d.L(Termination).items| + if dest == Termination then 1 else 0
  {
    assert t !in d.L(Termination).items;
  }

  /** Moving a live task to the end of another state list, and off its event list, keeps the invariant. */
  lemma Relocate(s: Snapshot, t: Task, dest: ListId, after: Db, but: set<Task>)
    requires Core(s, but) && t in s.db.tasks && IsDestination(s.db, t, dest)
    requires s.db.tasks[t].stateList != Some(Termination)
    requires after.Consistent() && s.db.Relocated(t, dest, after)
    ensures Core(MovedTo(s, dest, after), but - {t})
    ensures ModelOf(after, s.clock) == Leave(s.Model(), t, StatusOn(dest))
    ensures Timely(s) ==> Timely(MovedTo(s, dest, after))
    ensures NonePending(s.db) ==> NonePending(after)
    ensures OnlyPlacesChanged(s.db, after)
  {
    hide Db.Consistent, WakeSorted, WaitersBlocked, NothingAbove, Db.Placed, ModelOf, Timely, OnlyPlacesChanged;
    hide NonePending, Leave;
    RelocatedTables(s.db, s.clock, t, dest, after);
    RelocatedRest(s, t, dest, after, but);
  }

  lemma RelocatedRest(s: Snapshot, t: Task, dest: ListId, after: Db, but: set<Task>)
    requires Core(s, but) && t in s.db.tasks && IsDestination(s.db, t, dest)
    requires s.db.tasks[t].stateList != Some(Termination) && s.db.Relocated(t, dest, after)
    ensures WaitersBlocked(after, but - {t}) && NothingAbove(after, TopWith(s.top, dest)) && TopWith(s.top, dest) < MAX_PRIORITIES
    ensures |after.tasks| == |s.db.tasks|
    ensures |after.L(Termination).items| == |s.db.L(Termination).items| + if dest == Termination then 1 else 0
    ensures Timely(s) ==> Timely(MovedTo(s, dest, after))
    ensures NonePending(s.db) ==> NonePending(after)
    ensures OnlyPlacesChanged(s.db, after)
  {
    hide Db.Consistent, NoneBefore, NoneOverdue, NothingAbove, Db.L, WakeSorted;
    RelocatedItems(s.db, t, dest, after, PendingReady);
    RelocatedAbove(s.db, t, dest, after, s.top);
    RelocatedTimes(s.db, t, dest, after, s.clock, s.nextUnblock);
    RelocatedTermination(s.db, t, dest, after);
  }

  // ---------------------------------------------------------------- ticks

  predicate Outranks(d: Db, t: Task, current: Task) {
    t in d.tasks && current in d.tasks && d.tasks[current].priority <= d.tasks[t].priority
  }

  /** Some task that is due by the time until has at least the priority of the running task. */
  ghost predicate WakesOver(d: Db, status: map<Task, Status>, until: nat, current: Task) {
    exists t :: t in d.tasks && Due(status, t, until) && Outranks(d, t, current)
  }

  ghost predicate DuePreempts(d: Db, c: Clock, current: Task) {
    WakesOver(d, Statuses(d.tasks, c), c.Now(), current)
  }

  /** Another task is ready at the priority of the running task. */
  ghost predicate SharesPriority(d: Db, current: Task) {
    current in d.tasks && |d.L(Ready(d.tasks[current].priority)).items| > 1
  }

  /** Who wakes over the running task by a tick is who did by the tick before and who does at this one. */
  lemma WakesOverStep(d: Db, after: Db, status: map<Task, Status>, now: nat, current: Task)
    requires OnlyPlacesChanged(d, after)
    ensures WakesOver(d, status, now + 1, current) <==>
              WakesOver(d, status, now, current) || WakesOver(after, StatusAt(status, now), now + 1, current)
  {
    forall t
      ensures Due(status, t, now + 1) <==> Due(status, t, now) || Due(StatusAt(status, now), t, now + 1)
    {
    }
    forall t
      ensures Outranks(d, t, current) <==> Outranks(after, t, current)
    {
    }
  }

  lemma WakesOverSame(d: Db, after: Db, status: map<Task, Status>, until: nat, current: Task)
    requires OnlyPlacesChanged(d, after)
    ensures WakesOver(d, status, until, current) <==> WakesOver(after, status, until, current)
  {
    forall t
      ensures Outranks(d, t, current) <==> Outranks(after, t, current)
    {
    }
  }

  lemma ReadyIsRunnable(d: Db, c: Clock, t: Task)
    requires d.Consistent() && d.Placed(MAX_PRIORITIES) && t in d.tasks
    ensures IsReady(d, t) <==> Statuses(d.tasks, c)[t] == Runnable
    ensures IsReady(d, t) <==> t in d.L(Ready(d.tasks[t].priority)).items
  {
    assert d.Contained(t);
    OnList(d, Ready(d.tasks[t].priority), t);
  }

  /** Ticks take nobody off a ready list. */
  lemma StaysReady(d: Db, c: Clock, after: Db, next: Clock, p: nat, t: Task, until: nat)
    requires TablesOk(d) && TablesOk(after) && OnlyPlacesChanged(d, after) && t in d.L(Ready(p)).items
    requires Statuses(after.tasks, next) == StatusAt(Statuses(d.tasks, c), until)
    ensures t in after.L(Ready(p)).items
  {
    Listed(d, Ready(p), t);
    hide Db.Consistent, WakeSorted, Db.L;
    ReadyIsRunnable(d, c, t);
    ReadyIsRunnable(after, next, t);
  }

  lemma StillShares(d: Db, c: Clock, after: Db, next: Clock, current: Task, until: nat)
    requires TablesOk(d) && TablesOk(after) && OnlyPlacesChanged(d, after) && SharesPriority(d, current)
    requires Statuses(after.tasks, next) == StatusAt(Statuses(d.tasks, c), until)
    ensures SharesPriority(after, current)
  {
    hide WakeSorted, StatusAt, Statuses, Db.L, Db.Contained;
    var p := d.tasks[current].priority;
    var items := d.L(Ready(p)).items;
    assert WellFormed(d.L(Ready(p)));
    StaysReady(d, c, after, next, p, items[0], until);
    StaysReady(d, c, after, next, p, items[1], until);
    TwoOf(after.L(Ready(p)).items, items[0], items[1]);
  }

  /** The n ticks after m, which end in after, ask for a switch: a task woke over the running one, or shares its priority. */
  ghost predicate TicksYield(d: Db, m: Model, n: nat, after: Db, current: Task) {
    n > 0 && (WakesOver(d, m.status, m.now + n, current) || SharesPriority(after, current))
  }

  lemma TicksYieldStep(d: Db, m: Model, n: nat, before: Db, c: Clock, after: Db, next: Clock, current: Task)
    requires TablesOk(before) && TablesOk(after) && OnlyPlacesChanged(d, before) && OnlyPlacesChanged(before, after)
    requires ModelOf(before, c) == Ticks(m, n) && ModelOf(after, next) == Advance(ModelOf(before, c), 1)
    ensures TicksYield(d, m, n + 1, after, current) <==>
              || TicksYield(d, m, n, before, current)
              || WakesOver(before, ModelOf(before, c).status, ModelOf(before, c).now + 1, current)
              || SharesPriority(after, current)
  {
    hide TablesOk, OnlyPlacesChanged, WakesOver, SharesPriority, Timeline, Waits, Later, WaitsAt, Statuses, StatusAt;
    if n == 0 {
      WakesOverSame(d, before, m.status, m.now + 1, current);
    } else {
      WakesOverStep(d, before, m.status, m.now + n, current);
      if SharesPriority(before, current) {
        StillShares(before, c, after, next, current, m.now + n + 1);
      }
    }
  }

  lemma TicksYieldSame(d: Db, before: Db, m: Model, n: nat, after: Db, current: Task)
    requires OnlyPlacesChanged(d, before)
    ensures TicksYield(d, m, n, after, current) <==> TicksYield(before, m, n, after, current)
  {
    WakesOverSame(d, before, m.status, m.now + n, current);
  }

  // ---------------------------------------------------------------- no switch is missed

  /** No ready task has a higher priority than the running task. */
  ghost predicate HighestRuns(d: Db, current: Task) {
    current in d.tasks && forall t :: IsReady(d, t) ==> d.tasks[t].priority <= d.tasks[current].priority
  }

  /** Released tasks are runnable, the others are as they were. */
  lemma {:induction false} ReleasedStatus(m: Model, ts: seq<Task>, t: Task)
    requires t in m.status
    ensures var r := ReleaseAll(m, ts);
            t in r.status && r.status[t] == if t in ts then Runnable else m.status[t]
    decreases |ts|
  {
    if ts != [] {
      ReleasedStatus(Release(m, ts[0]), Tail(ts, 1), t);
      assert t in ts <==> t == ts[0] || t in Tail(ts, 1) by {
        SequenceForms(ts, 1, t, []);
        assert ts == [ts[0]] + ts[1..];
      }
    }
  }

  /** t has become ready, at the priority of the running task or above. */
  ghost predicate BecameReadyOver(d: Db, after: Db, t: Task, current: Task) {
    && IsReady(after, t) && !IsReady(d, t) && current in after.tasks
    && after.tasks[current].priority <= after.tasks[t].priority
  }

  /** Who is released or woken over the running task is who has become ready over it. */
  lemma ReadiedOverIff(d: Db, c: Clock, after: Db, next: Clock, current: Task, ts: seq<Task>, n: nat)
    requires TablesOk(d) && TablesOk(after) && OnlyPlacesChanged(d, after)
    requires ModelOf(after, next) == Ticks(ReleaseAll(ModelOf(d, c), ts), n)
    requires forall t :: t in ts ==> t in d.tasks && !IsReady(d, t)
    ensures var r := ReleaseAll(ModelOf(d, c), ts);
            (exists t :: BecameReadyOver(d, after, t, current)) <==>
              AnyOutranks(d, ts, current) || (n > 0 && WakesOver(d, r.status, r.now + n, current))
  {
    hide Db.Consistent, WakeSorted, Db.Placed, Timeline, Waits, Later, WaitsAt, ReleaseAll;
    var m := ModelOf(d, c);
    var r := ReleaseAll(m, ts);
    forall t | t in d.tasks
      ensures BecameReadyOver(d, after, t, current) <==>
                Outranks(d, t, current) && (t in ts || (n > 0 && Due(r.status, t, r.now + n)))
    {
      ReadyIsRunnable(after, next, t);
      ReadyIsRunnable(d, c, t);
      ReleasedStatus(m, ts, t);
      assert ModelOf(after, next).status[t] == if n > 0 && Due(r.status, t, r.now + n) then Runnable else r.status[t];
    }
    assert forall t :: BecameReadyOver(d, after, t, current) ==> t in d.tasks;
  }

  /** The parked tasks are not ready yet. */
  lemma PendingNotReady(s: Snapshot)
    requires Core(s, {})
    ensures forall t :: t in s.db.L(PendingReady).items ==> t in s.db.tasks && !IsReady(s.db, t)
  {
    forall t | t in s.db.L(PendingReady).items
      ensures t in s.db.tasks && !IsReady(s.db, t)
    {
      PendingTask(s, t);
    }
  }

  /** Two items on the ready list of the running task are it and another task. */
  lemma SharesIff(d: Db, current: Task)
    requires TablesOk(d) && IsReady(d, current)
    ensures |d.L(Ready(d.tasks[current].priority)).items| > 1 <==>
              exists t :: t != current && IsReady(d, t) && d.tasks[t].priority == d.tasks[current].priority
  {
    hide WakeSorted;
    var p := d.tasks[current].priority;
    var items := d.L(Ready(p)).items;
    assert WellFormed(d.L(Ready(p)));
    OnList(d, Ready(p), current);
    if |items| > 1 {
      var t := if items[0] == current then items[1] else items[0];
      assert t in items;
      Listed(d, Ready(p), t);
      assert IsReady(d, t);
    }
    if t :| t != current && IsReady(d, t) && d.tasks[t].priority == p {
      OnList(d, Ready(p), t);
      TwoOf(items, current, t);
    }
  }

  /** Releasing tasks and taking ticks that ask for no switch leaves the running task the highest. */
  lemma StillHighest(d: Db, c: Clock, after: Db, next: Clock, current: Task, ts: seq<Task>, n: nat)
    requires TablesOk(d) && TablesOk(after) && OnlyPlacesChanged(d, after) && HighestRuns(d, current)
    requires ModelOf(after, next) == Ticks(ReleaseAll(ModelOf(d, c), ts), n)
    requires !AnyOutranks(d, ts, current)
    requires !TicksYield(d, ReleaseAll(ModelOf(d, c), ts), n, after, current)
    ensures HighestRuns(after, current)
  {
    hide Db.Consistent, WakeSorted, Db.Placed, Timeline, Waits, Later, WaitsAt, ReleaseAll;
    var m := ModelOf(d, c);
    var r := ReleaseAll(m, ts);
    forall t | IsReady(after, t)
      ensures after.tasks[t].priority <= after.tasks[current].priority
    {
      ReadyIsRunnable(after, next, t);
      ReadyIsRunnable(d, c, t);
      ReleasedStatus(m, ts, t);
      assert ModelOf(after, next).status[t] == Runnable;
      assert r.status[t] == Runnable || (n > 0 && Due(r.status, t, r.now + n));
      assert Outranks(d, t, current) ==> IsReady(d, t);
    }
  }

  lemma TickHighest(s: Snapshot, r: Snapshot)
    requires Core(s, {}) && Core(r, {}) && OnlyPlacesChanged(s.db, r.db) && r.current == s.current
    requires r.Model() == Advance(s.Model(), 1)
    requires HighestRuns(s.db, s.current) && !TicksYield(s.db, s.Model(), 1, r.db, s.current)
    ensures HighestRuns(r.db, r.current)
  {
    hide TicksYield, OnlyPlacesChanged, ModelOf, Advance, HighestRuns;
    CoreFacts(s, {});
    CoreFacts(r, {});
    NoneOutranks(s.db, s.current);
    StillHighest(s.db, s.clock, r.db, r.clock, s.current, [], 1);
  }

  lemma ResumedHighest(s: Snapshot, r: Snapshot, n: nat)
    requires Core(s, {}) && Core(r, {}) && OnlyPlacesChanged(s.db, r.db) && r.current == s.current
    requires r.Model() == Ticks(ReleaseAll(s.Model(), s.db.L(PendingReady).items), n)
    requires HighestRuns(s.db, s.current) && !AnyOutranks(s.db, s.db.L(PendingReady).items, s.current)
    requires !TicksYield(s.db, ReleaseAll(s.Model(), s.db.L(PendingReady).items), n, r.db, r.current)
    ensures HighestRuns(r.db, r.current)
  {
    hide TicksYield, AnyOutranks, OnlyPlacesChanged, ModelOf, Ticks, ReleaseAll, HighestRuns;
    CoreFacts(s, {});
    CoreFacts(r, {});
    StillHighest(s.db, s.clock, r.db, r.clock, s.current, s.db.L(PendingReady).items, n);
  }

  /** The requests to yield, by what has become ready and what is ready. */
  lemma ReadiedBy(s: Snapshot, r: Snapshot, ts: seq<Task>, n: nat)
    requires Core(s, {}) && Core(r, {}) && OnlyPlacesChanged(s.db, r.db) && r.current == s.current
    requires r.Model() == Ticks(ReleaseAll(s.Model(), ts), n)
    requires forall t :: t in ts ==> t in s.db.tasks && !IsReady(s.db, t)
    ensures s.current in r.db.tasks
    ensures var d, after, current := s.db, r.db, s.current;
            AnyOutranks(d, ts, current) || TicksYield(d, ReleaseAll(s.Model(), ts), n, after, current) <==>
              || (n > 0 && |after.L(Ready(after.tasks[current].priority)).items| > 1)
              || exists t :: IsReady(after, t) && !IsReady(d, t) && after.tasks[t].priority >= after.tasks[current].priority
    ensures ts == [] ==> !AnyOutranks(s.db, ts, s.current) && ReleaseAll(s.Model(), ts) == s.Model()
  {
    hide AnyOutranks, OnlyPlacesChanged, ModelOf, Ticks, ReleaseAll, IsReady, WakesOver, Db.L, TablesOk;
    CoreFacts(s, {});
    CoreFacts(r, {});
    ReadiedOverIff(s.db, s.clock, r.db, r.clock, s.current, ts, n);
    ReadiedOverIs(s.db, r.db, s.current);
    NothingReleased(s);
    if ts == [] {
      NoneOutranks(s.db, s.current);
    }
  }

  lemma NothingReleased(s: Snapshot)
    ensures ReleaseAll(s.Model(), []) == s.Model()
  {
  }

  lemma ReadiedOverIs(d: Db, after: Db, current: Task)
    requires current in after.tasks
    ensures (exists t :: BecameReadyOver(d, after, t, current)) <==>
              exists t :: IsReady(after, t) && !IsReady(d, t) && after.tasks[t].priority >= after.tasks[current].priority
  {
    if t :| IsReady(after, t) && !IsReady(d, t) && after.tasks[t].priority >= after.tasks[current].priority {
      assert BecameReadyOver(d, after, t, current);
    }
    if t :| BecameReadyOver(d, after, t, current) {
      assert IsReady(after, t) && !IsReady(d, t) && after.tasks[t].priority >= after.tasks[current].priority;
    }
  }

  lemma TickReadies(s: Snapshot, r: Snapshot)
    requires Core(s, {}) && Core(r, {}) && OnlyPlacesChanged(s.db, r.db) && r.current == s.current
    requires r.Model() == Advance(s.Model(), 1)
    ensures s.current in r.db.tasks
    ensures var d, after, current := s.db, r.db, s.current;
            WakesOver(d, s.Model().status, s.Model().now + 1, current) || SharesPriority(after, current) <==>
              || |after.L(Ready(after.tasks[current].priority)).items| > 1
              || exists t :: IsReady(after, t) && !IsReady(d, t) && after.tasks[t].priority >= after.tasks[current].priority
    ensures IsReady(r.db, s.current) ==>
              (|r.db.L(Ready(r.db.tasks[s.current].priority)).items| > 1 <==>
                 exists t :: t != s.current && IsReady(r.db, t) && r.db.tasks[t].priority == r.db.tasks[s.current].priority)
  {
    hide OnlyPlacesChanged, ModelOf, Advance, ReleaseAll, IsReady, WakesOver, Db.L, TablesOk, AnyOutranks;
    NothingReleased(s);
    ReadiedBy(s, r, [], 1);
    CoreFacts(r, {});
    if IsReady(r.db, s.current) {
      SharesIff(r.db, s.current);
    }
  }

  lemma ResumeReadies(s: Snapshot, r: Snapshot, n: nat)
    requires Core(s, {}) && Core(r, {}) && OnlyPlacesChanged(s.db, r.db) && r.current == s.current
    requires r.Model() == Ticks(ReleaseAll(s.Model(), s.db.L(PendingReady).items), n)
    ensures s.current in r.db.tasks
    ensures var d, after, current, ts := s.db, r.db, s.current, s.db.L(PendingReady).items;
            AnyOutranks(d, ts, current) || TicksYield(d, ReleaseAll(s.Model(), ts), n, after, current) <==>
              || (n > 0 && |after.L(Ready(after.tasks[current].priority)).items| > 1)
              || exists t :: IsReady(after, t) && !IsReady(d, t) && after.tasks[t].priority >= after.tasks[current].priority
    ensures IsReady(r.db, s.current) ==>
              (|r.db.L(Ready(r.db.tasks[s.current].priority)).items| > 1 <==>
                 exists t :: t != s.current && IsReady(r.db, t) && r.db.tasks[t].priority == r.db.tasks[s.current].priority)
  {
    hide OnlyPlacesChanged, ModelOf, Ticks, ReleaseAll, IsReady, TicksYield, Db.L, TablesOk, AnyOutranks;
    PendingNotReady(s);
    ReadiedBy(s, r, s.db.L(PendingReady).items, n);
    CoreFacts(r, {});
    if IsReady(r.db, s.current) {
      SharesIff(r.db, s.current);
    }
  }

  // ---------------------------------------------------------------- taking turns

  /** No task of priority p or above wakes within n ticks. */
  ghost predicate NoneWakes(d: Db, m: Model, p: nat, n: nat) {
    forall t :: t in d.tasks && d.tasks[t].priority >= p && IsTimed(m, t) ==> m.status[t].wake > m.now + n
  }

  /** Then a tick readies only lower tasks. */
  lemma LowerWake(b: Snapshot, a: Snapshot, m: Model, i: nat, n: nat, p: nat, t: Task)
    requires Core(b, {}) && Core(a, {}) && OnlyPlacesChanged(b.db, a.db) && i < n
    requires b.Model() == Ticks(m, i) && a.Model() == Advance(b.Model(), 1) && NoneWakes(b.db, m, p, n)
    requires IsReady(a.db, t) && !IsReady(b.db, t)
    ensures a.db.tasks[t].priority < p
  {
    hide Db.Consistent, WakeSorted, Timeline, Waits, StatusOf, Later, WaitsAt;
    CoreFacts(b, {});
    CoreFacts(a, {});
    ReadyIsRunnable(a.db, a.clock, t);
    ReadyIsRunnable(b.db, b.clock, t);
    assert b.Model().status[t] == if i > 0 && Due(m.status, t, m.now + i) then Runnable else m.status[t];
    assert Due(b.Model().status, t, m.now + i + 1);
  }

  lemma NobodyElse(b: Snapshot, a: Snapshot, m: Model, i: nat, n: nat, p: nat)
    requires Core(b, {}) && Core(a, {}) && OnlyPlacesChanged(b.db, a.db) && OnlyWoken(b.db, a.db) && i < n
    requires b.Model() == Ticks(m, i) && a.Model() == Advance(b.Model(), 1) && NoneWakes(b.db, m, p, n)
    requires a.current == b.current && HighestRuns(b.db, b.current) && IsReady(b.db, b.current)
    requires b.db.tasks[b.current].priority == p
    ensures a.db.L(Ready(p)) == b.db.L(Ready(p)) && HighestRuns(a.db, a.current) && IsReady(a.db, a.current)
    ensures NoneWakes(a.db, m, p, n) && a.db.tasks[a.current].priority == p
  {
    hide Core, ModelOf, Advance, Ticks;
    forall t | IsReady(a.db, t)
      ensures IsReady(b.db, t) || a.db.tasks[t].priority < p
    {
      if !IsReady(b.db, t) {
        LowerWake(b, a, m, i, n, p, t);
      }
    }
  }

  /** The task chosen next has the same priority. */
  lemma SamePriorityNext(d: Db, p: nat, current: Task)
    requires TablesOk(d) && d.L(Ready(p)).items != [] && HighestRuns(d, current) && IsReady(d, current)
    requires forall t :: IsReady(d, t) ==> d.tasks[t].priority <= p
    ensures d.tasks[current].priority == p
  {
    var t := d.L(Ready(p)).items[0];
    Listed(d, Ready(p), t);
    assert IsReady(d, t);
  }

  /** After the switch the next task of the list runs, and the other facts stay. */
  lemma SwitchedWithin(b: Db, d: Db, after: Db, m: Model, n: nat, p: nat, current: Task)
    requires TablesOk(d) && d.L(Ready(p)).items != [] && after.tasks == d.tasks
    requires HighestRuns(after, current) && IsReady(after, current) && NoneWakes(d, m, p, n)
    requires forall t :: IsReady(d, t) ==> d.tasks[t].priority <= p
    ensures after.tasks[current].priority == p && NoneWakes(after, m, p, n)
  {
    assert forall t :: IsReady(after, t) <==> IsReady(d, t);
    SamePriorityNext(d, p, current);
  }

  lemma TurnedList(d: Db, p: nat)
    requires d.L(Ready(p)).items != [] && d.L(Ready(p)).index <= |d.L(Ready(p)).items|
    ensures Turned(d, p).L(Ready(p)) == Next(d.L(Ready(p)))
  {
  }

  /** The tasks ready at p, by their list. */
  lemma ReadyAt(d: Db, p: nat, t: Task)
    requires TablesOk(d)
    ensures t in d.L(Ready(p)).items <==> IsReady(d, t) && d.tasks[t].priority == p
    ensures WellFormed(d.L(Ready(p)))
  {
    if t in d.tasks {
      OnList(d, Ready(p), t);
    } else if t in d.L(Ready(p)).items {
      Listed(d, Ready(p), t);
    }
  }

  /** The only item of a list is the one the index steps to. */
  lemma OnlyItem<T>(v: View<T>, t: T)
    requires |v.items| == 1 && t in v.items && v.index <= 1
    ensures Indexed(Next(v)) == t
  {
  }

  /** A task made ready leaves the running task the highest exactly when it is not above it. */
  lemma RelocatedHighest(d: Db, t: Task, after: Db, current: Task)
    requires current in d.tasks && t in d.tasks && d.Relocated(t, Ready(d.tasks[t].priority), after)
    ensures HighestRuns(after, current) <==> HighestRuns(d, current) && d.tasks[t].priority <= d.tasks[current].priority
  {
    assert IsReady(after, t);
    assert forall u :: u != t ==> (IsReady(after, u) <==> IsReady(d, u));
  }

  /** Some ready task besides the running one has a priority above p. */
  ghost predicate ReadyAbove(d: Db, current: Task, p: nat) {
    exists t :: t != current && IsReady(d, t) && d.tasks[t].priority > p
  }

  /** Another priority of t, ready or not, and whether the running task is the highest then. */
  lemma ReprioritisedHighestIff(d: Db, t: Task, tcb: Tcb, after: Db, current: Task)
    requires HighestRuns(d, current) && Reprioritised(d, t, tcb, after) && SamePlace(tcb, d.tasks[t])
    requires d.Consistent() && d.Placed(MAX_PRIORITIES)
    ensures HighestRuns(after, current) <==>
              if t == current then !ReadyAbove(d, current, tcb.priority)
              else IsReady(d, t) ==> tcb.priority <= d.tasks[current].priority
  {
    assert d.Contained(t);
    forall u
      ensures IsReady(after, u) <==> IsReady(d, u)
    {
    }
    assert forall u :: u != t && IsReady(d, u) ==> after.tasks[u].priority == d.tasks[u].priority;
  }

  lemma ReprioritisedHighest(d: Db, t: Task, tcb: Tcb, after: Db, current: Task)
    requires HighestRuns(d, current) && Reprioritised(d, t, tcb, after) && SamePlace(tcb, d.tasks[t])
    requires d.Consistent() && d.Placed(MAX_PRIORITIES)
    requires t == current ==> d.tasks[t].priority <= tcb.priority
    requires t != current ==> tcb.priority <= d.tasks[current].priority || tcb.priority <= d.tasks[t].priority
    ensures HighestRuns(after, current)
  {
    ReprioritisedHighestIff(d, t, tcb, after, current);
  }

  /** A task whose place and priority stay leaves the ready tasks as they are. */
  lemma SameReadyHighest(d: Db, t: Task, after: Db, current: Task)
    requires t in d.tasks && t in after.tasks && after.tasks == d.tasks[t := after.tasks[t]]
    requires after.tasks[t].stateList == d.tasks[t].stateList && after.tasks[t].priority == d.tasks[t].priority
    ensures HighestRuns(after, current) <==> HighestRuns(d, current)
  {
    assert forall u :: IsReady(after, u) <==> IsReady(d, u);
  }

  // ---------------------------------------------------------------- giving a mutex

  /** xTaskPriorityDisinherit gives an inherited priority back: this is the last mutex the task holds. */
  predicate Drops(d: Db, current: Task, holder: Option<Task>) {
    && holder.Some? && current in d.tasks
    && d.tasks[current].mutexesHeld == 1 && d.tasks[current].priority != d.tasks[current].basePriority
  }

  /** The priority at which the giving task goes on. */
  function PriorityAfterGive(d: Db, current: Task, holder: Option<Task>): nat
    requires current in d.tasks
  {
    if Drops(d, current, holder) then d.tasks[current].basePriority else d.tasks[current].priority
  }

  /** The first waiter is no higher than the base priority the giving task drops to, but another ready task is. */
  ghost predicate GiveMissesSwitch(d: Db, current: Task, holder: Option<Task>, e: ListId) {
    && Drops(d, current, holder)
    && d.L(e).items != [] && d.L(e).items[0] in d.tasks
    && d.tasks[d.L(e).items[0]].priority <= d.tasks[current].basePriority
    && ReadyAbove(d, current, d.tasks[current].basePriority)
  }

  /** Task 1, base priority 1, runs at the 5 of task 2, which got its first mutex; for its last, task 3 waits at 1. */
  function LastGive(): Snapshot {
    var tasks := map[
      1 := Tcb(5, 1, 1, 0, Some(Ready(5)), EventValueOf(5), None),
      2 := Tcb(5, 5, 0, 0, Some(Ready(5)), EventValueOf(5), None),
      3 := Tcb(1, 1, 0, 0, Some(Suspended), EventValueOf(1), Some(Event(0)))];
    var lists := map[Ready(5) := View([1, 2], 0), Suspended := View([3], 0), Event(0) := View([3], 0)];
    Snapshot(Db(lists, tasks), Clock(0, 0, DelayedA), PORT_MAX_DELAY, 5, 1, 3, 0)
  }

  lemma LastGiveMissesSwitch()
    ensures var s := LastGive();
            && Core(s, {}) && Timely(s) && NonePending(s.db) && Running(s) && HighestRuns(s.db, s.current)
            && GiveMissesSwitch(s.db, s.current, Some(s.current), Event(0))
  {
    LastGiveLists();
    LastGiveCore();
    hide Core;
    assert IsReady(LastGive().db, 2);
  }

  lemma LastGiveLists()
    ensures var d := LastGive().db;
            && d.L(Ready(5)).items == [1, 2] && d.L(Event(0)).items == [3] && d.L(Suspended).items == [3]
            && (forall l :: l != Ready(5) && l != Event(0) && l != Suspended ==> d.L(l).items == [])
            && d.tasks.Keys == {1, 2, 3}
  {
  }

  lemma LastGiveCore()
    ensures Core(LastGive(), {})
  {
    LastGiveLists();
    LastGiveConsistent();
    LastGiveTasks();
    hide LastGive, Db.Consistent, Db.L, Db.Placed, WaitersBlocked;
  }

  lemma LastGiveTasks()
    ensures var s := LastGive();
            && s.db.Placed(MAX_PRIORITIES) && WaitersBlocked(s.db, {}) && |s.db.tasks| == 3
            && s.current == 1 && s.top == 5 && s.numberOfTasks == 3 && s.deleted == 0 && s.clock.Valid()
  {
    assert |LastGive().db.tasks.Keys| == 3;
  }

  lemma LastGiveConsistent()
    ensures LastGive().db.Consistent()
  {
    var d := LastGive().db;
    forall l, t | t in d.L(l).items
      ensures t in d.tasks && d.tasks[t].Container(l) == Some(l)
    {
    }
  }

  lemma CreatedHighest(d: Db, t: Task, tcb: Tcb, after: Db, current: Task)
    requires HighestRuns(d, current) && t !in d.tasks && after.tasks == d.tasks[t := tcb]
    requires tcb.priority <= d.tasks[current].priority
    ensures HighestRuns(after, current)
  {
    forall u | IsReady(after, u)
      ensures after.tasks[u].priority <= after.tasks[current].priority
    {
      assert u != t ==> IsReady(d, u);
    }
  }

  lemma TwoOf(s: seq<Task>, a: Task, b: Task)
    requires a in s && b in s && a != b
    ensures |s| > 1
  {
  }

  lemma DuePreemptsStep(d: Db, c: Clock, current: Task, t: Task, after: Db)
    requires t in d.tasks && Due(Statuses(d.tasks, c), t, c.Now())
    requires d.Relocated(t, Ready(d.tasks[t].priority), after)
    ensures DuePreempts(d, c, current) <==> Outranks(after, t, current) || DuePreempts(after, c, current)
  {
    forall u | u in d.tasks && u != t
      ensures Due(Statuses(d.tasks, c), u, c.Now()) <==> Due(Statuses(after.tasks, c), u, c.Now())
      ensures Outranks(d, u, current) <==> Outranks(after, u, current)
    {
    }
    assert !Due(Statuses(after.tasks, c), t, c.Now());
  }

  lemma Listed(d: Db, l: ListId, t: Task)
    requires d.Consistent() && t in d.L(l).items
    ensures t in d.tasks && d.tasks[t].Container(l) == Some(l)
  {
  }

  /** The head of a delayed list has the least value on it. */
  lemma HeadIsLeast(d: Db, l: ListId)
    requires TablesOk(d) && (l == DelayedA || l == DelayedB) && d.L(l).items != []
    ensures d.L(l).items[0] in d.tasks
    ensures NoneBefore(d, l, d.tasks[d.L(l).items[0]].wakeValue)
  {
    var items, k := d.L(l).items, WakeKeys(d, l);
    assert items[0] in items;
    forall t | t in items && t in d.tasks
      ensures d.tasks[items[0]].wakeValue <= d.tasks[t].wakeValue
    {
      var i :| 0 <= i < |items| && items[i] == t;
      assert k[0] <= k[i];
    }
  }

  /** The head of the timeline is the head of the current list, with its decoded time. */
  lemma HeadIs(d: Db, c: Clock)
    requires d.Consistent() && c.Valid() && d.L(c.delayed).items != []
    ensures var t := d.L(c.delayed).items[0];
            && t in d.tasks && t in Statuses(d.tasks, c) && d.tasks[t].stateList == Some(c.delayed)
            && ModelOf(d, c).timeline != []
            && ModelOf(d, c).timeline[0] == Sleeper(t, Instant(c.overflows, d.tasks[t].wakeValue))
            && Statuses(d.tasks, c)[t] == Timed(Instant(c.overflows, d.tasks[t].wakeValue))
  {
    assert d.L(c.delayed).items[0] in d.L(c.delayed).items;
  }

  /** What one round of the unblocking loop does to the head of the delayed list. */
  lemma UnblockHead(d: Db, c: Clock, t: Task, after: Db)
    requires TablesOk(d) && c.Valid() && d.L(c.delayed).items != [] && t == d.L(c.delayed).items[0]
    requires t in d.tasks && d.tasks[t].wakeValue <= c.tick
    requires after.Consistent() && d.Relocated(t, Ready(d.tasks[t].priority), after)
    ensures d.tasks[t].stateList == Some(c.delayed) && Due(Statuses(d.tasks, c), t, c.Now())
    ensures Advance(ModelOf(after, c), 0) == Advance(ModelOf(d, c), 0)
    ensures |after.L(c.delayed).items| < |d.L(c.delayed).items|
  {
    hide ModelOf, Db.Consistent, WakeSorted, Advance, Statuses;
    RelocatedTables(d, c, t, Ready(d.tasks[t].priority), after);
    ModelSound(d, c);
    HeadDueIff(d, c);
    AdvanceReleaseHead(ModelOf(d, c));
    HeadIs(d, c);
    assert after.L(c.delayed) == RemoveIfIn(d.L(c.delayed), t);
  }

  /** One round of the loop, as one step of the invariant. */
  lemma UnblockRound(s: Snapshot, t: Task, after: Db)
    requires Core(s, {}) && s.db.L(s.clock.delayed).items != [] && t == s.db.L(s.clock.delayed).items[0]
    requires t in s.db.tasks && s.db.tasks[t].wakeValue <= s.clock.tick
    requires after == s.db.DetachState(t).DetachEvent(t).AttachEnd(Ready(s.db.tasks[t].priority), t)
    ensures Core(MovedTo(s, Ready(s.db.tasks[t].priority), after), {})
    ensures NonePending(s.db) ==> NonePending(after)
    ensures OnlyPlacesChanged(s.db, after)
    ensures Advance(ModelOf(after, s.clock), 0) == Advance(s.Model(), 0)
    ensures DuePreempts(s.db, s.clock, s.current) <==> Outranks(after, t, s.current) || DuePreempts(after, s.clock, s.current)
    ensures |after.L(s.clock.delayed).items| < |s.db.L(s.clock.delayed).items|
    ensures s.db.Relocated(t, Ready(s.db.tasks[t].priority), after) && s.db.tasks[t].stateList == Some(s.clock.delayed)
  {
    hide ModelOf, Advance, Db.Consistent, Db.Relocated, DuePreempts, Db.DetachState, Db.DetachEvent, Db.AttachEnd;
    hide WaitersBlocked, NothingAbove, WakeSorted, Db.Placed, Statuses;
    var dest := Ready(s.db.tasks[t].priority);
    s.db.RelocateStateFirst(t, dest);
    UnblockHead(s.db, s.clock, t, after);
    Relocate(s, t, dest, after, {});
    assert {} - {t} == {};
    DuePreemptsStep(s.db, s.clock, s.current, t, after);
  }

  /** Tasks only become ready, and a ready list differs only if a task has become ready on it. */
  ghost predicate OnlyWoken(d: Db, after: Db) {
    && (forall t :: t in d.tasks ==>
          t in after.tasks && (after.tasks[t].stateList == d.tasks[t].stateList || (IsReady(after, t) && !IsReady(d, t))))
    && (forall p :: after.L(Ready(p)) == d.L(Ready(p)) || WokenAt(d, after, p))
  }

  ghost predicate WokenAt(d: Db, after: Db, p: nat) {
    exists t :: IsReady(after, t) && !IsReady(d, t) && after.tasks[t].priority == p
  }

  lemma NobodyWoken(d: Db)
    ensures OnlyWoken(d, d)
  {
  }

  lemma OneMoreAwake(a: Db, d: Db, t: Task, after: Db)
    requires OnlyWoken(a, d) && OnlyPlacesChanged(a, d) && d.Consistent() && t in d.tasks
    requires d.Relocated(t, Ready(d.tasks[t].priority), after)
    requires d.tasks[t].stateList == Some(DelayedA) || d.tasks[t].stateList == Some(DelayedB)
    ensures OnlyWoken(a, after)
  {
    hide Db.Consistent;
    assert IsReady(after, t) && !IsReady(a, t);
    assert forall u :: IsReady(d, u) ==> IsReady(after, u) && after.tasks[u].priority == d.tasks[u].priority;
    forall p
      ensures after.L(Ready(p)) == a.L(Ready(p)) || WokenAt(a, after, p)
    {
      OnList(d, Ready(p), t);
      if p == d.tasks[t].priority {
        assert WokenAt(a, after, p);
      } else if WokenAt(a, d, p) {
        var u :| IsReady(d, u) && !IsReady(a, u) && d.tasks[u].priority == p;
        assert IsReady(after, u);
      }
    }
  }

  lemma NothingMoreDue(d: Db, c: Clock, current: Task)
    requires TablesOk(d) && c.Valid()
    requires var x := d.L(c.delayed).items; x == [] || (x[0] in d.tasks && c.tick < d.tasks[x[0]].wakeValue)
    ensures Advance(ModelOf(d, c), 0) == ModelOf(d, c)
    ensures !DuePreempts(d, c, current)
  {
    ModelSound(d, c);
    HeadDueIff(d, c);
    AdvanceNoneDue(ModelOf(d, c));
    NoneDue(ModelOf(d, c));
  }

  /** Where the unblocking loop stops, and what xNextTaskUnblockTime is set to there. */
  lemma LoopEnd(s: Snapshot)
    requires Core(s, {})
    requires var x := s.db.L(s.clock.delayed).items;
             if x == [] then s.nextUnblock == PORT_MAX_DELAY
             else x[0] in s.db.tasks && s.nextUnblock == s.db.tasks[x[0]].wakeValue && s.clock.tick < s.nextUnblock
    ensures Timely(s)
    ensures Advance(s.Model(), 0) == s.Model() && !DuePreempts(s.db, s.clock, s.current)
  {
    hide ModelOf, Advance, Db.Consistent, DuePreempts, WaitersBlocked, NothingAbove, WakeSorted, Db.Placed;
    NothingMoreDue(s.db, s.clock, s.current);
    if s.db.L(s.clock.delayed).items != [] {
      HeadIsLeast(s.db, s.clock.delayed);
    }
  }

  /** Before the next unblock time there is nothing to do. */
  lemma EarlyTick(s: Snapshot)
    requires Core(s, {}) && NoneBefore(s.db, s.clock.delayed, s.nextUnblock) && s.clock.tick < s.nextUnblock
    ensures Timely(s)
    ensures Advance(s.Model(), 0) == s.Model() && !DuePreempts(s.db, s.clock, s.current)
  {
    hide ModelOf, Advance, DuePreempts, WaitersBlocked, NothingAbove, WakeSorted, Db.Placed;
    var x := s.db.L(s.clock.delayed).items;
    if x != [] {
      assert x[0] in x;
    }
    NothingMoreDue(s.db, s.clock, s.current);
  }

  /** The assertion of taskSWITCH_DELAYED_LISTS: at a wrap the current list is empty. */
  lemma EmptyAtWrap(d: Db, c: Clock)
    requires d.Consistent() && NoneOverdue(d, c) && c.tick == PORT_MAX_DELAY
    ensures d.L(c.delayed).items == []
  {
    var x := d.L(c.delayed).items;
    if x != [] {
      Listed(d, c.delayed, x[0]);
      assert false;
    }
  }

  lemma Ticked(s: Snapshot)
    requires Core(s, {}) && Timely(s)
    ensures s.clock.tick == PORT_MAX_DELAY ==> s.db.L(s.clock.delayed).items == []
    ensures Core(s.(clock := NextTick(s.clock)), {})
    ensures Advance(ModelOf(s.db, NextTick(s.clock)), 0) == Advance(s.Model(), 1)
    ensures s.clock.tick < PORT_MAX_DELAY ==> NoneBefore(s.db, NextTick(s.clock).delayed, s.nextUnblock)
    ensures DuePreempts(s.db, NextTick(s.clock), s.current) <==> WakesOver(s.db, s.Model().status, s.Model().now + 1, s.current)
  {
    hide Db.Consistent, WakeSorted, Db.Placed, WaitersBlocked, NothingAbove, NoneBefore, NoneOverdue;
    hide Timeline, Statuses, Waits, WakesOver;
    if s.clock.tick == PORT_MAX_DELAY {
      EmptyAtWrap(s.db, s.clock);
    }
    NextTickModel(s.db, s.clock);
  }

  /** One round of the loop of xTaskResumeAll that empties the pending-ready list. */
  lemma PendingRound(s: Snapshot, t: Task, after: Db)
    requires Core(s, {}) && Timely(s) && s.db.L(PendingReady).items != [] && t == s.db.L(PendingReady).items[0]
    requires t in s.db.tasks && after == s.db.DetachEvent(t).DetachState(t).AttachEnd(Ready(s.db.tasks[t].priority), t)
    ensures Core(MovedTo(s, Ready(s.db.tasks[t].priority), after), {})
    ensures Timely(MovedTo(s, Ready(s.db.tasks[t].priority), after)) && OnlyPlacesChanged(s.db, after)
    ensures ModelOf(after, s.clock) == Release(s.Model(), t)
    ensures after.L(PendingReady).items == Tail(s.db.L(PendingReady).items, 1)
  {
    hide ModelOf, Db.Consistent, Db.DetachState, Db.DetachEvent, Db.AttachEnd, Release, Leave, Timely;
    hide WaitersBlocked, NothingAbove, WakeSorted, Db.Placed, OnlyPlacesChanged;
    PendingTask(s, t);
    s.db.RelocateEventFirst(t, Ready(s.db.tasks[t].priority));
    Relocate(s, t, Ready(s.db.tasks[t].priority), after, {});
    assert {} - {t} == {};
    ReleaseIsLeave(s.Model(), t);
    assert after.L(PendingReady) == RemoveIfIn(s.db.L(PendingReady), t);
    HeadOut(s.db.L(PendingReady), t);
  }

  lemma ReleaseIsLeave(m: Model, t: Task)
    ensures Release(m, t) == Leave(m, t, Runnable)
  {
  }

  lemma HeadOut(v: View<Task>, t: Task)
    requires v.items != [] && v.items[0] == t
    ensures RemoveIfIn(v, t).items == Without(v.items, t) == Tail(v.items, 1)
  {
  }

  /** A task with its event item on a list is blocked, so it is live. */
  lemma PendingTask(s: Snapshot, t: Task)
    requires Core(s, {}) && t in s.db.L(PendingReady).items
    ensures t in s.db.tasks && s.db.tasks[t].eventList == Some(PendingReady) && Blocked(s.db.tasks[t])
  {
    Listed(s.db, PendingReady, t);
  }

  // ---------------------------------------------------------------- going to sleep

  /** s with the running task off its ready list and carrying the wake value. */
  function Undressed(s: Snapshot, value: TickType): Db
    requires s.current in s.db.tasks
  {
    var d := s.db.DetachState(s.current);
    d.SetTask(s.current, d.tasks[s.current].(wakeValue := value))
  }

  ghost predicate Running(s: Snapshot) {
    s.current in s.db.tasks && s.db.tasks[s.current].stateList == Some(Ready(s.db.tasks[s.current].priority))
  }

  lemma UndressedFacts(s: Snapshot, value: TickType)
    requires s.db.Consistent() && Running(s)
    ensures var d := Undressed(s, value);
            && d.Consistent()
            && d.tasks == s.db.tasks[s.current := s.db.tasks[s.current].(stateList := None, wakeValue := value)]
            && (forall l :: d.L(l) == if IsStateList(l) then RemoveIfIn(s.db.L(l), s.current) else s.db.L(l))
            && (forall l :: IsStateList(l) && !l.Ready? ==> d.L(l) == s.db.L(l))
  {
    s.db.DetachStateConsistent(s.current);
    var d := s.db.DetachState(s.current);
    d.SetTaskConsistent(s.current, d.tasks[s.current].(wakeValue := value));
  }

  /** after is s.db with the running task moved from its ready list to the blocking list l. */
  ghost predicate Slept(s: Snapshot, l: ListId, value: TickType, after: Db) {
    && s.current in s.db.tasks && (l == DelayedA || l == DelayedB || l == Suspended)
    && after.tasks == s.db.tasks[s.current := s.db.tasks[s.current].(stateList := Some(l), wakeValue := value)]
    && (forall m :: m != l ==> after.L(m) == if m.Ready? then RemoveIfIn(s.db.L(m), s.current) else s.db.L(m))
  }

  lemma SleptCore(s: Snapshot, l: ListId, value: TickType, after: Db, but: set<Task>)
    requires Core(s, but) && Running(s) && Slept(s, l, value, after) && after.Consistent() && WakeSorted(after)
    ensures Core(s.(db := after), but - {s.current})
    ensures NonePending(s.db) ==> NonePending(after)
  {
    hide WakeSorted, NothingAbove, Db.Consistent, Db.L;
    SleptAbove(s, l, value, after);
  }

  lemma SleptAbove(s: Snapshot, l: ListId, value: TickType, after: Db)
    requires NothingAbove(s.db, s.top) && Slept(s, l, value, after)
    ensures NothingAbove(after, s.top)
  {
    forall p | s.top < p
      ensures after.L(Ready(p)).items == []
    {
      assert s.db.L(Ready(p)).items == [];
    }
  }

  /** The running task is no sleeper, so what happens to it does not touch the timeline. */
  lemma RunningUntouched(s: Snapshot, after: Db)
    requires s.db.Consistent() && Running(s) && s.current in after.tasks
    requires after.tasks == s.db.tasks[s.current := after.tasks[s.current]]
    requires after.L(DelayedA).items == s.db.L(DelayedA).items && after.L(DelayedB).items == s.db.L(DelayedB).items
    ensures SleepersUntouched(s.db, s.current, after)
  {
    OnList(s.db, DelayedA, s.current);
    OnList(s.db, DelayedB, s.current);
  }

  function Woken(s: Snapshot, value: TickType, l: ListId): Db
    requires s.current in s.db.tasks && s.current in Undressed(s, value).tasks
  {
    Queued(Undressed(s, value), l, s.current)
  }

  lemma QueuedSlept(s: Snapshot, value: TickType, l: ListId)
    requires s.db.Consistent() && Running(s) && (l == DelayedA || l == DelayedB)
    ensures s.current in Undressed(s, value).tasks
    ensures Slept(s, l, value, Woken(s, value, l)) && Woken(s, value, l).Consistent()
  {
    var d := Undressed(s, value);
    UndressedFacts(s, value);
    d.AttachConsistent(l, SortedPosition(WakeKeys(d, l), value), s.current);
  }

  lemma QueuedKeepsOrder(s: Snapshot, value: TickType, l: ListId)
    requires s.db.Consistent() && WakeSorted(s.db) && Running(s) && (l == DelayedA || l == DelayedB)
    ensures s.current in Undressed(s, value).tasks
    ensures WakeSorted(Undressed(s, value)) && WakeSorted(Woken(s, value, l))
  {
    var d := Undressed(s, value);
    UndressedFacts(s, value);
    RunningUntouched(s, d);
    UntouchedSorted(s.db, s.current, d);
    QueuedSorted(d, l, s.current);
  }

  /** Off the ready list and with another wake value the running task still counts as runnable. */
  lemma UndressedModel(s: Snapshot, value: TickType)
    requires s.db.Consistent() && s.clock.Valid() && Running(s)
    ensures ModelOf(Undressed(s, value), s.clock) == s.Model()
  {
    var d, c := Undressed(s, value), s.clock;
    hide ModelOf, Db.Consistent;
    UndressedFacts(s, value);
    RunningUntouched(s, d);
    UntouchedModel(s.db, s.current, d, c);
    RunningStatus(s);
    assert StatusOf(d.tasks[s.current], c) == Runnable;
  }

  lemma RunningStatus(s: Snapshot)
    requires Running(s)
    ensures var m := s.Model();
            && s.current in m.status && m.status[s.current] == Runnable && m.status[s.current := Runnable] == m.status
            && (match s.db.tasks[s.current].eventList
                case Some(e) => s.current in m.waits && m.waits[s.current := e] == m.waits
                case None => m.waits - {s.current} == m.waits)
  {
  }

  /** The running task goes onto the current or the overflow list, in order of its wake value. */
  lemma SleepTimed(s: Snapshot, value: TickType, l: ListId, but: set<Task>)
    requires Core(s, but) && Running(s) && (l == s.clock.delayed || l == s.clock.Overflow())
    ensures s.current in Undressed(s, value).tasks
    ensures var after := Woken(s, value, l);
            var epoch := if l == s.clock.delayed then s.clock.overflows else s.clock.overflows + 1;
            && Core(s.(db := after), but - {s.current}) && Slept(s, l, value, after)
            && (NonePending(s.db) ==> NonePending(after))
            && ModelOf(after, s.clock) == SleepUntil(s.Model(), s.current, Instant(epoch, value))
  {
    hide ModelOf, Db.Consistent, WakeSorted, WaitersBlocked, NothingAbove, Db.Placed, NonePending, Slept, Instant, SleepUntil;
    QueuedSlept(s, value, l);
    QueuedKeepsOrder(s, value, l);
    SleptCore(s, l, value, Woken(s, value, l), but);
    UndressedModel(s, value);
    UndressedValue(s, value);
    QueuedModel(Undressed(s, value), s.clock, l, s.current);
  }

  lemma UndressedValue(s: Snapshot, value: TickType)
    requires s.db.Consistent() && Running(s)
    ensures s.current in Undressed(s, value).tasks && Undressed(s, value).tasks[s.current].wakeValue == value
  {
  }

  predicate WakesInTime(c: Clock, value: TickType, l: ListId) {
    l == c.delayed ==> c.tick < value || (c.tick == value && c.tick < PORT_MAX_DELAY)
  }

  /** The other lists did not change, so the new sleeper decides whether the lists are still in time. */
  lemma SleepTimely(s: Snapshot, value: TickType, l: ListId, after: Db, next: TickType)
    requires s.db.Consistent() && after.Consistent() && Timely(s) && s.clock.Valid() && Running(s) && Slept(s, l, value, after)
    requires next == if l == s.clock.delayed && value < s.nextUnblock then value else s.nextUnblock
    ensures NoneBefore(after, s.clock.delayed, next)
    ensures NoneOverdue(after, s.clock) <==> WakesInTime(s.clock, value, l)
  {
    var x := s.clock.delayed;
    forall t | t in after.L(x).items && t in after.tasks
      ensures t == s.current || t in s.db.L(x).items
    {
      if t != s.current {
        Listed(after, x, t);
        assert s.db.Contained(t);
      }
    }
    OnList(after, l, s.current);
  }

  /** Blocking without a time limit: the running task goes to the end of the suspended list. */
  lemma SleepsForever(s: Snapshot, after: Db, but: set<Task>)
    requires Core(s, but) && Running(s)
    requires after == s.db.DetachState(s.current).AttachEnd(Suspended, s.current)
    ensures Core(s.(db := after), but - {s.current}) && Slept(s, Suspended, s.db.tasks[s.current].wakeValue, after)
    ensures NonePending(s.db) ==> NonePending(after)
    ensures after.Consistent()
    ensures ModelOf(after, s.clock) == SleepForever(s.Model(), s.current)
  {
    hide WaitersBlocked, NothingAbove, Db.Placed, ModelOf;
    ParkedSlept(s, after);
    ParkedModel(s, after);
    SleptCore(s, Suspended, s.db.tasks[s.current].wakeValue, after, but);
  }

  lemma ParkedSlept(s: Snapshot, after: Db)
    requires s.db.Consistent() && Running(s)
    requires after == s.db.DetachState(s.current).AttachEnd(Suspended, s.current)
    ensures Slept(s, Suspended, s.db.tasks[s.current].wakeValue, after) && after.Consistent()
    ensures after.L(DelayedA) == s.db.L(DelayedA) && after.L(DelayedB) == s.db.L(DelayedB)
  {
    var d := s.db.DetachState(s.current);
    s.db.DetachStateConsistent(s.current);
    d.AttachConsistent(Suspended, EndPosition(d.L(Suspended)), s.current);
  }

  lemma ParkedModel(s: Snapshot, after: Db)
    requires s.db.Consistent() && s.clock.Valid() && Running(s) && WakeSorted(s.db)
    requires Slept(s, Suspended, s.db.tasks[s.current].wakeValue, after)
    ensures ModelOf(after, s.clock) == SleepForever(s.Model(), s.current)
    ensures WakeSorted(after)
  {
    hide ModelOf, Db.Consistent;
    RunningUntouched(s, after);
    UntouchedSorted(s.db, s.current, after);
    UntouchedModel(s.db, s.current, after, s.clock);
    RunningStatus(s);
  }

  // ---------------------------------------------------------------- event lists and priorities

  /** after is d with another event list, or event value, of t; no state list differs. */
  ghost predicate EventChanged(d: Db, t: Task, after: Db) {
    && t in d.tasks && t in after.tasks && after.tasks == d.tasks[t := after.tasks[t]]
    && after.tasks[t] == d.tasks[t].(eventList := after.tasks[t].eventList, eventValue := after.tasks[t].eventValue)
    && (forall l :: IsStateList(l) ==> after.L(l) == d.L(l))
  }

  lemma EventChangedCore(s: Snapshot, t: Task, after: Db, but: set<Task>, now: set<Task>)
    requires Core(s, but) && EventChanged(s.db, t, after) && after.Consistent()
    requires but <= now + {t} && (t in now || after.tasks[t].eventList == None || Blocked(after.tasks[t]))
    ensures Core(s.(db := after), now)
    ensures Timely(s) ==> Timely(s.(db := after))
    ensures ModelOf(after, s.clock) == match after.tasks[t].eventList
                                       case Some(e) => WaitFor(s.Model(), t, e)
                                       case None => s.Model().(waits := s.Model().waits - {t})
  {
    hide ModelOf, Db.Consistent;
    assert SleepersUntouched(s.db, t, after);
    UntouchedSorted(s.db, t, after);
    UntouchedModel(s.db, t, after, s.clock);
    StatusKept(s, t, after);
    EventChangedRest(s, t, after, but, now);
  }

  lemma StatusKept(s: Snapshot, t: Task, after: Db)
    requires t in s.db.tasks && t in after.tasks
    requires StatusOf(after.tasks[t], s.clock) == StatusOf(s.db.tasks[t], s.clock)
    ensures s.Model().status[t := StatusOf(after.tasks[t], s.clock)] == s.Model().status
    ensures after.tasks[t].eventList == s.db.tasks[t].eventList ==>
              match after.tasks[t].eventList
              case Some(e) => s.Model().waits[t := e] == s.Model().waits
              case None => s.Model().waits - {t} == s.Model().waits
  {
  }

  lemma EventChangedRest(s: Snapshot, t: Task, after: Db, but: set<Task>, now: set<Task>)
    requires Core(s, but) && EventChanged(s.db, t, after)
    requires but <= now + {t} && (t in now || after.tasks[t].eventList == None || Blocked(after.tasks[t]))
    ensures after.Placed(MAX_PRIORITIES) && WaitersBlocked(after, now) && NothingAbove(after, s.top)
    ensures |after.tasks| == |s.db.tasks|
    ensures Timely(s) ==> Timely(s.(db := after))
  {
    hide Db.Consistent, WakeSorted;
  }

  /** after is d with the control block tcb for t, moved to the ready list of its new priority if it is ready. */
  ghost predicate Reprioritised(d: Db, t: Task, tcb: Tcb, after: Db) {
    && t in d.tasks
    && (d.tasks[t].stateList == Some(Ready(d.tasks[t].priority)) ==>
          && after.tasks == d.tasks[t := tcb.(stateList := Some(Ready(tcb.priority)))]
          && (forall l :: l != Ready(tcb.priority) ==> after.L(l) == if IsStateList(l) then RemoveIfIn(d.L(l), t) else d.L(l))
          && after.L(Ready(tcb.priority)) == InsertEnd(RemoveIfIn(d.L(Ready(tcb.priority)), t), t))
    && (d.tasks[t].stateList != Some(Ready(d.tasks[t].priority)) ==>
          after.tasks == d.tasks[t := tcb] && forall l :: after.L(l) == d.L(l))
  }

  predicate SamePlace(a: Tcb, b: Tcb) {
    a.stateList == b.stateList && a.eventList == b.eventList && a.wakeValue == b.wakeValue
  }

  lemma ReadyMove(d: Db, t: Task, tcb: Tcb, after: Db)
    requires d.Consistent() && t in d.tasks && SamePlace(tcb, d.tasks[t])
    requires d.tasks[t].stateList == Some(Ready(d.tasks[t].priority))
    requires after == d.DetachState(t).SetTask(t, tcb.(stateList := None)).AttachEnd(Ready(tcb.priority), t)
    ensures after.Consistent() && Reprioritised(d, t, tcb, after)
  {
    hide Db.Consistent, Db.Detach, RemoveIfIn, InsertAt, EndPosition;
    var e := d.DetachState(t);
    var f := e.SetTask(t, tcb.(stateList := None));
    d.DetachStateConsistent(t);
    e.SetTaskConsistent(t, tcb.(stateList := None));
    f.AttachConsistent(Ready(tcb.priority), EndPosition(f.L(Ready(tcb.priority))), t);
  }

  lemma BlockedChange(d: Db, t: Task, tcb: Tcb)
    requires d.Consistent() && t in d.tasks && SamePlace(tcb, d.tasks[t])
    requires d.tasks[t].stateList != Some(Ready(d.tasks[t].priority))
    ensures d.SetTask(t, tcb).Consistent() && Reprioritised(d, t, tcb, d.SetTask(t, tcb))
  {
    d.SetTaskConsistent(t, tcb);
  }

  /** The numbers of t are those of tcb, and no other control block differs. */
  lemma ReprioritisedFields(d: Db, t: Task, tcb: Tcb, after: Db)
    requires Reprioritised(d, t, tcb, after)
    ensures t in after.tasks && after.tasks.Keys == d.tasks.Keys
    ensures after.tasks[t].priority == tcb.priority && after.tasks[t].basePriority == tcb.basePriority
    ensures after.tasks[t].mutexesHeld == tcb.mutexesHeld && after.tasks[t].eventValue == tcb.eventValue
    ensures forall u :: u in d.tasks && u != t ==> after.tasks[u] == d.tasks[u]
  {
  }

  lemma ReprioritisedUntouched(d: Db, t: Task, tcb: Tcb, after: Db)
    requires d.Consistent() && Reprioritised(d, t, tcb, after) && SamePlace(tcb, d.tasks[t])
    ensures SleepersUntouched(d, t, after)
    ensures after.L(PendingReady) == d.L(PendingReady) && after.L(Termination) == d.L(Termination)
  {
    OnList(d, DelayedA, t);
    OnList(d, DelayedB, t);
    OnList(d, Termination, t);
  }

  function TopAfter(top: nat, d: Db, t: Task, priority: nat): nat
    requires t in d.tasks
  {
    if d.tasks[t].stateList == Some(Ready(d.tasks[t].priority)) then TopWith(top, Ready(priority)) else top
  }

  lemma ReprioritisedAbove(d: Db, t: Task, tcb: Tcb, after: Db, top: nat)
    requires d.Consistent() && Reprioritised(d, t, tcb, after) && NothingAbove(d, top)
    ensures NothingAbove(after, TopAfter(top, d, t, tcb.priority))
  {
    var now := TopAfter(top, d, t, tcb.priority);
    forall p | now < p
      ensures after.L(Ready(p)).items == []
    {
      assert d.L(Ready(p)).items == [];
    }
  }

  /** A change of priority moves a ready task between ready lists and means nothing for time and waiting. */
  lemma Reprioritise(s: Snapshot, t: Task, tcb: Tcb, after: Db)
    requires Core(s, {}) && Reprioritised(s.db, t, tcb, after) && SamePlace(tcb, s.db.tasks[t]) && after.Consistent()
    requires tcb.priority < MAX_PRIORITIES
    ensures Core(s.(db := after, top := TopAfter(s.top, s.db, t, tcb.priority)), {})
    ensures Timely(s) ==> Timely(s.(db := after, top := TopAfter(s.top, s.db, t, tcb.priority)))
    ensures NonePending(s.db) ==> NonePending(after)
    ensures ModelOf(after, s.clock) == s.Model()
  {
    hide ModelOf, Db.Consistent, NothingAbove, WakeSorted;
    ReprioritisedUntouched(s.db, t, tcb, after);
    ReprioritisedAbove(s.db, t, tcb, after, s.top);
    UntouchedSorted(s.db, t, after);
    UntouchedModel(s.db, t, after, s.clock);
    ReprioritisedRest(s, t, tcb, after);
    ReprioritisedTimely(s, t, tcb, after);
    StatusKept(s, t, after);
  }

  lemma ReprioritisedRest(s: Snapshot, t: Task, tcb: Tcb, after: Db)
    requires Core(s, {}) && Reprioritised(s.db, t, tcb, after) && SamePlace(tcb, s.db.tasks[t])
    requires tcb.priority < MAX_PRIORITIES
    ensures after.Placed(MAX_PRIORITIES) && WaitersBlocked(after, {}) && |after.tasks| == |s.db.tasks|
    ensures t in after.tasks && after.tasks[t].eventList == s.db.tasks[t].eventList
    ensures StatusOf(after.tasks[t], s.clock) == StatusOf(s.db.tasks[t], s.clock)
  {
    hide Db.Consistent, WakeSorted, NothingAbove;
  }

  lemma ReprioritisedTimely(s: Snapshot, t: Task, tcb: Tcb, after: Db)
    requires Reprioritised(s.db, t, tcb, after) && SamePlace(tcb, s.db.tasks[t]) && SleepersUntouched(s.db, t, after)
    requires s.clock.Valid()
    ensures Timely(s) ==> Timely(s.(db := after, top := TopAfter(s.top, s.db, t, tcb.priority)))
  {
  }

  // ---------------------------------------------------------------- creating and deleting

  function DeletedDb(d: Db, t: Task): Db
    requires t in d.tasks
  {
    d.DetachState(t).DetachEvent(t).Forget(t)
  }

  /** The task is gone from the model. */
  function Forgotten(m: Model, t: Task): Model {
    m.(status := m.status - {t}, waits := m.waits - {t})
  }

  lemma DetachedBoth(d: Db, t: Task)
    requires d.Consistent() && t in d.tasks
    ensures var e := d.DetachState(t).DetachEvent(t);
            && e.Consistent()
            && e.tasks == d.tasks[t := d.tasks[t].(stateList := None, eventList := None)]
            && (forall l :: e.L(l) == RemoveIfIn(d.L(l), t))
  {
    d.DetachStateConsistent(t);
    d.DetachState(t).DetachEventConsistent(t);
  }

  lemma OffLists(d: Db, t: Task)
    requires d.Consistent() && t in d.tasks && d.tasks[t].stateList == None && d.tasks[t].eventList == None
    ensures forall l :: t !in d.L(l).items
  {
    forall l
      ensures t !in d.L(l).items
    {
      if t in d.L(l).items {
        Listed(d, l, t);
        assert false;
      }
    }
  }

  /** A control block on no list means nothing to the timeline. */
  lemma ForgetModel(d: Db, t: Task, c: Clock)
    requires d.Consistent() && t in d.tasks && d.tasks[t].stateList == None && d.tasks[t].eventList == None && c.Valid()
    ensures ModelOf(d.Forget(t), c) == Forgotten(ModelOf(d, c), t)
    ensures WakeSorted(d) ==> WakeSorted(d.Forget(t))
  {
    OffLists(d, t);
    hide Db.Consistent, StatusOf, Sleepers, WakeKeys, Sorted;
    ForgottenSleepers(d, t, c.delayed, c.overflows);
    ForgottenSleepers(d, t, c.Overflow(), c.overflows + 1);
    ForgottenSleepers(d, t, DelayedA, 0);
    ForgottenSleepers(d, t, DelayedB, 0);
    ForgottenMaps(d, t, c);
  }

  lemma ForgottenSleepers(d: Db, t: Task, l: ListId, epoch: nat)
    requires t !in d.L(l).items
    ensures Sleepers(d.Forget(t), d.Forget(t).L(l).items, epoch) == Sleepers(d, d.L(l).items, epoch)
    ensures WakeKeys(d.Forget(t), l) == WakeKeys(d, l)
  {
  }

  lemma ForgottenMaps(d: Db, t: Task, c: Clock)
    ensures Statuses(d.Forget(t).tasks, c) == Statuses(d.tasks, c) - {t} && Waits(d.Forget(t).tasks) == Waits(d.tasks) - {t}
  {
    hide StatusOf;
  }

  lemma DeletedModel(d: Db, t: Task, c: Clock)
    requires d.Consistent() && t in d.tasks && c.Valid() && WakeSorted(d)
    ensures DeletedDb(d, t).Consistent() && WakeSorted(DeletedDb(d, t))
    ensures ModelOf(DeletedDb(d, t), c) == Forgotten(Leave(ModelOf(d, c), t, Runnable), t)
  {
    hide ModelOf, WakeSorted, Leave, Forgotten, Db.Consistent;
    var e := d.DetachState(t).DetachEvent(t);
    DetachedBoth(d, t);
    MovedSorted(d, t, None, e);
    MovedModel(d, c, t, None, e);
    ForgetModel(e, t, c);
    e.ForgetConsistent(t);
  }

  lemma DeletedRest(s: Snapshot, t: Task)
    requires Core(s, {}) && t in s.db.tasks && t != s.current && s.db.tasks[t].stateList != Some(Termination)
    ensures var after := DeletedDb(s.db, t);
            && after.Placed(MAX_PRIORITIES) && WaitersBlocked(after, {}) && NothingAbove(after, s.top)
            && s.current in after.tasks && |after.tasks| == |s.db.tasks| - 1
            && |after.L(Termination).items| == |s.db.L(Termination).items|
            && (NoneOverdue(s.db, s.clock) ==> NoneOverdue(after, s.clock))
            && (NonePending(s.db) ==> NonePending(after))
  {
    hide DeletedDb, Db.Consistent, WakeSorted, Db.Placed, WaitersBlocked, NothingAbove, NoneOverdue, NonePending;
    OnList(s.db, Termination, t);
    DeletedFacts(s.db, t);
    DeletedItems(s.db, t, s.clock.delayed);
    DeletedAfter(s, t, DeletedDb(s.db, t));
  }

  lemma DeletedFacts(d: Db, t: Task)
    requires d.Consistent() && t in d.tasks
    ensures DeletedDb(d, t).tasks == d.tasks - {t}
    ensures forall l :: DeletedDb(d, t).L(l) == RemoveIfIn(d.L(l), t)
  {
    DetachedBoth(d, t);
    hide Db.Consistent, Db.DetachState, Db.DetachEvent;
  }

  lemma DeletedAfter(s: Snapshot, t: Task, after: Db)
    requires Core(s, {}) && t in s.db.tasks && t != s.current && t !in s.db.L(Termination).items
    requires after.tasks == s.db.tasks - {t} && forall l :: after.L(l) == RemoveIfIn(s.db.L(l), t)
    requires forall u :: u in after.L(s.clock.delayed).items ==> u in s.db.L(s.clock.delayed).items
    ensures after.Placed(MAX_PRIORITIES) && WaitersBlocked(after, {}) && NothingAbove(after, s.top)
    ensures s.current in after.tasks && |after.tasks| == |s.db.tasks| - 1
    ensures |after.L(Termination).items| == |s.db.L(Termination).items|
    ensures NoneOverdue(s.db, s.clock) ==> NoneOverdue(after, s.clock)
    ensures NonePending(s.db) ==> NonePending(after)
  {
    hide Db.Consistent, WakeSorted;
    assert |after.tasks.Keys| == |s.db.tasks.Keys - {t}|;
    forall p | s.top < p
      ensures after.L(Ready(p)).items == []
    {
      assert s.db.L(Ready(p)).items == [];
    }
  }

  lemma DeletedItems(d: Db, t: Task, l: ListId)
    requires d.Consistent() && t in d.tasks
    ensures forall u :: u in DeletedDb(d, t).L(l).items ==> u in d.L(l).items
  {
    DetachedBoth(d, t);
    if t in d.L(l).items {
      assert WellFormed(d.L(l));
      DropNoDuplicates(d.L(l).items, PositionOf(d.L(l).items, t));
    }
  }

  /** vTaskDelete of another task: it leaves every list and its control block is freed. */
  lemma DeleteOther(s: Snapshot, t: Task)
    requires Core(s, {}) && t in s.db.tasks && t != s.current && s.db.tasks[t].stateList != Some(Termination)
    ensures var after := DeletedDb(s.db, t);
            && Core(s.(db := after, numberOfTasks := s.numberOfTasks - 1), {})
            && (NoneOverdue(s.db, s.clock) ==> NoneOverdue(after, s.clock))
            && (NonePending(s.db) ==> NonePending(after))
            && ModelOf(after, s.clock) == Forgotten(Leave(s.Model(), t, Runnable), t)
  {
    hide ModelOf, WakeSorted, Db.Consistent, NothingAbove, WaitersBlocked, NoneOverdue, DeletedDb, Leave, Forgotten;
    DeletedRest(s, t);
    DeletedModel(s.db, t, s.clock);
  }

  lemma TerminatedLeaves(m: Model, t: Task)
    requires t in m.status && m.status[t] == Terminated
    ensures Forgotten(Leave(m, t, Runnable), t) == Forgotten(m, t)
  {
  }

  lemma TerminatedTask(s: Snapshot, t: Task)
    requires Core(s, {}) && t in s.db.L(Termination).items
    ensures t in s.db.tasks && s.db.tasks[t].stateList == Some(Termination) && s.db.tasks[t].eventList == None
    ensures t in s.Model().status && s.Model().status[t] == Terminated
  {
    Listed(s.db, Termination, t);
  }

  lemma CleanedLists(s: Snapshot, t: Task)
    requires s.db.Consistent() && t in s.db.tasks && t in s.db.L(Termination).items
    requires s.db.tasks[t].stateList == Some(Termination) && s.db.tasks[t].eventList == None
    ensures var after := DeletedDb(s.db, t);
            && after.tasks == s.db.tasks - {t} && |after.tasks| == |s.db.tasks| - 1
            && |after.L(Termination).items| == |s.db.L(Termination).items| - 1
            && (forall l :: l != Termination ==> after.L(l) == s.db.L(l))
  {
    DetachedBoth(s.db, t);
    var after := DeletedDb(s.db, t);
    assert |after.tasks.Keys| == |s.db.tasks.Keys - {t}|;
    forall l | l != Termination
      ensures after.L(l) == s.db.L(l)
    {
      if t in s.db.L(l).items {
        Listed(s.db, l, t);
      }
    }
  }

  lemma CleanedRest(s: Snapshot, t: Task)
    requires Core(s, {}) && t in s.db.L(Termination).items && t != s.current
    ensures t in s.db.tasks
    ensures var after := DeletedDb(s.db, t);
            && after.Placed(MAX_PRIORITIES) && WaitersBlocked(after, {}) && NothingAbove(after, s.top)
            && s.current in after.tasks && |after.tasks| == |s.db.tasks| - 1
            && |after.L(Termination).items| == |s.db.L(Termination).items| - 1
            && (forall l :: l != Termination ==> after.L(l) == s.db.L(l))
  {
    hide DeletedDb, WakeSorted, Db.Consistent;
    TerminatedTask(s, t);
    CleanedLists(s, t);
  }

  /** One round of the idle task's clean-up: a terminated task's control block is freed. */
  lemma CleanUp(s: Snapshot, t: Task)
    requires Core(s, {}) && t in s.db.L(Termination).items && t != s.current
    ensures t in s.db.tasks && s.db.tasks[t].eventList == None
    ensures var after := DeletedDb(s.db, t);
            && Core(s.(db := after, numberOfTasks := s.numberOfTasks - 1, deleted := s.deleted - 1), {})
            && (Timely(s) ==> Timely(s.(db := after, numberOfTasks := s.numberOfTasks - 1, deleted := s.deleted - 1)))
            && (NonePending(s.db) ==> NonePending(after))
            && ModelOf(after, s.clock) == Forgotten(s.Model(), t)
  {
    hide ModelOf, WakeSorted, Db.Consistent, NothingAbove, WaitersBlocked, DeletedDb, Leave, Forgotten;
    TerminatedTask(s, t);
    CleanedRest(s, t);
    DeletedModel(s.db, t, s.clock);
    TerminatedLeaves(s.Model(), t);
    CleanedTimely(s, t);
  }

  lemma CleanedTimely(s: Snapshot, t: Task)
    requires t in s.db.tasks && s.clock.Valid()
    requires var after := DeletedDb(s.db, t); forall l :: l != Termination ==> after.L(l) == s.db.L(l)
    requires s.db.Consistent() && s.db.tasks[t].stateList == Some(Termination)
    requires s.numberOfTasks > 0 && s.deleted > 0
    ensures Timely(s) ==> Timely(s.(db := DeletedDb(s.db, t), numberOfTasks := s.numberOfTasks - 1, deleted := s.deleted - 1))
  {
    DetachedBoth(s.db, t);
  }

  /** xTaskCreate: a fresh control block, ready at its priority. */
  lemma Create(s: Snapshot, t: Task, tcb: Tcb, after: Db)
    requires Core(s, {}) && t !in s.db.tasks && tcb.priority < MAX_PRIORITIES
    requires tcb.stateList == None && tcb.eventList == None
    requires after == s.db.SetTask(t, tcb).AttachEnd(Ready(tcb.priority), t)
    ensures Core(s.(db := after, top := TopWith(s.top, Ready(tcb.priority)), numberOfTasks := s.numberOfTasks + 1), {})
    ensures Timely(s) ==>
              Timely(s.(db := after, top := TopWith(s.top, Ready(tcb.priority)), numberOfTasks := s.numberOfTasks + 1))
    ensures NonePending(s.db) ==> NonePending(after)
    ensures ModelOf(after, s.clock) == s.Model().(status := s.Model().status[t := Runnable])
    ensures after.tasks == s.db.tasks[t := tcb.(stateList := Some(Ready(tcb.priority)))]
  {
    hide ModelOf, NothingAbove, Db.Consistent, WakeSorted, Db.L;
    hide Db.SetTask, Db.AttachEnd, Timely, NonePending, WaitersBlocked, Db.Placed;
    CreatedFacts(s.db, t, tcb, after);
    CreatedModel(s, t, tcb, after);
    CreatedAbove(s, t, tcb, after);
    CreatedRest(s.db, t, tcb, after);
    CreatedTimely(s, t, tcb, after);
  }

  lemma CreatedRest(d: Db, t: Task, tcb: Tcb, after: Db)
    requires d.Placed(MAX_PRIORITIES) && WaitersBlocked(d, {}) && t !in d.tasks && tcb.eventList == None
    requires tcb.priority < MAX_PRIORITIES && after.tasks == d.tasks[t := tcb.(stateList := Some(Ready(tcb.priority)))]
    ensures after.Placed(MAX_PRIORITIES) && WaitersBlocked(after, {}) && |after.tasks| == |d.tasks| + 1
  {
  }

  lemma CreatedFacts(d: Db, t: Task, tcb: Tcb, after: Db)
    requires d.Consistent() && t !in d.tasks && tcb.stateList == None && tcb.eventList == None
    requires after == d.SetTask(t, tcb).AttachEnd(Ready(tcb.priority), t)
    ensures after.Consistent() && after.tasks == d.tasks[t := tcb.(stateList := Some(Ready(tcb.priority)))]
    ensures forall l :: l != Ready(tcb.priority) ==> after.L(l) == d.L(l) && t !in d.L(l).items
  {
    var dest, e := Ready(tcb.priority), d.SetTask(t, tcb);
    d.NewTaskConsistent(t, tcb);
    e.AttachConsistent(dest, EndPosition(e.L(dest)), t);
  }

  lemma CreatedTimely(s: Snapshot, t: Task, tcb: Tcb, after: Db)
    requires s.db.Consistent() && s.clock.Valid() && t !in s.db.tasks && tcb.stateList == None && tcb.eventList == None
    requires after == s.db.SetTask(t, tcb).AttachEnd(Ready(tcb.priority), t)
    ensures Timely(s) ==>
              Timely(s.(db := after, top := TopWith(s.top, Ready(tcb.priority)), numberOfTasks := s.numberOfTasks + 1))
    ensures NonePending(s.db) ==> NonePending(after)
    ensures after.L(Termination) == s.db.L(Termination)
  {
    CreatedFacts(s.db, t, tcb, after);
  }

  lemma CreatedAbove(s: Snapshot, t: Task, tcb: Tcb, after: Db)
    requires NothingAbove(s.db, s.top) && t !in s.db.tasks && tcb.stateList == None && tcb.eventList == None
    requires after == s.db.SetTask(t, tcb).AttachEnd(Ready(tcb.priority), t)
    ensures NothingAbove(after, TopWith(s.top, Ready(tcb.priority)))
  {
    forall p | TopWith(s.top, Ready(tcb.priority)) < p
      ensures after.L(Ready(p)).items == []
    {
      assert s.db.L(Ready(p)).items == [];
    }
  }

  lemma CreatedModel(s: Snapshot, t: Task, tcb: Tcb, after: Db)
    requires s.db.Consistent() && s.clock.Valid() && t !in s.db.tasks && tcb.stateList == None && tcb.eventList == None
    requires after == s.db.SetTask(t, tcb).AttachEnd(Ready(tcb.priority), t)
    ensures ModelOf(after, s.clock) == s.Model().(status := s.Model().status[t := Runnable])
    ensures WakeSorted(s.db) ==> WakeSorted(after)
  {
    var c, d := s.clock, s.db;
    CreatedFacts(d, t, tcb, after);
    CreatedSleepers(d, t, after, c.delayed, c.overflows);
    CreatedSleepers(d, t, after, c.Overflow(), c.overflows + 1);
    CreatedSleepers(d, t, after, DelayedA, 0);
    CreatedSleepers(d, t, after, DelayedB, 0);
    CreatedMaps(d, t, tcb, after, c);
    hide Db.Consistent, Db.AttachEnd, Db.SetTask, Db.L, Sleepers, WakeKeys, Statuses, Waits, Sorted;
  }

  lemma CreatedMaps(d: Db, t: Task, tcb: Tcb, after: Db, c: Clock)
    requires t !in d.tasks && tcb.eventList == None
    requires after.tasks == d.tasks[t := tcb.(stateList := Some(Ready(tcb.priority)))]
    ensures Statuses(after.tasks, c) == Statuses(d.tasks, c)[t := Runnable] && Waits(after.tasks) == Waits(d.tasks)
  {
  }

  lemma CreatedSleepers(d: Db, t: Task, after: Db, l: ListId, epoch: nat)
    requires t !in d.tasks && t in after.tasks && after.tasks == d.tasks[t := after.tasks[t]]
    requires after.L(l) == d.L(l) && t !in d.L(l).items
    ensures Sleepers(after, after.L(l).items, epoch) == Sleepers(d, d.L(l).items, epoch)
    ensures WakeKeys(after, l) == WakeKeys(d, l)
  {
  }

  // ---------------------------------------------------------------- task selection

  /** Some task is ready: the idle task always is. */
  ghost predicate SomeReady(d: Db) {
    exists t :: t in d.tasks && IsReady(d, t)
  }

  predicate IsReady(d: Db, t: Task) {
    t in d.tasks && d.tasks[t].stateList == Some(Ready(d.tasks[t].priority))
  }

  lemma ReadyBelowTop(d: Db, top: nat)
    requires d.Consistent() && d.Placed(MAX_PRIORITIES) && SomeReady(d) && NothingAbove(d, top)
    ensures exists p :: 0 <= p <= top && d.L(Ready(p)).items != []
  {
    var t :| t in d.tasks && IsReady(d, t);
    assert d.Contained(t);
    var p := d.tasks[t].priority;
    assert d.L(Ready(p)).items != [];
  }

  lemma HighestReady(d: Db, top: nat, t: Task)
    requires d.Consistent() && d.Placed(MAX_PRIORITIES) && NothingAbove(d, top)
    requires t in d.L(Ready(top)).items
    ensures IsReady(d, t) && d.tasks[t].priority == top
    ensures forall u :: IsReady(d, u) ==> d.tasks[u].priority <= top
  {
    Listed(d, Ready(top), t);
    forall u | IsReady(d, u)
      ensures d.tasks[u].priority <= top
    {
      assert d.Contained(u);
    }
  }

  /** Turning one ready list to its next entry changes nothing but that list's index. */
  function Turned(d: Db, p: nat): Db
    requires d.L(Ready(p)).items != [] && d.L(Ready(p)).index <= |d.L(Ready(p)).items|
  {
    Db(d.lists[Ready(p) := Next(d.L(Ready(p)))], d.tasks)
  }

  lemma TurnedConsistent(d: Db, p: nat)
    requires d.Consistent() && d.L(Ready(p)).items != []
    ensures d.L(Ready(p)).index <= |d.L(Ready(p)).items|
    ensures Turned(d, p).Consistent() && forall l :: Turned(d, p).L(l).items == d.L(l).items
    ensures forall l :: l != Ready(p) ==> Turned(d, p).L(l) == d.L(l)
  {
    assert WellFormed(d.L(Ready(p)));
    var after := Turned(d, p);
    forall l
      ensures WellFormed(after.L(l)) && after.L(l).items == d.L(l).items
    {
      assert WellFormed(d.L(l));
    }
    forall u | u in after.tasks
      ensures after.Contained(u)
    {
      assert d.Contained(u);
    }
  }

  lemma TurnedModel(d: Db, p: nat, c: Clock)
    requires d.Consistent() && d.L(Ready(p)).items != []
    ensures d.L(Ready(p)).index <= |d.L(Ready(p)).items|
    ensures ModelOf(Turned(d, p), c) == ModelOf(d, c)
    ensures WakeSorted(d) ==> WakeSorted(Turned(d, p))
  {
    TurnedConsistent(d, p);
    var after := Turned(d, p);
    assert Sleepers(after, after.L(c.delayed).items, c.overflows) == Sleepers(d, d.L(c.delayed).items, c.overflows);
    assert Sleepers(after, after.L(c.Overflow()).items, c.overflows + 1) == Sleepers(d, d.L(c.Overflow()).items, c.overflows + 1);
    assert WakeKeys(after, DelayedA) == WakeKeys(d, DelayedA) && WakeKeys(after, DelayedB) == WakeKeys(d, DelayedB);
  }

  /** taskSELECT_HIGHEST_PRIORITY_TASK, once the search has found the highest list in use. */
  lemma Select(s: Snapshot, top: nat)
    requires Core(s, {}) && top <= s.top && NothingAbove(s.db, top) && s.db.L(Ready(top)).items != []
    ensures s.db.L(Ready(top)).index <= |s.db.L(Ready(top)).items|
    ensures var after := Turned(s.db, top);
            var t := Indexed(after.L(Ready(top)));
            && Core(s.(db := after, top := top, current := t), {})
            && (Timely(s) ==> Timely(s.(db := after, top := top, current := t)))
            && (NonePending(s.db) ==> NonePending(after))
            && ModelOf(after, s.clock) == s.Model()
            && IsReady(after, t) && after.tasks[t].priority == top && HighestRuns(after, t)
  {
    hide ModelOf, WakeSorted, Db.Consistent;
    TurnedConsistent(s.db, top);
    TurnedModel(s.db, top, s.clock);
    var after := Turned(s.db, top);
    var t := Indexed(after.L(Ready(top)));
    assert t in after.L(Ready(top)).items;
    HighestReady(after, top, t);
    TurnedTimely(s, top, t);
  }

  lemma TurnedTimely(s: Snapshot, top: nat, t: Task)
    requires s.db.Consistent() && s.db.L(Ready(top)).items != []
    ensures s.db.L(Ready(top)).index <= |s.db.L(Ready(top)).items|
    ensures Timely(s) ==> Timely(s.(db := Turned(s.db, top), top := top, current := t))
  {
    TurnedConsistent(s.db, top);
  }

  // ---------------------------------------------------------------- waiting for events

  function EventKeys(d: Db, l: ListId): (k: seq<nat>)
    ensures |k| == |d.L(l).items|
  {
    var items := d.L(l).items;
    seq(|items|, i requires 0 <= i < |items| => if items[i] in d.tasks then d.tasks[items[i]].eventValue else 0)
  }

  /** vListInsert on an event list: by event value, that is by falling priority. */
  function EventQueued(d: Db, l: ListId, t: Task): Db
    requires t in d.tasks
  {
    d.Attach(l, SortedPosition(EventKeys(d, l), d.tasks[t].eventValue), t)
  }

  lemma AttachEvent(s: Snapshot, l: ListId, k: nat, but: set<Task>)
    requires Core(s, {}) && Running(s) && l.Event? && k <= |s.db.L(l).items|
    ensures var after := s.db.Attach(l, k, s.current);
            && Core(s.(db := after), {s.current}) && (Timely(s) ==> Timely(s.(db := after)))
            && (NonePending(s.db) ==> NonePending(after))
            && ModelOf(after, s.clock) == WaitFor(s.Model(), s.current, l)
            && Running(s.(db := after))
  {
    hide ModelOf, WakeSorted, NothingAbove, Timely, WaitFor;
    var after := s.db.Attach(l, k, s.current);
    assert s.db.tasks[s.current].eventList == None;
    s.db.AttachConsistent(l, k, s.current);
    EventChangedCore(s, s.current, after, {}, {s.current});
  }

  /** Head of an event list: a blocked task. */
  lemma Waiter(s: Snapshot, e: ListId, t: Task)
    requires Core(s, {}) && e.Event? && t in s.db.L(e).items
    ensures t in s.db.tasks && s.db.tasks[t].eventList == Some(e) && Blocked(s.db.tasks[t])
  {
    Listed(s.db, e, t);
  }

  /** Waiters are other tasks than the running one. */
  lemma WaiterGives(s: Snapshot, e: ListId)
    requires Core(s, {}) && e.Event? && s.db.L(e).items != []
    ensures s.db.L(e).items[0] in s.db.tasks
    ensures Running(s) ==> s.db.L(e).items[0] != s.current
  {
    Waiter(s, e, s.db.L(e).items[0]);
  }

  lemma ParkPendingDb(d: Db, e: ListId, t: Task)
    requires d.Consistent() && t in d.tasks && e.Event? && d.tasks[t].eventList == Some(e)
    ensures var after := d.DetachEvent(t).AttachEnd(PendingReady, t);
            && after.Consistent()
            && after.tasks == d.tasks[t := d.tasks[t].(eventList := Some(PendingReady))]
            && (forall l :: IsStateList(l) ==> after.L(l) == d.L(l))
            && after.L(PendingReady) == InsertEnd(d.L(PendingReady), t)
            && after.L(e).items == Without(d.L(e).items, t)
  {
    var f := d.DetachEvent(t);
    d.DetachEventConsistent(t);
    f.AttachConsistent(PendingReady, EndPosition(f.L(PendingReady)), t);
    NotPending(d, e, t);
  }

  /** With the scheduler suspended a released waiter is parked on the pending-ready list. */
  lemma ParkPending(s: Snapshot, e: ListId, t: Task)
    requires Core(s, {}) && e.Event? && t in s.db.L(e).items
    ensures t in s.db.tasks
    ensures var after := s.db.DetachEvent(t).AttachEnd(PendingReady, t);
            && Core(s.(db := after), {}) && (Timely(s) ==> Timely(s.(db := after)))
            && ModelOf(after, s.clock) == WaitFor(s.Model(), t, PendingReady)
            && after.L(PendingReady) == InsertEnd(s.db.L(PendingReady), t)
            && after.L(e).items == Without(s.db.L(e).items, t)
            && after.tasks == s.db.tasks[t := s.db.tasks[t].(eventList := Some(PendingReady))]
            && SamePriorities(s, t, after)
  {
    hide ModelOf, WakeSorted, NothingAbove, Timely, WaitFor, Db.Consistent, Db.AttachEnd, Db.DetachEvent;
    Waiter(s, e, t);
    ParkPendingDb(s.db, e, t);
    EventChangedCore(s, t, s.db.DetachEvent(t).AttachEnd(PendingReady, t), {}, {});
  }

  lemma NotPending(d: Db, e: ListId, t: Task)
    requires d.Consistent() && t in d.tasks && e.Event? && d.tasks[t].eventList == Some(e)
    ensures t !in d.L(PendingReady).items
  {
    if t in d.L(PendingReady).items {
      Listed(d, PendingReady, t);
      assert false;
    }
  }

  predicate SamePriorities(s: Snapshot, t: Task, after: Db) {
    && t in s.db.tasks && s.current in s.db.tasks && t in after.tasks && s.current in after.tasks
    && after.tasks[t].priority == s.db.tasks[t].priority
    && after.tasks[s.current].priority == s.db.tasks[s.current].priority
  }

  /** A blocked task leaves its event list and becomes ready. */
  lemma ReleaseWaiter(s: Snapshot, t: Task, after: Db)
    requires Core(s, {}) && t in s.db.tasks && Blocked(s.db.tasks[t])
    requires after == s.db.DetachEvent(t).DetachState(t).AttachEnd(Ready(s.db.tasks[t].priority), t)
    ensures var dest := Ready(s.db.tasks[t].priority);
            && Core(MovedTo(s, dest, after), {}) && (Timely(s) ==> Timely(MovedTo(s, dest, after)))
            && (NonePending(s.db) ==> NonePending(after))
            && s.db.Relocated(t, dest, after)
    ensures ModelOf(after, s.clock) == Release(s.Model(), t)
    ensures SamePriorities(s, t, after)
    ensures forall l :: l != Ready(s.db.tasks[t].priority) ==> after.L(l) == RemoveIfIn(s.db.L(l), t)
  {
    hide ModelOf, Db.Consistent, Db.DetachState, Db.DetachEvent, Db.AttachEnd, Release, Leave, Timely;
    hide WaitersBlocked, NothingAbove, WakeSorted, Db.Placed, NonePending;
    s.db.RelocateEventFirst(t, Ready(s.db.tasks[t].priority));
    Relocate(s, t, Ready(s.db.tasks[t].priority), after, {});
    assert {} - {t} == {};
    ReleaseIsLeave(s.Model(), t);
  }

  /** The event item value of a waiter is overwritten with what it is to be told. */
  lemma SetEventValue(s: Snapshot, t: Task, value: TickType)
    requires Core(s, {}) && t in s.db.tasks
    ensures var after := s.db.SetTask(t, s.db.tasks[t].(eventValue := value));
            && Core(s.(db := after), {}) && (Timely(s) ==> Timely(s.(db := after)))
            && (NonePending(s.db) ==> NonePending(after))
            && ModelOf(after, s.clock) == s.Model()
            && forall l :: after.L(l) == s.db.L(l)
  {
    hide ModelOf, WakeSorted, NothingAbove, Timely, Db.Consistent;
    var after := s.db.SetTask(t, s.db.tasks[t].(eventValue := value));
    s.db.SetTaskConsistent(t, s.db.tasks[t].(eventValue := value));
    if s.db.tasks[t].eventList.Some? && !Blocked(s.db.tasks[t]) {
      assert false;
    }
    EventChangedCore(s, t, after, {}, {});
    StatusKept(s, t, after);
    WaitKept(s, t);
  }

  lemma WaitKept(s: Snapshot, t: Task)
    requires t in s.db.tasks
    ensures match s.db.tasks[t].eventList
            case Some(e) => WaitFor(s.Model(), t, e) == s.Model()
            case None => s.Model().(waits := s.Model().waits - {t}) == s.Model()
  {
  }

  lemma CoreTables(s: Snapshot, but: set<Task>)
    requires Core(s, but)
    ensures s.db.Consistent() && s.clock.Valid() && s.current in s.db.tasks
  {
  }

  /** Going to sleep changes no event list. */
  lemma EventListStays(s: Snapshot, e: ListId, after: Db)
    requires e.Event?
    requires exists l, value :: Slept(s, l, value, after)
    ensures after.L(e) == s.db.L(e)
  {
  }

  /** The place vListInsert finds, by the event values of the waiters. */
  lemma EventQueuedPlace(s: Snapshot, e: ListId)
    requires Core(s, {}) && e.Event?
    ensures s.current in s.db.tasks
    ensures var was, l := s.db.tasks, s.db.L(e).items;
            exists k :: 0 <= k <= |l| && EventQueued(s.db, e, s.current).L(e).items == Put(l, k, s.current)
                        && (forall i :: 0 <= i < k ==> l[i] in was && was[l[i]].eventValue <= was[s.current].eventValue)
                        && (k < |l| ==> l[k] in was && was[l[k]].eventValue > was[s.current].eventValue)
  {
    var l, keys := s.db.L(e).items, EventKeys(s.db, e);
    var k := SortedPosition(keys, s.db.tasks[s.current].eventValue);
    forall i | 0 <= i < |l|
      ensures l[i] in s.db.tasks && keys[i] == s.db.tasks[l[i]].eventValue
    {
      assert l[i] in l;
      Listed(s.db, e, l[i]);
    }
    assert EventQueued(s.db, e, s.current).L(e).items == Put(l, k, s.current);
  }

  lemma EventQueuedIs(d: Db, l: ListId, t: Task)
    requires t in d.tasks
    ensures EventQueued(d, l, t) == d.Attach(l, SortedPosition(EventKeys(d, l), d.tasks[t].eventValue), t)
  {
  }

  /** An item value with its top bit, taskEVENT_LIST_ITEM_VALUE_IN_USE, set. */
  function MarkInUse(value: TickType): TickType {
    if value < VALUE_IN_USE then value + VALUE_IN_USE else value
  }

  /** The wrapped wake value, read in the epoch of its list, is the true wake time. */
  lemma WakeInstant(s: Snapshot, ticks: TickType)
    ensures var value := TickAdd(s.clock.tick, ticks);
            Instant(if value < s.clock.tick then s.clock.overflows + 1 else s.clock.overflows, value) == s.Model().now + ticks
  {
  }

  lemma NoEvent(d: Db, t: Task)
    requires t in d.tasks && d.tasks[t].eventList == None
    ensures d.DetachEvent(t) == d
  {
  }

  lemma TimelySplit(s: Snapshot)
    requires Timely(s)
    ensures NoneOverdue(s.db, s.clock)
  {
  }

  lemma CoreDeleted(s: Snapshot, but: set<Task>)
    requires Core(s, but)
    ensures s.deleted == |s.db.L(Termination).items|
  {
  }

  function ForgottenAll(m: Model, ts: seq<Task>): Model
    decreases |ts|
  {
    if ts == [] then m else ForgottenAll(Forgotten(m, ts[0]), Tail(ts, 1))
  }

  lemma {:induction false} ForgottenKeys(m: Model, ts: seq<Task>, t: Task)
    ensures t in ForgottenAll(m, ts).status <==> t in m.status && t !in ts
    decreases |ts|
  {
    if ts != [] {
      ForgottenKeys(Forgotten(m, ts[0]), Tail(ts, 1), t);
      SequenceForms(ts, 1, t, []);
      assert ts == [ts[0]] + ts[1..];
    }
  }

  /** The terminated tasks, and no others, are gone. */
  lemma TerminatedGone(s: Snapshot, r: Snapshot)
    requires Core(s, {}) && r.Model() == ForgottenAll(s.Model(), s.db.L(Termination).items)
    ensures forall t :: t in r.db.tasks <==> t in s.db.tasks && s.db.tasks[t].stateList != Some(Termination)
  {
    hide WakeSorted, WaitersBlocked, NothingAbove, Timeline, Waits, StatusOf;
    forall t
      ensures t in r.db.tasks <==> t in s.db.tasks && s.db.tasks[t].stateList != Some(Termination)
    {
      ForgottenKeys(s.Model(), s.db.L(Termination).items, t);
      assert t in r.db.tasks <==> t in r.Model().status;
      assert t in s.db.tasks <==> t in s.Model().status;
      if t in s.db.tasks {
        OnList(s.db, Termination, t);
      }
    }
  }

  lemma CleanUpLists(s: Snapshot, t: Task)
    requires Core(s, {}) && s.db.L(Termination).items != [] && t == s.db.L(Termination).items[0] && t != s.current
    ensures t in s.db.tasks && t in s.db.DetachState(t).tasks
    ensures DeletedDb(s.db, t) == s.db.DetachState(t).Forget(t)
    ensures DeletedDb(s.db, t).L(Termination).items == Tail(s.db.L(Termination).items, 1)
    ensures s.current in s.db.tasks ==>
              s.current in DeletedDb(s.db, t).tasks
              && DeletedDb(s.db, t).tasks[s.current].stateList == s.db.tasks[s.current].stateList
  {
    CoreTables(s, {});
    TerminatedTask(s, t);
    hide Core, Db.Consistent, Drop, Tail;
    DetachedBoth(s.db, t);
    HeadOut(s.db.L(Termination), t);
  }

  lemma MutexCount(s: Snapshot, t: Task, tcb: Tcb)
    requires Core(s, {}) && t in s.db.tasks && SamePlace(tcb, s.db.tasks[t])
    requires tcb.priority == s.db.tasks[t].priority
    ensures Core(s.(db := s.db.SetTask(t, tcb)), {})
    ensures Timely(s) ==> Timely(s.(db := s.db.SetTask(t, tcb)))
    ensures NonePending(s.db) ==> NonePending(s.db.SetTask(t, tcb))
    ensures ModelOf(s.db.SetTask(t, tcb), s.clock) == s.Model()
  {
    hide Timely, Db.L, Db.SetTask;
    hide ModelOf, Db.Consistent, WakeSorted, NothingAbove, SleepersUntouched, NonePending;
    var after := s.db.SetTask(t, tcb);
    SetTaskRest(s.db, t, tcb);
    s.db.SetTaskConsistent(t, tcb);
    SetTaskUntouched(s, t, tcb);
    UntouchedSorted(s.db, t, after);
    UntouchedModel(s.db, t, after, s.clock);
    StatusKept(s, t, after);
    SetTaskAbove(s.db, t, tcb, s.top);
  }

  lemma SetTaskUntouched(s: Snapshot, t: Task, tcb: Tcb)
    requires t in s.db.tasks && SamePlace(tcb, s.db.tasks[t])
    ensures SleepersUntouched(s.db, t, s.db.SetTask(t, tcb))
    ensures Timely(s) ==> Timely(s.(db := s.db.SetTask(t, tcb)))
    ensures NonePending(s.db) ==> NonePending(s.db.SetTask(t, tcb))
    ensures s.db.SetTask(t, tcb).L(Termination) == s.db.L(Termination)
  {
  }

  lemma SetTaskRest(d: Db, t: Task, tcb: Tcb)
    requires d.Placed(MAX_PRIORITIES) && WaitersBlocked(d, {}) && t in d.tasks && SamePlace(tcb, d.tasks[t])
    requires tcb.priority == d.tasks[t].priority
    ensures d.SetTask(t, tcb).Placed(MAX_PRIORITIES) && WaitersBlocked(d.SetTask(t, tcb), {})
    ensures d.SetTask(t, tcb).tasks == d.tasks[t := tcb] && |d.SetTask(t, tcb).tasks| == |d.tasks|
  {
  }

  lemma SetTaskAbove(d: Db, t: Task, tcb: Tcb, top: nat)
    requires NothingAbove(d, top)
    ensures NothingAbove(d.SetTask(t, tcb), top)
  {
  }

  lemma TimelyTogether(s: Snapshot)
    requires NoneBefore(s.db, s.clock.delayed, s.nextUnblock)
    ensures Timely(s) <==> NoneOverdue(s.db, s.clock)
  {
  }

  /** Before the start any ready task may take the place of the running one. */
  lemma OtherRuns(s: Snapshot, t: Task)
    requires Core(s, {}) && t in s.db.tasks
    ensures Core(s.(current := t), {})
    ensures Timely(s) ==> Timely(s.(current := t))
  {
  }

  lemma NeverAwake(s: Snapshot, m: Model, t: Task, n: nat)
    requires Core(s, {}) && t in s.db.tasks && s.Model() == Ticks(SleepForever(m, t), n)
    ensures !IsReady(s.db, t)
  {
    hide Db.Consistent, WakeSorted, Timeline, Waits, StatusOf;
    CoreFacts(s, {});
    ReadyIsRunnable(s.db, s.clock, t);
    assert s.Model().status[t] == Indefinite;
  }

  /** The parked tasks are ready at the end, and wait for nothing. */
  lemma PendingReadied(s: Snapshot, r: Snapshot, n: nat)
    requires Core(s, {}) && Core(r, {}) && OnlyPlacesChanged(s.db, r.db)
    requires r.Model() == Ticks(ReleaseAll(s.Model(), s.db.L(PendingReady).items), n)
    ensures forall t :: t in s.db.L(PendingReady).items ==> IsReady(r.db, t) && r.db.tasks[t].eventList == None
  {
    forall t | t in s.db.L(PendingReady).items
      ensures IsReady(r.db, t) && r.db.tasks[t].eventList == None
    {
      PendingTask(s, t);
      ReleasedReady(s, r, s.db.L(PendingReady).items, n, t);
    }
  }

  lemma ReleasedReady(s: Snapshot, r: Snapshot, ts: seq<Task>, n: nat, t: Task)
    requires Core(r, {}) && OnlyPlacesChanged(s.db, r.db) && t in s.db.tasks && t in ts
    requires r.Model() == Ticks(ReleaseAll(s.Model(), ts), n)
    ensures IsReady(r.db, t) && r.db.tasks[t].eventList == None
  {
    hide Db.Consistent, WakeSorted, Timeline, Waits, StatusOf, ReleaseAll;
    CoreFacts(r, {});
    ReleasedStatus(s.Model(), ts, t);
    ReadyIsRunnable(r.db, r.clock, t);
    assert r.Model().status[t] == Runnable;
  }

  /** A sleeper, n ticks later. */
  lemma AwakeIff(s: Snapshot, m: Model, t: Task, ticks: nat, n: nat)
    requires Core(s, {}) && t in s.db.tasks && s.Model() == Ticks(SleepUntil(m, t, m.now + ticks), n)
    ensures IsReady(s.db, t) <==> n > 0 && ticks <= n
  {
    hide Db.Consistent, WakeSorted, Timeline, Waits, Statuses;
    CoreFacts(s, {});
    ReadyIsRunnable(s.db, s.clock, t);
    assert s.Model().status[t] == if n > 0 && ticks <= n then Runnable else Timed(m.now + ticks);
  }

  lemma RelocatedTask(d: Db, t: Task, after: Db)
    requires t in d.tasks && d.Relocated(t, Ready(d.tasks[t].priority), after)
    ensures IsReady(after, t) && after.tasks[t].eventList == None
  {
  }

  lemma WeakerBut(s: Snapshot)
    requires Core(s, {})
    ensures Core(s, {s.current})
  {
  }

  lemma NothingToRelease(s: Snapshot)
    requires NonePending(s.db)
    ensures ReleaseAll(s.Model(), s.db.L(PendingReady).items) == s.Model()
  {
  }

  // ---------------------------------------------------------------- what the invariant says as a whole

  /** The state lists partition the tasks: every task is on one of them, and their lengths add up. */
  lemma TasksPartitioned(s: Snapshot, but: set<Task>, priorities: nat)
    requires Core(s, but) && priorities == MAX_PRIORITIES
    ensures s.db.ReadyLengths(priorities) + s.db.Length(DelayedA) + s.db.Length(DelayedB)
            + s.db.Length(Suspended) + s.db.Length(Termination) == s.numberOfTasks
    ensures forall t, l :: t in s.db.tasks && IsStateList(l) ==>
              (t in s.db.L(l).items <==> s.db.tasks[t].stateList == Some(l))
    ensures forall t, l :: t in s.db.tasks && !IsStateList(l) ==>
              (t in s.db.L(l).items <==> s.db.tasks[t].eventList == Some(l))
    ensures forall t, p :: t in s.db.tasks && s.db.tasks[t].stateList == Some(Ready(p)) ==> p == s.db.tasks[t].priority
    ensures forall t, p :: t in s.db.tasks && t !in but && s.db.tasks[t].stateList == Some(Ready(p)) ==>
              s.db.tasks[t].eventList == None
  {
    s.db.ListsPartitionTasks(priorities);
    forall t, l | t in s.db.tasks && IsStateList(l)
      ensures t in s.db.L(l).items <==> s.db.tasks[t].stateList == Some(l)
    {
      OnList(s.db, l, t);
    }
    forall t, l | t in s.db.tasks && !IsStateList(l)
      ensures t in s.db.L(l).items <==> s.db.tasks[t].eventList == Some(l)
    {
      assert s.db.Contained(t);
    }
  }

  /**
    The dual-list placement: a timed task is on the current list exactly when its true wake
    time lies in the current wrap epoch, and on the overflow list exactly when in the next.
   */
  lemma PlacedByEpoch(s: Snapshot, but: set<Task>, t: Task)
    requires Core(s, but) && IsTimed(s.Model(), t)
    ensures var wake := s.Model().status[t].wake;
            && t in s.db.tasks && s.db.tasks[t].wakeValue == wake % TICK_RANGE
            && s.clock.overflows == s.Model().now / TICK_RANGE && s.clock.tick == s.Model().now % TICK_RANGE
            && (t in s.db.L(s.clock.delayed).items <==> wake / TICK_RANGE == s.Model().now / TICK_RANGE)
            && (t in s.db.L(s.clock.Overflow()).items <==> wake / TICK_RANGE == s.Model().now / TICK_RANGE + 1)
  {
    OnList(s.db, s.clock.delayed, t);
    OnList(s.db, s.clock.Overflow(), t);
    InstantParts(s.clock.overflows, s.clock.tick);
    InstantParts(s.clock.overflows, s.db.tasks[t].wakeValue);
    InstantParts(s.clock.overflows + 1, s.db.tasks[t].wakeValue);
  }

  lemma InstantParts(epoch: nat, value: TickType)
    ensures Instant(epoch, value) / TICK_RANGE == epoch && Instant(epoch, value) % TICK_RANGE == value
  {
  }

  /** Blocking keeps the list switch safe unless it is for no ticks at the last tick of an epoch. */
  lemma BlockingIsSafeIff(s: Snapshot, ticks: TickType, but: set<Task>)
    requires Core(s, but) && Timely(s) && Running(s)
    ensures s.current in s.db.tasks && s.current in Undressed(s, TickAdd(s.clock.tick, ticks)).tasks
    ensures var value := TickAdd(s.clock.tick, ticks);
            var l := if value < s.clock.tick then s.clock.Overflow() else s.clock.delayed;
            NoneOverdue(Woken(s, value, l), s.clock) <==> ticks > 0 || s.clock.tick < PORT_MAX_DELAY
  {
    hide ModelOf, WakeSorted, Db.Consistent;
    var value := TickAdd(s.clock.tick, ticks);
    var l := if value < s.clock.tick then s.clock.Overflow() else s.clock.delayed;
    SleepTimed(s, value, l, but);
    SleepTimely(s, value, l, Woken(s, value, l), if l == s.clock.delayed && value < s.nextUnblock then value else s.nextUnblock);
  }

  /** A ready task stays ready while time passes. */
  lemma SomeReadyIff(s: Snapshot, but: set<Task>)
    requires Core(s, but)
    ensures SomeReady(s.db) <==> SomeRunnable(s.Model())
  {
    if SomeReady(s.db) {
      var t :| t in s.db.tasks && IsReady(s.db, t);
      assert t in s.Model().status && s.Model().status[t] == Runnable;
    }
    if SomeRunnable(s.Model()) {
      var t :| t in s.Model().status && s.Model().status[t] == Runnable;
      assert s.db.Contained(t);
      assert IsReady(s.db, t);
    }
  }

  ghost predicate SomeRunnable(m: Model) {
    exists t :: t in m.status && m.status[t] == Runnable
  }

  lemma RunnableStays(m: Model, n: nat)
    requires SomeRunnable(m)
    ensures SomeRunnable(Advance(m, n))
  {
    var t :| t in m.status && m.status[t] == Runnable;
    assert Advance(m, n).status[t] == Runnable;
  }

  // ---------------------------------------------------------------- the start

  function StartDb(first: Task, priority: nat): Db {
    Db(map[Ready(priority) := View([first], 0)],
       map[first := Tcb(priority, priority, 0, 0, Some(Ready(priority)), EventValueOf(priority), None)])
  }

  lemma StartsConsistent(first: Task, priority: nat)
    requires priority < MAX_PRIORITIES
    ensures TablesOk(StartDb(first, priority)) && IsReady(StartDb(first, priority), first)
  {
    var d := StartDb(first, priority);
    forall l, t | t in d.L(l).items
      ensures t in d.tasks && d.tasks[t].Container(l) == Some(l)
    {
    }
  }

  lemma FirstCreated(n: NewTask, s: Snapshot)
    requires n.priority < MAX_PRIORITIES
    requires s == Snapshot(StartDb(n.task, n.priority), Clock(0, 0, DelayedA), 0, n.priority, n.task, 1, 0)
    ensures Core(s, {}) && Timely(s) && NonePending(s.db) && HasStarted(s.db, n) && s.Model().timeline == []
    ensures s.db.tasks.Keys == {n.task}
  {
    StartsConsistent(n.task, n.priority);
  }

  /** The only task blocks for no ticks at the last tick before a wrap: the assertion of the list switch would fail. */
  lemma BlockedAtLastTick(t: Task)
    ensures var s := Snapshot(StartDb(t, 0), Clock(PORT_MAX_DELAY, 0, DelayedA), PORT_MAX_DELAY, 0, t, 1, 0);
            && Core(s, {}) && Timely(s) && Running(s)
            && t in Undressed(s, PORT_MAX_DELAY).tasks
            && var after := Woken(s, PORT_MAX_DELAY, DelayedA);
               !NoneOverdue(after, s.clock) && after.L(DelayedA).items != []
  {
    var s := Snapshot(StartDb(t, 0), Clock(PORT_MAX_DELAY, 0, DelayedA), PORT_MAX_DELAY, 0, t, 1, 0);
    StartsConsistent(t, 0);
    BlockingIsSafeIff(s, 0, {});
  }

  /** A task created before the start, and its priority. */
  datatype NewTask = NewTask(task: Task, priority: nat)

  /** Creation k runs first: no other task has a higher priority, no later one the same. */
  predicate RunsFirst(created: seq<NewTask>, k: nat)
    requires k < |created|
  {
    forall i :: 0 <= i < |created| && i != k ==>
      if i < k then created[i].priority <= created[k].priority else created[i].priority < created[k].priority
  }

  lemma FirstMeans(created: seq<NewTask>, k: nat)
    requires k < |created| && RunsFirst(created, k)
    ensures forall i :: 0 <= i < k ==> created[i].priority <= created[k].priority
    ensures forall i :: k < i < |created| ==> created[i].priority < created[k].priority
  {
  }

  lemma FirstAlone(created: seq<NewTask>)
    requires created != []
    ensures RunsFirst(created[..1], 0) && TasksOf(created, 1) == {created[0].task}
  {
  }

  /** One more creation: it runs first unless its priority is lower. */
  lemma NextCreated(created: seq<NewTask>, i: nat, k: nat)
    requires k < i < |created| && RunsFirst(created[..i], k)
    ensures RunsFirst(created[..i + 1], if created[k].priority <= created[i].priority then i else k)
    ensures TasksOf(created, i + 1) == TasksOf(created, i) + {created[i].task}
  {
    var now := created[..i + 1];
    assert forall j :: 0 <= j < i ==> created[..i][j] == now[j] == created[j];
  }

  lemma OthersStarted(a: Db, b: Db, t: Task, n: NewTask)
    requires t !in a.tasks && t in b.tasks && b.tasks == a.tasks[t := b.tasks[t]] && HasStarted(a, n)
    ensures HasStarted(b, n)
  {
  }

  /** Ready at the priority it was created with. */
  ghost predicate HasStarted(d: Db, n: NewTask) {
    IsReady(d, n.task) && d.tasks[n.task].priority == d.tasks[n.task].basePriority == n.priority
  }

  lemma NotAmongFirst(created: seq<NewTask>, i: nat)
    requires i < |created| && forall j, k :: 0 <= j < k < |created| ==> created[j].task != created[k].task
    ensures created[i].task !in TasksOf(created, i)
  {
  }

  lemma StartedPriority(d: Db, n: NewTask)
    requires HasStarted(d, n)
    ensures n.task in d.tasks && d.tasks[n.task].priority == n.priority
  {
  }

  lemma StartsHighest(d: Db, created: seq<NewTask>, k: nat)
    requires k < |created| && RunsFirst(created, k) && d.tasks.Keys == TasksOf(created, |created|)
    requires forall i :: 0 <= i < |created| ==> HasStarted(d, created[i])
    ensures HighestRuns(d, created[k].task)
  {
    assert HasStarted(d, created[k]);
    forall t | IsReady(d, t)
      ensures d.tasks[t].priority <= created[k].priority
    {
      assert t in d.tasks.Keys;
      var i :| 0 <= i < |created| && created[i].task == t;
      assert HasStarted(d, created[i]);
    }
  }

  lemma NobodySleeps(s: Snapshot)
    requires Core(s, {}) && s.Model().timeline == []
    ensures Core(s.(nextUnblock := PORT_MAX_DELAY), {}) && Timely(s.(nextUnblock := PORT_MAX_DELAY))
  {
    assert |s.Model().timeline| >= |s.db.L(s.clock.delayed).items|;
  }

  function TasksOf(created: seq<NewTask>, n: nat): set<Task>
    requires n <= |created|
  {
    set i | 0 <= i < n :: created[i].task
  }
}
