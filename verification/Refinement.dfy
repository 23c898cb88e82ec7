/**
  How the wrapping tick counter and the two delayed lists of tasks.c stand for one
  timeline of unbounded wake times: a task on pxDelayedTaskList wakes in the current
  wrap epoch, one on pxOverflowDelayedTaskList in the next.
 */
module Refinement {
  import opened KernelConfig
  import opened ListViews
  import opened TaskTables
  import opened SleepModel

  /** xTickCount, xNumOfOverflows and the list pxDelayedTaskList points to. */
  datatype Clock = Clock(tick: TickType, overflows: nat, delayed: ListId) {
    function Overflow(): ListId {
      if delayed == DelayedA then DelayedB else DelayedA
    }

    predicate Valid() {
      delayed == DelayedA || delayed == DelayedB
    }

    function Now(): nat {
      Instant(overflows, tick)
    }
  }

  function Instant(epoch: nat, value: TickType): nat {
    epoch * TICK_RANGE + value
  }

  function Sleepers(d: Db, items: seq<Task>, epoch: nat): (r: seq<Sleeper>)
    ensures |r| == |items|
  {
    seq(|items|, i requires 0 <= i < |items| =>
      Sleeper(items[i], Instant(epoch, if items[i] in d.tasks then d.tasks[items[i]].wakeValue else 0)))
  }

  function StatusOf(tcb: Tcb, c: Clock): Status {
    match tcb.stateList
    case Some(DelayedA) => Timed(Instant(if c.delayed == DelayedA then c.overflows else c.overflows + 1, tcb.wakeValue))
    case Some(DelayedB) => Timed(Instant(if c.delayed == DelayedB then c.overflows else c.overflows + 1, tcb.wakeValue))
    case Some(Suspended) => Indefinite
    case Some(Termination) => Terminated
    case _ => Runnable
  }

  function Timeline(d: Db, c: Clock): seq<Sleeper> {
    Join(Sleepers(d, d.L(c.delayed).items, c.overflows), Sleepers(d, d.L(c.Overflow()).items, c.overflows + 1))
  }

  function ModelOf(d: Db, c: Clock): Model {
    Model(c.Now(), Timeline(d, c), Statuses(d.tasks, c), Waits(d.tasks))
  }

  function Statuses(tasks: map<Task, Tcb>, c: Clock): map<Task, Status> {
    map t | t in tasks :: StatusOf(tasks[t], c)
  }

  function Waits(tasks: map<Task, Tcb>): map<Task, ListId> {
    map t | t in tasks && tasks[t].eventList.Some? :: tasks[t].eventList.value
  }

  function WakeKeys(d: Db, l: ListId): (k: seq<nat>)
    ensures |k| == |d.L(l).items|
  {
    var items := d.L(l).items;
    seq(|items|, i requires 0 <= i < |items| => if items[i] in d.tasks then d.tasks[items[i]].wakeValue else 0)
  }

  /** Both delayed lists are in the order of their item values. */
  ghost predicate WakeSorted(d: Db) {
    Sorted(WakeKeys(d, DelayedA)) && Sorted(WakeKeys(d, DelayedB))
  }

  lemma SleepersOfList(d: Db, c: Clock, l: ListId, s: Sleeper)
    requires d.Consistent() && c.Valid() && (l == c.delayed || l == c.Overflow())
    ensures var e := if l == c.delayed then c.overflows else c.overflows + 1;
            s in Sleepers(d, d.L(l).items, e) <==>
              s.task in d.tasks && d.tasks[s.task].stateList == Some(l) && s.wake == Instant(e, d.tasks[s.task].wakeValue)
  {
    var e := if l == c.delayed then c.overflows else c.overflows + 1;
    var items := d.L(l).items;
    if s.task in d.tasks && d.tasks[s.task].stateList == Some(l) && s.wake == Instant(e, d.tasks[s.task].wakeValue) {
      assert d.Contained(s.task);
      var i :| 0 <= i < |items| && items[i] == s.task;
      assert Sleepers(d, items, e)[i] == s;
    }
  }

  /** The decoded lists form a sound timeline. */
  lemma ModelSound(d: Db, c: Clock)
    requires d.Consistent() && c.Valid() && WakeSorted(d)
    ensures Sound(ModelOf(d, c))
  {
    var m := ModelOf(d, c);
    var a, b := Sleepers(d, d.L(c.delayed).items, c.overflows), Sleepers(d, d.L(c.Overflow()).items, c.overflows + 1);
    assert WellFormed(d.L(c.delayed)) && WellFormed(d.L(c.Overflow()));
    forall s
      ensures s in m.timeline <==> Sleeps(m, s)
    {
      SleepersOfList(d, c, c.delayed, s);
      SleepersOfList(d, c, c.Overflow(), s);
      InJoin(a, b, s);
    }
    TimelineSorted(d, c);
    TimelineNoDuplicates(d, c);
  }

  lemma TimelineNoDuplicates(d: Db, c: Clock)
    requires d.Consistent() && c.Valid()
    ensures NoDuplicates(Timeline(d, c))
  {
    var ts, n := Timeline(d, c), |d.L(c.delayed).items|;
    assert WellFormed(d.L(c.delayed)) && WellFormed(d.L(c.Overflow()));
    forall i, j | 0 <= i < j < |ts|
      ensures ts[i] != ts[j]
    {
      if i < n <= j {
        assert ts[i].task in d.L(c.delayed).items && ts[j].task in d.L(c.Overflow()).items;
      }
    }
  }

  lemma InJoin<T>(a: seq<T>, b: seq<T>, x: T)
    ensures x in Join(a, b) <==> x in a || x in b
  {
    SequenceForms(a, 0, x, b);
  }

  lemma TimelineSorted(d: Db, c: Clock)
    requires c.Valid() && WakeSorted(d)
    ensures Sorted(Wakes(Timeline(d, c)))
  {
    EpochsSorted(Wakes(Timeline(d, c)), WakeKeys(d, c.delayed), WakeKeys(d, c.Overflow()), c.overflows);
  }

  lemma EpochsSorted(w: seq<nat>, x: seq<nat>, y: seq<nat>, epoch: nat)
    requires TwoEpochs(w, x, y, epoch) && Sorted(x) && Sorted(y)
    ensures Sorted(w)
  {
    forall i, j | 0 <= i < j < |w|
      ensures w[i] <= w[j]
    {
      if j < |x| {
        assert x[i] <= x[j];
      } else if |x| <= i {
        assert y[i - |x|] <= y[j - |x|];
      }
    }
  }

  // ---------------------------------------------------------------- leaving the lists

  /** after is d with t moved to dest, which is no delayed list, and off its event list. */
  ghost predicate Moved(d: Db, t: Task, dest: Option<ListId>, after: Db) {
    && t in d.tasks && dest != Some(DelayedA) && dest != Some(DelayedB)
    && after.tasks == d.tasks[t := d.tasks[t].(stateList := dest, eventList := None)]
    && after.L(DelayedA).items == Without(d.L(DelayedA).items, t)
    && after.L(DelayedB).items == Without(d.L(DelayedB).items, t)
  }

  lemma SleepersWithout(d: Db, after: Db, items: seq<Task>, epoch: nat, t: Task)
    requires NoDuplicates(items) && t in d.tasks && t in after.tasks && after.tasks == d.tasks[t := after.tasks[t]]
    requires after.tasks[t].wakeValue == d.tasks[t].wakeValue
    ensures var s := Sleeper(t, Instant(epoch, d.tasks[t].wakeValue));
            Sleepers(after, Without(items, t), epoch) == Without(Sleepers(d, items, epoch), s)
  {
    var r, s := Sleepers(d, items, epoch), Sleeper(t, Instant(epoch, d.tasks[t].wakeValue));
    hide Statuses;
    if t in items {
      var k := PositionOf(items, t);
      assert r[k] == s;
      SleepersNoDuplicates(d, items, epoch);
      PositionUnique(r, k);
      assert Sleepers(after, Drop(items, k), epoch) == Drop(r, k);
    } else {
      NotAmong(d, items, epoch, t);
    }
  }

  lemma SleepersNoDuplicates(d: Db, items: seq<Task>, epoch: nat)
    requires NoDuplicates(items)
    ensures NoDuplicates(Sleepers(d, items, epoch))
  {
  }

  lemma PositionJoin<T>(a: seq<T>, b: seq<T>, x: T)
    requires x in a || x in b
    ensures x in Join(a, b)
    ensures PositionOf(Join(a, b), x) == if x in a then PositionOf(a, x) else |a| + PositionOf(b, x)
  {
    InJoin(a, b, x);
    var j, k := Join(a, b), if x in a then PositionOf(a, x) else |a| + PositionOf(b, x);
    assert j[k] == x && forall i :: 0 <= i < k ==> j[i] != x;
  }

  lemma DropJoin<T>(a: seq<T>, b: seq<T>, k: nat)
    requires k < |a| + |b|
    ensures Drop(Join(a, b), k) == if k < |a| then Join(Drop(a, k), b) else Join(a, Drop(b, k - |a|))
  {
  }

  lemma WithoutJoin<T>(a: seq<T>, b: seq<T>, x: T)
    requires x !in a || x !in b
    ensures Without(Join(a, b), x) == Join(Without(a, x), Without(b, x))
  {
    InJoin(a, b, x);
    if x in a || x in b {
      PositionJoin(a, b, x);
      DropJoin(a, b, PositionOf(Join(a, b), x));
    }
  }

  lemma NotAmong(d: Db, items: seq<Task>, epoch: nat, t: Task)
    requires t !in items
    ensures forall w :: Sleeper(t, w) !in Sleepers(d, items, epoch)
  {
  }

  /** What OnList says about both delayed lists and t. */
  ghost predicate OnItsList(d: Db, c: Clock, t: Task)
    requires t in d.tasks
  {
    var x, y := d.L(c.delayed).items, d.L(c.Overflow()).items;
    && NoDuplicates(x) && NoDuplicates(y)
    && (t in x <==> d.tasks[t].stateList == Some(c.delayed))
    && (t in y <==> d.tasks[t].stateList == Some(c.Overflow()))
  }

  lemma MovedSleepers(d: Db, c: Clock, t: Task, dest: Option<ListId>, after: Db)
    requires c.Valid() && Moved(d, t, dest, after) && OnItsList(d, c, t)
    ensures Timeline(after, c) ==
              if t in d.L(c.delayed).items then Without(Timeline(d, c), Sleeper(t, Instant(c.overflows, d.tasks[t].wakeValue)))
              else if t in d.L(c.Overflow()).items then
                Without(Timeline(d, c), Sleeper(t, Instant(c.overflows + 1, d.tasks[t].wakeValue)))
              else Timeline(d, c)
  {
    hide Sleepers, Join, Drop, PositionOf, Instant;
    var x, y, v := d.L(c.delayed).items, d.L(c.Overflow()).items, d.tasks[t].wakeValue;
    var a, b := Sleepers(d, x, c.overflows), Sleepers(d, y, c.overflows + 1);
    SleepersWithout(d, after, x, c.overflows, t);
    SleepersWithout(d, after, y, c.overflows + 1, t);
    if t in x {
      NotAmong(d, y, c.overflows + 1, t);
      WithoutJoin(a, b, Sleeper(t, Instant(c.overflows, v)));
    } else if t in y {
      NotAmong(d, x, c.overflows, t);
      WithoutJoin(a, b, Sleeper(t, Instant(c.overflows + 1, v)));
    } else {
      NotAmong(d, x, c.overflows, t);
      NotAmong(d, y, c.overflows + 1, t);
    }
  }

  lemma MovedTimeline(d: Db, c: Clock, t: Task, dest: Option<ListId>, after: Db)
    requires c.Valid() && Moved(d, t, dest, after) && OnItsList(d, c, t)
    ensures Timeline(after, c) == Leave(ModelOf(d, c), t, StatusOf(after.tasks[t], c)).timeline
  {
    hide Timeline, Without;
    MovedSleepers(d, c, t, dest, after);
    assert ModelOf(d, c).status[t] == StatusOf(d.tasks[t], c);
  }

  lemma OnList(d: Db, l: ListId, t: Task)
    requires d.Consistent() && t in d.tasks && IsStateList(l)
    ensures NoDuplicates(d.L(l).items) && (t in d.L(l).items <==> d.tasks[t].stateList == Some(l))
  {
    assert WellFormed(d.L(l)) && d.Contained(t);
  }

  lemma MovedMaps(d: Db, c: Clock, t: Task, dest: Option<ListId>, after: Db)
    requires Moved(d, t, dest, after)
    ensures Statuses(after.tasks, c) == Statuses(d.tasks, c)[t := StatusOf(after.tasks[t], c)]
    ensures Waits(after.tasks) == Waits(d.tasks) - {t}
  {
  }

  lemma MovedModel(d: Db, c: Clock, t: Task, dest: Option<ListId>, after: Db)
    requires d.Consistent() && c.Valid() && Moved(d, t, dest, after)
    ensures ModelOf(after, c) == Leave(ModelOf(d, c), t, StatusOf(after.tasks[t], c))
  {
    OnList(d, c.delayed, t);
    OnList(d, c.Overflow(), t);
    MovedTimeline(d, c, t, dest, after);
    MovedMaps(d, c, t, dest, after);
  }

  lemma MovedSorted(d: Db, t: Task, dest: Option<ListId>, after: Db)
    requires d.Consistent() && WakeSorted(d) && Moved(d, t, dest, after)
    ensures WakeSorted(after)
  {
    WithoutSorted(d, t, after, DelayedA);
    WithoutSorted(d, t, after, DelayedB);
  }

  lemma WithoutSorted(d: Db, t: Task, after: Db, l: ListId)
    requires Sorted(WakeKeys(d, l)) && t in d.tasks && t in after.tasks && after.tasks == d.tasks[t := after.tasks[t]]
    requires after.tasks[t].wakeValue == d.tasks[t].wakeValue && after.L(l).items == Without(d.L(l).items, t)
    ensures Sorted(WakeKeys(after, l))
  {
    var x, y := WakeKeys(d, l), WakeKeys(after, l);
    if t in d.L(l).items {
      assert y == Drop(x, PositionOf(d.L(l).items, t));
    } else {
      assert y == x;
    }
  }

  // ---------------------------------------------------------------- going to sleep

  /** t, on no state list, goes onto the delayed list l in the order of its wake value. */
  function Queued(d: Db, l: ListId, t: Task): Db
    requires t in d.tasks
  {
    d.Attach(l, SortedPosition(WakeKeys(d, l), d.tasks[t].wakeValue), t)
  }

  lemma PutJoin<T>(a: seq<T>, b: seq<T>, k: nat, x: T)
    requires k <= |a| + |b|
    ensures k <= |a| ==> Put(Join(a, b), k, x) == Join(Put(a, k, x), b)
    ensures |a| <= k ==> Put(Join(a, b), k, x) == Join(a, Put(b, k - |a|, x))
  {
  }

  /** w lists the times x of one epoch, then the times y of the next. */
  ghost predicate TwoEpochs(w: seq<nat>, x: seq<nat>, y: seq<nat>, epoch: nat) {
    && |w| == |x| + |y|
    && (forall i :: 0 <= i < |x| ==> x[i] < TICK_RANGE && w[i] == epoch * TICK_RANGE + x[i])
    && (forall i :: |x| <= i < |w| ==> y[i - |x|] < TICK_RANGE && w[i] == (epoch + 1) * TICK_RANGE + y[i - |x|])
  }

  lemma PlaceInEpoch(w: seq<nat>, x: seq<nat>, y: seq<nat>, epoch: nat, value: TickType)
    requires TwoEpochs(w, x, y, epoch)
    ensures SortedPosition(w, Instant(epoch, value)) == SortedPosition(x, value)
    ensures SortedPosition(w, Instant(epoch + 1, value)) == |x| + SortedPosition(y, value)
  {
    var k := SortedPosition(y, value);
    SortedPositionUnique(w, Instant(epoch, value), SortedPosition(x, value));
    assert forall i :: |x| <= i < |x| + k ==> w[i] == (epoch + 1) * TICK_RANGE + y[i - |x|];
    SortedPositionUnique(w, Instant(epoch + 1, value), |x| + k);
  }

  /** The place in one list is the place in the whole timeline. */
  lemma PlaceInTimeline(d: Db, c: Clock, value: TickType)
    ensures SortedPosition(Wakes(Timeline(d, c)), Instant(c.overflows, value)) == SortedPosition(WakeKeys(d, c.delayed), value)
    ensures SortedPosition(Wakes(Timeline(d, c)), Instant(c.overflows + 1, value))
         == |d.L(c.delayed).items| + SortedPosition(WakeKeys(d, c.Overflow()), value)
  {
    PlaceInEpoch(Wakes(Timeline(d, c)), WakeKeys(d, c.delayed), WakeKeys(d, c.Overflow()), c.overflows, value);
  }

  lemma QueuedOther(d: Db, l: ListId, t: Task, m: ListId, epoch: nat)
    requires t in d.tasks && m != l
    ensures Sleepers(Queued(d, l, t), Queued(d, l, t).L(m).items, epoch) == Sleepers(d, d.L(m).items, epoch)
  {
  }

  lemma QueuedThis(d: Db, l: ListId, t: Task, epoch: nat)
    requires t in d.tasks
    ensures Sleepers(Queued(d, l, t), Queued(d, l, t).L(l).items, epoch)
         == Put(Sleepers(d, d.L(l).items, epoch), SortedPosition(WakeKeys(d, l), d.tasks[t].wakeValue),
                Sleeper(t, Instant(epoch, d.tasks[t].wakeValue)))
  {
  }

  lemma QueuedTimeline(d: Db, c: Clock, l: ListId, t: Task)
    requires c.Valid() && t in d.tasks && (l == c.delayed || l == c.Overflow())
    ensures var wake := Instant(if l == c.delayed then c.overflows else c.overflows + 1, d.tasks[t].wakeValue);
            var now := Timeline(d, c);
            Timeline(Queued(d, l, t), c) == Put(now, SortedPosition(Wakes(now), wake), Sleeper(t, wake))
  {
    hide Sleepers, Queued, Db.L, Put, Join, SortedPosition, Wakes, WakeKeys, Instant;
    var x, y, v := c.delayed, c.Overflow(), d.tasks[t].wakeValue;
    var a, b := Sleepers(d, d.L(x).items, c.overflows), Sleepers(d, d.L(y).items, c.overflows + 1);
    PlaceInTimeline(d, c, v);
    if l == x {
      QueuedThis(d, x, t, c.overflows);
      QueuedOther(d, x, t, y, c.overflows + 1);
      PutJoin(a, b, SortedPosition(WakeKeys(d, x), v), Sleeper(t, Instant(c.overflows, v)));
    } else {
      QueuedThis(d, y, t, c.overflows + 1);
      QueuedOther(d, y, t, x, c.overflows);
      PutJoin(a, b, |a| + SortedPosition(WakeKeys(d, y), v), Sleeper(t, Instant(c.overflows + 1, v)));
    }
  }

  /** Queueing on the current or the overflow list is sleeping until a time of this or the next epoch. */
  lemma QueuedModel(d: Db, c: Clock, l: ListId, t: Task)
    requires c.Valid() && t in d.tasks && (l == c.delayed || l == c.Overflow())
    ensures var e := if l == c.delayed then c.overflows else c.overflows + 1;
            ModelOf(Queued(d, l, t), c) == SleepUntil(ModelOf(d, c), t, Instant(e, d.tasks[t].wakeValue))
  {
    hide Timeline, Statuses, Waits, Queued, Put, Instant;
    QueuedTimeline(d, c, l, t);
    QueuedMaps(d, c, l, t);
  }

  lemma QueuedMaps(d: Db, c: Clock, l: ListId, t: Task)
    requires c.Valid() && t in d.tasks && (l == c.delayed || l == c.Overflow())
    ensures var e := if l == c.delayed then c.overflows else c.overflows + 1;
            var after := Queued(d, l, t);
            && Statuses(after.tasks, c) == Statuses(d.tasks, c)[t := Timed(Instant(e, d.tasks[t].wakeValue))]
            && Waits(after.tasks) == Waits(d.tasks)
  {
  }

  lemma QueuedSorted(d: Db, l: ListId, t: Task)
    requires WakeSorted(d) && t in d.tasks && (l == DelayedA || l == DelayedB)
    ensures WakeSorted(Queued(d, l, t))
  {
    var after, v := Queued(d, l, t), d.tasks[t].wakeValue;
    var other := if l == DelayedA then DelayedB else DelayedA;
    SortedInsertion(WakeKeys(d, l), v);
    QueuedKeys(d, l, t);
    assert WakeKeys(after, other) == WakeKeys(d, other);
  }

  lemma QueuedKeys(d: Db, l: ListId, t: Task)
    requires t in d.tasks
    ensures WakeKeys(Queued(d, l, t), l)
         == Put(WakeKeys(d, l), SortedPosition(WakeKeys(d, l), d.tasks[t].wakeValue), d.tasks[t].wakeValue)
  {
  }

  // ---------------------------------------------------------------- the passing of time

  /** xTickCount + 1; on a wrap taskSWITCH_DELAYED_LISTS swaps the lists. */
  function NextTick(c: Clock): Clock {
    if c.tick == PORT_MAX_DELAY then Clock(0, c.overflows + 1, c.Overflow()) else c.(tick := c.tick + 1)
  }

  /** The tick count may wrap, the decoded time just goes on, provided the current list is empty at a wrap. */
  lemma NextTickModel(d: Db, c: Clock)
    requires d.Consistent() && c.Valid()
    requires c.tick == PORT_MAX_DELAY ==> d.L(c.delayed).items == []
    ensures ModelOf(d, NextTick(c)) == ModelOf(d, c).(now := ModelOf(d, c).now + 1)
  {
    var next := NextTick(c);
    if c.tick == PORT_MAX_DELAY {
      forall t | t in d.tasks
        ensures StatusOf(d.tasks[t], next) == StatusOf(d.tasks[t], c)
      {
        OnList(d, c.delayed, t);
      }
      assert Timeline(d, next) == Timeline(d, c);
    }
    assert Statuses(d.tasks, next) == Statuses(d.tasks, c);
  }

  /** Only the head of the current list tells whether anyone is due. */
  lemma HeadDueIff(d: Db, c: Clock)
    requires d.Consistent() && c.Valid()
    ensures HeadDue(ModelOf(d, c)) <==>
              d.L(c.delayed).items != [] && d.tasks[d.L(c.delayed).items[0]].wakeValue <= c.tick
  {
    var x := d.L(c.delayed).items;
    if x != [] {
      assert x[0] in x;
    }
  }

  // ---------------------------------------------------------------- changes that concern no sleeper

  /** Only the control block of t differs, both lists are the same, and t, if on one, keeps its wake value. */
  ghost predicate SleepersUntouched(d: Db, t: Task, after: Db) {
    && t in d.tasks && t in after.tasks && after.tasks == d.tasks[t := after.tasks[t]]
    && (forall l :: l == DelayedA || l == DelayedB ==> after.L(l).items == d.L(l).items)
    && (t in d.L(DelayedA).items || t in d.L(DelayedB).items ==> after.tasks[t].wakeValue == d.tasks[t].wakeValue)
  }

  lemma UntouchedTimeline(d: Db, t: Task, after: Db, c: Clock)
    requires SleepersUntouched(d, t, after) && c.Valid()
    ensures Timeline(after, c) == Timeline(d, c)
  {
    assert Sleepers(after, after.L(c.delayed).items, c.overflows) == Sleepers(d, d.L(c.delayed).items, c.overflows);
    assert Sleepers(after, after.L(c.Overflow()).items, c.overflows + 1) == Sleepers(d, d.L(c.Overflow()).items, c.overflows + 1);
  }

  lemma UntouchedSorted(d: Db, t: Task, after: Db)
    requires SleepersUntouched(d, t, after)
    ensures WakeSorted(d) ==> WakeSorted(after)
  {
    assert WakeKeys(after, DelayedA) == WakeKeys(d, DelayedA);
    assert WakeKeys(after, DelayedB) == WakeKeys(d, DelayedB);
  }

  lemma UntouchedMaps(d: Db, t: Task, after: Db, c: Clock)
    requires SleepersUntouched(d, t, after)
    ensures Statuses(after.tasks, c) == Statuses(d.tasks, c)[t := StatusOf(after.tasks[t], c)]
    ensures Waits(after.tasks) == match after.tasks[t].eventList
                                  case Some(e) => Waits(d.tasks)[t := e]
                                  case None => Waits(d.tasks) - {t}
  {
  }

  /** The model changes in the status and the wait of t alone. */
  lemma UntouchedModel(d: Db, t: Task, after: Db, c: Clock)
    requires SleepersUntouched(d, t, after) && c.Valid()
    ensures ModelOf(after, c) == ModelOf(d, c).(
              status := ModelOf(d, c).status[t := StatusOf(after.tasks[t], c)],
              waits := match after.tasks[t].eventList
                       case Some(e) => ModelOf(d, c).waits[t := e]
                       case None => ModelOf(d, c).waits - {t})
  {
    hide Timeline, Statuses, Waits;
    UntouchedTimeline(d, t, after, c);
    UntouchedMaps(d, t, after, c);
  }
}
