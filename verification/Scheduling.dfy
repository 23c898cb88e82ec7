/**
  The scheduler of tasks.c while it is running: the task lists, the tick and the
  calls that move tasks between lists.  Model() is what the lists and the wrapping
  tick count mean; each operation is stated on it as well as on the lists.
 */
module Scheduling {
  import opened KernelConfig
  import opened ListViews
  import opened TaskTables
  import opened SleepModel
  import opened Refinement
  import opened PriorityRules
  import opened SchedulerState
  import opened Timeouts

  class Scheduler {
    var db: Db
    var tick: TickType
    var pendedTicks: TickType
    var overflows: nat
    var nextUnblockTime: TickType
    var suspended: nat
    var topReadyPriority: nat
    var yieldPending: bool
    var current: Task
    var delayedList: ListId
    var overflowList: ListId
    var numberOfTasks: nat
    var deletedWaiting: nat

    ghost function Clk(): Clock
      reads this
    {
      Clock(tick, overflows, delayedList)
    }

    ghost function Snap(): Snapshot
      reads this
    {
      Snapshot(db, Clk(), nextUnblockTime, topReadyPriority, current, numberOfTasks, deletedWaiting)
    }

    ghost function Model(): Model
      reads this
    {
      ModelOf(db, Clk())
    }

    /** The invariant, where the tasks of but may be queued for an event before they have left the ready list. */
    ghost predicate ValidBut(but: set<Task>)
      reads this
    {
      && Core(Snap(), but) && Timely(Snap())
      && overflowList == Clk().Overflow()
      && (suspended == 0 ==> NonePending(db))
    }

    ghost predicate Valid()
      reads this
    {
      ValidBut({}) && (suspended == 0 ==> pendedTicks == 0)
    }

    /** The state once the first task has been created; the scheduler is not running yet. */
    constructor (first: NewTask)
      requires first.priority < MAX_PRIORITIES
      ensures Valid() && suspended == 0 && tick == 0 && overflows == 0 && !yieldPending && pendedTicks == 0
      ensures db.tasks.Keys == {first.task} && HasStarted(db, first) && current == first.task && numberOfTasks == 1
      ensures Model().timeline == []
    {
      db := StartDb(first.task, first.priority);
      tick, pendedTicks, overflows, nextUnblockTime := 0, 0, 0, 0;
      suspended, topReadyPriority, yieldPending, current := 0, first.priority, false, first.task;
      delayedList, overflowList, numberOfTasks, deletedWaiting := DelayedA, DelayedB, 1, 0;
      new;
      hide Core, Timely, ModelOf, NonePending, HasStarted, StartDb;
      FirstCreated(first, Snap());
    }

    /**
      vTaskStartScheduler, once the tasks of created, the idle task and the timer task
      among them, have been created in that order, the first by the constructor.
     */
    method StartScheduler(created: seq<NewTask>)
      requires created != [] && (forall i :: 0 <= i < |created| ==> created[i].priority < MAX_PRIORITIES)
      requires forall i, j :: 0 <= i < j < |created| ==> created[i].task != created[j].task
      requires Valid() && db.tasks.Keys == {created[0].task} && HasStarted(db, created[0]) && current == created[0].task
      requires numberOfTasks == 1 && tick == 0 && Model().timeline == []
      modifies this`db, this`topReadyPriority, this`numberOfTasks, this`current, this`nextUnblockTime, this`tick
      ensures Valid() && Clk() == old(Clk()) && nextUnblockTime == PORT_MAX_DELAY && numberOfTasks == |created|
      ensures forall i :: 0 <= i < |created| ==> HasStarted(db, created[i])
      ensures exists k :: 0 <= k < |created| && RunsFirst(created, k) && current == created[k].task
      // That is, no earlier creation has a higher priority, and no later one as high a priority.
      ensures exists k :: 0 <= k < |created| && current == created[k].task
                          && (forall i :: 0 <= i < k ==> created[i].priority <= created[k].priority)
                          && (forall i :: k < i < |created| ==> created[i].priority < created[k].priority)
      ensures HighestRuns(db, current)
    {
      hide HighestRuns, TasksOf;
      hide Core, Timely, ModelOf, NonePending, RunsFirst, HasStarted, StartDb;
      CreateBeforeStart(created);
      NobodySleeps(Snap());
      ghost var s := Snap();
      nextUnblockTime := PORT_MAX_DELAY;
      tick := 0;
      assert Snap() == s.(nextUnblock := PORT_MAX_DELAY);
      ghost var k :| 0 <= k < |created| && RunsFirst(created, k) && current == created[k].task;
      StartsHighest(db, created, k);
      FirstMeans(created, k);
    }

    /** The creations after the first. */
    method CreateBeforeStart(created: seq<NewTask>)
      requires created != [] && (forall i :: 0 <= i < |created| ==> created[i].priority < MAX_PRIORITIES)
      requires forall i, j :: 0 <= i < j < |created| ==> created[i].task != created[j].task
      requires Valid() && db.tasks.Keys == {created[0].task} && HasStarted(db, created[0]) && current == created[0].task
      requires numberOfTasks == 1
      modifies this`db, this`topReadyPriority, this`numberOfTasks, this`current
      ensures Valid() && Clk() == old(Clk()) && numberOfTasks == |created|
      ensures forall i :: 0 <= i < |created| ==> HasStarted(db, created[i])
      ensures exists k :: 0 <= k < |created| && RunsFirst(created, k) && current == created[k].task
      ensures db.tasks.Keys == TasksOf(created, |created|)
      ensures Model().timeline == old(Model()).timeline
    {
      hide Core, Timely, ModelOf, NonePending, RunsFirst, HasStarted, TasksOf;
      ghost var first := 0;
      FirstAlone(created);
      var i := 1;
      while i < |created|
        invariant 1 <= i <= |created| && Valid() && Clk() == old(Clk()) && numberOfTasks == i
        invariant db.tasks.Keys == TasksOf(created, i)
        invariant forall j :: 0 <= j < i ==> HasStarted(db, created[j])
        invariant 0 <= first < i && RunsFirst(created[..i], first) && current == created[first].task
        invariant Model().timeline == old(Model()).timeline
      {
        ghost var before := db;
        NotAmongFirst(created, i);
        StartedPriority(db, created[first]);
        CreateNext(created[i]);
        forall j | 0 <= j < i
          ensures HasStarted(db, created[j])
        {
          OthersStarted(before, db, created[i].task, created[j]);
        }
        NextCreated(created, i, first);
        first := if created[first].priority <= created[i].priority then i else first;
        i := i + 1;
      }
      assert created[..i] == created;
    }

    /** prvAddNewTaskToReadyList while the scheduler is not running: the newest task of the highest priority is to run. */
    method CreateNext(n: NewTask)
      requires Valid() && n.task !in db.tasks && n.priority < MAX_PRIORITIES && current in db.tasks
      modifies this`db, this`topReadyPriority, this`numberOfTasks, this`current
      ensures Valid() && Clk() == old(Clk()) && numberOfTasks == old(numberOfTasks) + 1
      ensures n.task in db.tasks && db.tasks == old(db).tasks[n.task := db.tasks[n.task]] && HasStarted(db, n)
      ensures current == if old(db).tasks[old(current)].priority <= n.priority then n.task else old(current)
      ensures Model().timeline == old(Model()).timeline
    {
      hide Core, Timely, ModelOf, NonePending;
      ghost var before := db.tasks[current].priority;
      AddNewTask(n.task, n.priority);
      if db.tasks[current].priority <= n.priority {
        ghost var s := Snap();
        current := n.task;
        assert Snap() == s.(current := n.task);
        OtherRuns(s, n.task);
      }
    }

    function Head(l: ListId): Task
      requires db.L(l).items != []
      reads this
    {
      db.L(l).items[0]
    }

    /** prvAddTaskToReadyList, for a task whose state item is on no list. */
    method AddTaskToReadyList(t: Task)
      requires t in db.tasks
      modifies this`db, this`topReadyPriority
      ensures db == old(db).AttachEnd(Ready(old(db).tasks[t].priority), t)
      ensures topReadyPriority == TopWith(old(topReadyPriority), Ready(old(db).tasks[t].priority))
      ensures NothingAbove(old(db), old(topReadyPriority)) ==> NothingAbove(db, topReadyPriority)
      ensures var p := old(db).tasks[t].priority; db.L(Ready(p)) == InsertEnd(old(db).L(Ready(p)), t)
    {
      if topReadyPriority < db.tasks[t].priority {
        topReadyPriority := db.tasks[t].priority;
      }
      db := db.AttachEnd(Ready(db.tasks[t].priority), t);
    }

    // ------------------------------------------------------------ the tick

    /** prvResetNextTaskUnblockTime */
    method ResetNextTaskUnblockTime()
      requires TablesOk(db) && Clk().Valid()
      modifies this`nextUnblockTime
      ensures NoneBefore(db, delayedList, nextUnblockTime)
      ensures db.L(delayedList).items == [] ==> nextUnblockTime == PORT_MAX_DELAY
      ensures db.L(delayedList).items != [] ==>
                Head(delayedList) in db.tasks && nextUnblockTime == db.tasks[Head(delayedList)].wakeValue
    {
      if db.L(delayedList).items == [] {
        nextUnblockTime := PORT_MAX_DELAY;
      } else {
        HeadIsLeast(db, delayedList);
        nextUnblockTime := db.tasks[Head(delayedList)].wakeValue;
      }
    }

    /** The unblocking loop of xTaskIncrementTick: it stops at the first sleeper that is not due. */
    method UnblockDueTasks() returns (preempts: bool)
      requires Core(Snap(), {}) && NonePending(db)
      modifies this`db, this`topReadyPriority, this`nextUnblockTime
      ensures Core(Snap(), {}) && Timely(Snap()) && NonePending(db) && OnlyPlacesChanged(old(db), db)
      ensures Model() == Advance(old(Model()), 0)
      ensures preempts <==> DuePreempts(old(db), Clk(), current)
      ensures OnlyWoken(old(db), db)
    {
      hide Core, Timely, NonePending, OnlyPlacesChanged, DuePreempts, ModelOf, Advance, OnlyWoken;
      hide Db.L, Db.DetachState, Db.DetachEvent, Db.AttachEnd;
      preempts := false;
      PlacesSame(db);
      NobodyWoken(db);
      while true
        invariant Core(Snap(), {}) && NonePending(db) && OnlyPlacesChanged(old(db), db)
        invariant Advance(Model(), 0) == Advance(old(Model()), 0)
        invariant DuePreempts(old(db), Clk(), current) <==> preempts || DuePreempts(db, Clk(), current)
        invariant OnlyWoken(old(db), db)
        decreases |db.L(delayedList).items|
      {
        ghost var s := Snap();
        CoreFacts(s, {});
        if db.L(delayedList).items == [] {
          nextUnblockTime := PORT_MAX_DELAY;
          CoreUnblock(s, nextUnblockTime);
          break;
        }
        var t := Head(delayedList);
        HeadIsLeast(db, delayedList);
        var value := db.tasks[t].wakeValue;
        if tick < value {
          nextUnblockTime := value;
          CoreUnblock(s, nextUnblockTime);
          break;
        }
        var higher := ReadyFirstDue(t);
        OneMoreAwake(old(db), s.db, t, db);
        PlacesChangedTwice(old(db), s.db, db);
        if higher {
          preempts := true;
        }
      }
      LoopEnd(Snap());
    }

    /** One round of that loop: the first sleeper, which is due, becomes ready. */
    method ReadyFirstDue(t: Task) returns (preempts: bool)
      requires Core(Snap(), {}) && NonePending(db)
      requires db.L(delayedList).items != [] && t == Head(delayedList) && t in db.tasks && db.tasks[t].wakeValue <= tick
      modifies this`db, this`topReadyPriority
      ensures Core(Snap(), {}) && NonePending(db) && OnlyPlacesChanged(old(db), db)
      ensures Advance(Model(), 0) == Advance(old(Model()), 0)
      ensures DuePreempts(old(db), Clk(), current) <==> preempts || DuePreempts(db, Clk(), current)
      ensures |db.L(delayedList).items| < |old(db).L(delayedList).items|
      ensures old(db).Relocated(t, Ready(old(db).tasks[t].priority), db) && old(db).tasks[t].stateList == Some(delayedList)
      ensures old(db).Consistent()
    {
      hide Core, Timely, NonePending, OnlyPlacesChanged, DuePreempts, ModelOf, Advance;
      hide Db.L, Db.DetachState, Db.DetachEvent, Db.AttachEnd;
      ghost var s := Snap();
      CoreFacts(s, {});
      db := db.DetachState(t);
      db := db.DetachEvent(t);
      AddTaskToReadyList(t);
      assert Snap() == MovedTo(s, Ready(s.db.tasks[t].priority), db);
      UnblockRound(s, t, db);
      CoreFacts(Snap(), {});
      preempts := db.tasks[current].priority <= db.tasks[t].priority;
    }

    /** taskSWITCH_DELAYED_LISTS; its assertion that the current list is empty is a precondition here. */
    method SwitchDelayedLists()
      requires TablesOk(db) && Clk().Valid() && overflowList == Clk().Overflow()
      requires db.L(delayedList).items == []
      modifies this`delayedList, this`overflowList, this`overflows, this`nextUnblockTime
      ensures delayedList == old(overflowList) && overflowList == old(delayedList) && overflows == old(overflows) + 1
      ensures NoneBefore(db, delayedList, nextUnblockTime)
    {
      delayedList, overflowList := overflowList, delayedList;
      overflows := overflows + 1;
      ResetNextTaskUnblockTime();
    }

    /** xTaskIncrementTick: one tick of true time, or one pended tick while the scheduler is suspended. */
    method IncrementTick() returns (switchRequired: bool)
      requires ValidBut({})
      modifies this
      ensures ValidBut({}) && suspended == old(suspended) && current == old(current) && yieldPending == old(yieldPending)
      ensures old(suspended) > 0 ==>
                && pendedTicks == TickAdd(old(pendedTicks), 1) && !switchRequired
                && db == old(db) && Clk() == old(Clk())
      ensures old(suspended) == 0 ==>
                && pendedTicks == old(pendedTicks) && OnlyPlacesChanged(old(db), db)
                && Clk() == NextTick(old(Clk())) && Model() == Advance(old(Model()), 1)
                && (switchRequired <==>
                      || WakesOver(old(db), old(Model()).status, old(Model()).now + 1, current)
                      || SharesPriority(db, current)
                      || yieldPending)
                && (HighestRuns(old(db), current) && !switchRequired ==> HighestRuns(db, current))
                && OnlyWoken(old(db), db)
      // A switch is asked for exactly if one is pending, a task of at least the running priority
      // has become ready, or another task is ready at that priority.
      ensures old(suspended) == 0 && current in db.tasks ==>
                (switchRequired <==>
                   || yieldPending
                   || |db.L(Ready(db.tasks[current].priority)).items| > 1
                   || exists t :: IsReady(db, t) && !IsReady(old(db), t) && db.tasks[t].priority >= db.tasks[current].priority)
      ensures old(suspended) == 0 && IsReady(db, current) ==>
                (switchRequired <==>
                   || yieldPending
                   || (exists t :: t != current && IsReady(db, t) && db.tasks[t].priority == db.tasks[current].priority)
                   || exists t :: IsReady(db, t) && !IsReady(old(db), t) && db.tasks[t].priority >= db.tasks[current].priority)
    {
      hide Core, Timely, NonePending, OnlyPlacesChanged, ModelOf, Advance, Db.L, TablesOk, NoneBefore, HighestRuns;
      hide WakesOver, DuePreempts, OnlyWoken, IsReady;
      switchRequired := false;
      if suspended == 0 {
        ghost var s := Snap();
        CoreFacts(s, {});
        switchRequired := AdvanceTick();
        CoreFacts(Snap(), {});
        if |db.L(Ready(db.tasks[current].priority)).items| > 1 {
          switchRequired := true;
        }
        if yieldPending {
          switchRequired := true;
        }
        if HighestRuns(s.db, current) && !switchRequired {
          TickHighest(s, Snap());
        }
        TickReadies(s, Snap());
      } else {
        pendedTicks := TickAdd(pendedTicks, 1);
      }
    }

    /** The part of it that moves the time on and wakes the sleepers; true if one of them is to preempt. */
    method AdvanceTick() returns (preempts: bool)
      requires ValidBut({}) && suspended == 0
      modifies this`db, this`tick, this`topReadyPriority, this`nextUnblockTime, this`delayedList, this`overflowList, this`overflows
      ensures ValidBut({}) && OnlyPlacesChanged(old(db), db)
      ensures Clk() == NextTick(old(Clk())) && Model() == Advance(old(Model()), 1)
      ensures preempts <==> WakesOver(old(db), old(Model()).status, old(Model()).now + 1, current)
      ensures OnlyWoken(old(db), db)
    {
      hide OnlyWoken;
      hide Core, Timely, NonePending, OnlyPlacesChanged, ModelOf, Advance, Db.L, TablesOk, NoneBefore, WakesOver, DuePreempts;
      preempts := false;
      ghost var s := Snap();
      Ticked(s);
      CoreFacts(s, {});
      tick := TickAdd(tick, 1);
      if tick == 0 {
        SwitchDelayedLists();
      }
      assert Clk() == NextTick(s.clock);
      CoreUnblock(s.(clock := Clk()), nextUnblockTime);
      PlacesSame(db);
      if nextUnblockTime <= tick {
        preempts := UnblockDueTasks();
      } else {
        EarlyTick(Snap());
        NobodyWoken(db);
      }
    }

    // ------------------------------------------------------------ suspending the scheduler

    /** vTaskSuspendAll */
    method SuspendAll()
      requires Valid()
      modifies this`suspended
      ensures Valid() && suspended == old(suspended) + 1
    {
      suspended := suspended + 1;
    }

    /** One round of the loop that empties the pending-ready list. */
    method ReadyFirstPending() returns (preempts: bool)
      requires Core(Snap(), {}) && Timely(Snap()) && db.L(PendingReady).items != []
      modifies this`db, this`topReadyPriority
      ensures Core(Snap(), {}) && Timely(Snap()) && OnlyPlacesChanged(old(db), db)
      ensures var t := old(Head(PendingReady));
              Model() == Release(old(Model()), t) && (preempts <==> Outranks(db, t, current))
      ensures db.L(PendingReady).items == Tail(old(db).L(PendingReady).items, 1)
    {
      hide Core, Timely, OnlyPlacesChanged, ModelOf, Release, Db.L, Db.DetachState, Db.DetachEvent, Db.AttachEnd;
      ghost var s := Snap();
      CoreFacts(s, {});
      var t := Head(PendingReady);
      PendingTask(s, t);
      db := db.DetachEvent(t);
      db := db.DetachState(t);
      AddTaskToReadyList(t);
      assert Snap() == MovedTo(s, Ready(s.db.tasks[t].priority), db);
      PendingRound(s, t, db);
      CoreFacts(Snap(), {});
      preempts := db.tasks[current].priority <= db.tasks[t].priority;
    }

    /** The tasks an interrupt made ready meanwhile go to the ready lists, in that order. */
    method DrainPendingReady()
      requires Core(Snap(), {}) && Timely(Snap())
      modifies this`db, this`topReadyPriority, this`yieldPending
      ensures Core(Snap(), {}) && Timely(Snap()) && NonePending(db) && OnlyPlacesChanged(old(db), db)
      ensures Model() == ReleaseAll(old(Model()), old(db).L(PendingReady).items)
      ensures yieldPending <==> old(yieldPending) || AnyOutranks(old(db), old(db).L(PendingReady).items, current)
    {
      hide Core, Timely, OnlyPlacesChanged, ModelOf, Release, Db.L, Outranks, AnyOutranks;
      ghost var all := db.L(PendingReady).items;
      PlacesSame(db);
      while db.L(PendingReady).items != []
        invariant Core(Snap(), {}) && Timely(Snap()) && OnlyPlacesChanged(old(db), db)
        invariant ReleaseAll(Model(), db.L(PendingReady).items) == ReleaseAll(old(Model()), all)
        invariant (yieldPending || AnyOutranks(old(db), db.L(PendingReady).items, current))
             <==> (old(yieldPending) || AnyOutranks(old(db), all, current))
        decreases |db.L(PendingReady).items|
      {
        ghost var before := db;
        var preempts := ReadyFirstPending();
        if preempts {
          yieldPending := true;
        }
        PlacesChangedTwice(old(db), before, db);
        OutranksSame(old(db), db, before.L(PendingReady).items[0], current);
        AnyOutranksStep(old(db), before.L(PendingReady).items, current);
      }
      NoneOutranks(old(db), current);
    }

    /** The loop of xTaskResumeAll that processes the ticks of the suspended time. */
    method CatchUp()
      requires ValidBut({}) && suspended == 0
      modifies this
      ensures ValidBut({}) && suspended == 0 && pendedTicks == 0 && current == old(current)
      ensures OnlyPlacesChanged(old(db), db) && Model() == Ticks(old(Model()), old(pendedTicks))
      ensures old(pendedTicks) == 0 ==> Clk() == old(Clk())
      ensures yieldPending <==> old(yieldPending) || TicksYield(old(db), old(Model()), old(pendedTicks), db, current)
      ensures current in db.tasks ==>
                (yieldPending <==>
                   || old(yieldPending)
                   || (old(pendedTicks) > 0 && |db.L(Ready(db.tasks[current].priority)).items| > 1)
                   || exists t :: IsReady(db, t) && !IsReady(old(db), t) && db.tasks[t].priority >= db.tasks[current].priority)
    {
      hide OnlyWoken, IsReady;
      hide Core, Timely, OnlyPlacesChanged, ModelOf, Advance, NonePending, WakesOver, SharesPriority, Sound, HighestRuns;
      hide TablesOk;
      ghost var all, m := pendedTicks as nat, Model();
      var n := pendedTicks;
      SoundCore(Snap(), {});
      PlacesSame(db);
      while n > 0
        invariant n <= all && pendedTicks == all
        invariant ValidBut({}) && suspended == 0 && current == old(current) && OnlyPlacesChanged(old(db), db)
        invariant Model() == Ticks(m, all - n) && (all == n ==> Clk() == old(Clk()))
        invariant yieldPending <==> old(yieldPending) || TicksYield(old(db), m, all - n, db, current)
      {
        ghost var before, c := db, Clk();
        CoreFacts(Snap(), {});
        var switchRequired := IncrementTick();
        CoreFacts(Snap(), {});
        TicksYieldStep(old(db), m, all - n, before, c, db, Clk(), current);
        PlacesChangedTwice(old(db), before, db);
        if switchRequired {
          yieldPending := true;
        }
        OneMoreTick(m, all - n);
        n := n - 1;
      }
      ReadiedBy(old(Snap()), Snap(), [], all);
      pendedTicks := 0;
    }

    /** xTaskResumeAll: the outermost call drains the pending-ready list, then catches up on the pended ticks. */
    method ResumeAll() returns (alreadyYielded: bool)
      requires Valid() && suspended > 0
      modifies this
      ensures Valid() && suspended == old(suspended) - 1 && current == old(current) && OnlyPlacesChanged(old(db), db)
      ensures suspended > 0 ==>
                && db == old(db) && Clk() == old(Clk()) && pendedTicks == old(pendedTicks)
                && yieldPending == old(yieldPending) && !alreadyYielded
      ensures suspended == 0 ==>
                && NonePending(db) && pendedTicks == 0 && alreadyYielded == yieldPending
                && Model() == Ticks(ReleaseAll(old(Model()), old(db).L(PendingReady).items), old(pendedTicks))
                && (old(pendedTicks) == 0 ==> Clk() == old(Clk()))
      ensures suspended == 0 ==>
                && (yieldPending <==>
                      || old(yieldPending)
                      || AnyOutranks(old(db), old(db).L(PendingReady).items, current)
                      || TicksYield(old(db), ReleaseAll(old(Model()), old(db).L(PendingReady).items), old(pendedTicks), db, current))
                && (HighestRuns(old(db), current) && !yieldPending ==> HighestRuns(db, current))
      ensures suspended == 0 ==>
                && db.L(PendingReady).items == []
                && forall t :: t in old(db).L(PendingReady).items ==> IsReady(db, t) && db.tasks[t].eventList == None
      // The yield is pending exactly if it was, a task of at least the running priority has become
      // ready, or ticks were caught up with while another task was ready at that priority.
      ensures suspended == 0 && current in db.tasks ==>
                (yieldPending <==>
                   || old(yieldPending)
                   || (old(pendedTicks) > 0 && |db.L(Ready(db.tasks[current].priority)).items| > 1)
                   || exists t :: IsReady(db, t) && !IsReady(old(db), t) && db.tasks[t].priority >= db.tasks[current].priority)
      ensures suspended == 0 && IsReady(db, current) ==>
                (yieldPending <==>
                   || old(yieldPending)
                   || (old(pendedTicks) > 0 &&
                       exists t :: t != current && IsReady(db, t) && db.tasks[t].priority == db.tasks[current].priority)
                   || exists t :: IsReady(db, t) && !IsReady(old(db), t) && db.tasks[t].priority >= db.tasks[current].priority)
    {
      hide IsReady;
      hide Core, Timely, OnlyPlacesChanged, ModelOf, Ticks, ReleaseAll, Db.L, TablesOk, NoneBefore, AnyOutranks;
      hide TicksYield, HighestRuns, NoneOverdue;
      alreadyYielded := false;
      suspended := suspended - 1;
      PlacesSame(db);
      if suspended == 0 {
        CoreCount(Snap(), {});
        if numberOfTasks > 0 {
          var drained := db.L(PendingReady).items != [];
          DrainPendingReady();
          if drained {
            TimelySplit(Snap());
            RecomputeUnblockTime();
          }
          ghost var before := db;
          CatchUp();
          TicksYieldSame(old(db), before, ReleaseAll(old(Model()), old(db).L(PendingReady).items), old(pendedTicks), db, current);
          PlacesChangedTwice(old(db), before, db);
          if HighestRuns(old(db), current) && !yieldPending {
            ResumedHighest(old(Snap()), Snap(), old(pendedTicks));
          }
          ResumeReadies(old(Snap()), Snap(), old(pendedTicks));
          PendingReadied(old(Snap()), Snap(), old(pendedTicks));
          if yieldPending {
            alreadyYielded := true;
          }
        }
      }
    }

    // ------------------------------------------------------------ choosing the running task

    /** The search of taskSELECT_HIGHEST_PRIORITY_TASK; it never reaches priority 0 in vain. */
    method FindTopPriority() returns (top: nat)
      requires Core(Snap(), {}) && SomeReady(db)
      ensures top <= topReadyPriority && NothingAbove(db, top) && db.L(Ready(top)).items != []
    {
      hide Db.Consistent, WakeSorted, WaitersBlocked, ModelOf;
      top := topReadyPriority;
      while db.L(Ready(top)).items == []
        invariant top <= topReadyPriority && NothingAbove(db, top)
        decreases top
      {
        ReadyBelowTop(db, top);
        assert top > 0;
        top := top - 1;
      }
    }

    /** vTaskSwitchContext: a ready task of maximal priority, the next one of its list, becomes the running task. */
    method SwitchContext()
      requires Valid() && SomeReady(db)
      modifies this
      ensures Valid() && suspended == old(suspended) && pendedTicks == old(pendedTicks) && Clk() == old(Clk())
      ensures Model() == old(Model()) && db.tasks == old(db).tasks
      ensures suspended > 0 ==> yieldPending && current == old(current) && db == old(db)
      ensures suspended == 0 ==>
                && !yieldPending && IsReady(db, current)
                && HighestRuns(db, current)
                && (forall t :: IsReady(db, t) ==> db.tasks[t].priority <= db.tasks[current].priority)
                && (var p := db.tasks[current].priority;
                    && old(db).L(Ready(p)).items != [] && old(db).L(Ready(p)).index <= |old(db).L(Ready(p)).items|
                    && db == Turned(old(db), p) && current == Indexed(db.L(Ready(p))) && topReadyPriority == p)
    {
      hide Core, Timely, ModelOf, NonePending, NothingAbove, IsReady;
      if suspended > 0 {
        yieldPending := true;
      } else {
        yieldPending := false;
        ghost var s := Snap();
        var top := FindTopPriority();
        Select(s, top);
        db := Turned(db, top);
        current := Indexed(db.L(Ready(top)));
        topReadyPriority := top;
        assert Snap() == s.(db := db, top := top, current := current);
      }
    }

    // ------------------------------------------------------------ blocking

    /**
      prvAddCurrentTaskToDelayedList.  A wait of no ticks at the last tick of an epoch
      leaves a sleeper for which the assertion of the list switch will fail.
     */
    method AddCurrentTaskToDelayedList(ticksToWait: TickType, canBlockIndefinitely: bool)
      requires ValidBut({current}) && Running(Snap())
      modifies this`db, this`nextUnblockTime
      ensures Core(Snap(), {}) && Clk() == old(Clk()) && (old(NonePending(db)) ==> NonePending(db))
      ensures NoneBefore(db, delayedList, nextUnblockTime)
      ensures NoneOverdue(db, Clk()) <==> SafeWait(ticksToWait)
      ensures if ticksToWait == PORT_MAX_DELAY && canBlockIndefinitely
              then
                && Model() == SleepForever(old(Model()), current)
                && Slept(old(Snap()), Suspended, old(db).tasks[current].wakeValue, db)
              else
                var value := TickAdd(tick, ticksToWait);
                && Model() == SleepUntil(old(Model()), current, old(Model()).now + ticksToWait)
                && Slept(old(Snap()), if value < tick then overflowList else delayedList, value, db)
    {
      hide Core, Timely, ModelOf, NonePending, Slept, SleepUntil, SleepForever, Queued, Db.Consistent, NoneBefore, NoneOverdue;
      ghost var s := Snap();
      assert {current} - {current} == {};
      CoreTables(s, {current});
      if ticksToWait == PORT_MAX_DELAY && canBlockIndefinitely {
        db := db.DetachState(current);
        db := db.AttachEnd(Suspended, current);
        SleepsForever(s, db, {current});
        SleepTimely(s, s.db.tasks[current].wakeValue, Suspended, db, nextUnblockTime);
        assert Snap() == s.(db := db, nextUnblock := nextUnblockTime);
      } else {
        var timeToWake := TickAdd(tick, ticksToWait);
        var l := if timeToWake < tick then overflowList else delayedList;
        SleepTimed(s, timeToWake, l, {current});
        WakeInstant(s, ticksToWait);
        db := db.DetachState(current);
        db := db.SetTask(current, db.tasks[current].(wakeValue := timeToWake));
        db := Queued(db, l, current);
        CoreTables(s.(db := db), {current} - {current});
        if timeToWake < tick {
        } else if timeToWake < nextUnblockTime {
          nextUnblockTime := timeToWake;
        }
        SleepTimely(s, timeToWake, l, db, nextUnblockTime);
        assert Snap() == s.(db := db, nextUnblock := nextUnblockTime);
        CoreUnblock(s.(db := db), nextUnblockTime);
      }
    }

    predicate SafeWait(ticksToWait: TickType)
      reads this`tick
    {
      ticksToWait > 0 || tick < PORT_MAX_DELAY
    }

    /** vTaskPlaceOnEventList */
    method PlaceOnEventList(e: ListId, ticksToWait: TickType)
      requires Valid() && Running(Snap()) && e.Event?
      modifies this`db, this`nextUnblockTime
      ensures Core(Snap(), {}) && Clk() == old(Clk())
      ensures Valid() <==> SafeWait(ticksToWait)
      ensures Model() == if ticksToWait == PORT_MAX_DELAY then SleepForever(WaitFor(old(Model()), current, e), current)
                         else SleepUntil(WaitFor(old(Model()), current, e), current, old(Model()).now + ticksToWait)
      ensures db.L(e) == EventQueued(old(db), e, current).L(e)
      // Behind the tasks whose event value is not greater, before the first whose value is.
      ensures var was, l := old(db).tasks, old(db).L(e).items;
              exists k :: 0 <= k <= |l| && db.L(e).items == Put(l, k, current)
                          && (forall i :: 0 <= i < k ==> l[i] in was && was[l[i]].eventValue <= was[current].eventValue)
                          && (k < |l| ==> l[k] in was && was[l[k]].eventValue > was[current].eventValue)
    {
      hide Core, Timely, ModelOf, NonePending, SleepUntil, SleepForever, EventQueued, NoneBefore, NoneOverdue, Put, Db.L;
      ghost var d := db;
      JoinEventList(e);
      ghost var joined := Snap();
      AddCurrentTaskToDelayedList(ticksToWait, true);
      EventListStays(joined, e, db);
      TimelyTogether(Snap());
    }

    /** The first step: the event item of the running task goes onto the list. */
    method JoinEventList(e: ListId)
      requires Valid() && Running(Snap()) && e.Event?
      modifies this`db
      ensures ValidBut({current}) && Running(Snap()) && (old(NonePending(db)) ==> NonePending(db))
      ensures Model() == WaitFor(old(Model()), current, e)
      ensures db.L(e) == EventQueued(old(db), e, current).L(e)
      ensures var was, l := old(db).tasks, old(db).L(e).items;
              exists k :: 0 <= k <= |l| && db.L(e).items == Put(l, k, current)
                          && (forall i :: 0 <= i < k ==> l[i] in was && was[l[i]].eventValue <= was[current].eventValue)
                          && (k < |l| ==> l[k] in was && was[l[k]].eventValue > was[current].eventValue)
    {
      hide Core, Timely, ModelOf, NonePending, EventQueued, Put, Db.L;
      ghost var s := Snap();
      AttachEvent(s, e, SortedPosition(EventKeys(db, e), db.tasks[current].eventValue), {});
      EventQueuedIs(db, e, current);
      EventQueuedPlace(s, e);
      db := EventQueued(db, e, current);
      assert Snap() == s.(db := db);
    }

    /** vTaskPlaceOnUnorderedEventList: the item carries value, marked as in use, and goes to the end. */
    method PlaceOnUnorderedEventList(e: ListId, value: TickType, ticksToWait: TickType)
      requires Valid() && Running(Snap()) && e.Event? && suspended > 0
      modifies this`db, this`nextUnblockTime
      ensures Core(Snap(), {}) && Clk() == old(Clk())
      ensures Valid() <==> SafeWait(ticksToWait)
      ensures Model() == if ticksToWait == PORT_MAX_DELAY then SleepForever(WaitFor(old(Model()), current, e), current)
                         else SleepUntil(WaitFor(old(Model()), current, e), current, old(Model()).now + ticksToWait)
      ensures db.L(e) == InsertEnd(old(db).L(e), current)
      ensures current in db.tasks
      ensures db.tasks[current].eventValue == if value < VALUE_IN_USE then value + VALUE_IN_USE else value
    {
      hide Core, Timely, ModelOf, NonePending, SleepUntil, SleepForever, NoneBefore, NoneOverdue;
      ghost var s := Snap();
      SetEventValue(s, current, MarkInUse(value));
      db := db.SetTask(current, db.tasks[current].(eventValue := MarkInUse(value)));
      assert Snap() == s.(db := db);
      ghost var r := Snap();
      AttachEvent(r, e, EndPosition(db.L(e)), {});
      db := db.AttachEnd(e, current);
      assert Snap() == r.(db := db);
      AddCurrentTaskToDelayedList(ticksToWait, true);
      TimelyTogether(Snap());
    }

    // ------------------------------------------------------------ being woken

    method ReleaseFirstWaiter(e: ListId)
      requires Valid() && e.Event? && db.L(e).items != []
      modifies this`db, this`topReadyPriority
      ensures Valid()
      ensures db.L(e).items == Tail(old(db).L(e).items, 1)
      ensures var t := old(Head(e));
              && SamePriorities(old(Snap()), t, db)
              && Model() == Release(old(Model()), t) && old(db).Relocated(t, Ready(old(db).tasks[t].priority), db)
    {
      hide Core, Timely, ModelOf, NonePending, Release, Without, RemoveIfIn, SamePriorities;
      hide Db.DetachState, Db.DetachEvent, Db.AttachEnd, Db.L, Db.Relocated;
      ghost var s := Snap();
      var t := Head(e);
      Waiter(s, e, t);
      db := db.DetachEvent(t);
      db := db.DetachState(t);
      AddTaskToReadyList(t);
      assert Snap() == MovedTo(s, Ready(s.db.tasks[t].priority), db);
      ReleaseWaiter(s, t, db);
      HeadOut(s.db.L(e), t);
    }

    method ParkFirstWaiter(e: ListId)
      requires Valid() && suspended > 0 && e.Event? && db.L(e).items != []
      modifies this`db
      ensures Valid()
      ensures db.L(e).items == Tail(old(db).L(e).items, 1)
      ensures var t := old(Head(e));
              && SamePriorities(old(Snap()), t, db)
              && Model() == WaitFor(old(Model()), t, PendingReady)
              && db.L(PendingReady) == InsertEnd(old(db).L(PendingReady), t)
      ensures HighestRuns(db, current) <==> HighestRuns(old(db), current)
    {
      hide Core, Timely, ModelOf, NonePending, WaitFor, Without, RemoveIfIn, InsertEnd, SamePriorities, HighestRuns;
      hide Db.DetachEvent, Db.AttachEnd, Db.L;
      ghost var s := Snap();
      var t := Head(e);
      Waiter(s, e, t);
      db := db.DetachEvent(t);
      db := db.AttachEnd(PendingReady, t);
      assert Snap() == s.(db := db);
      ParkPending(s, e, t);
      HeadOut(s.db.L(e), t);
      SameReadyHighest(s.db, t, db, current);
    }

    /** xTaskRemoveFromEventList: the first waiter is released, or parked while the scheduler is suspended. */
    method RemoveFromEventList(e: ListId) returns (higherPriority: bool)
      requires Valid() && e.Event? && db.L(e).items != []
      modifies this`db, this`topReadyPriority, this`yieldPending
      ensures Valid() && Clk() == old(Clk())
      ensures db.L(e).items == Tail(old(db).L(e).items, 1)
      ensures var t := old(Head(e));
              && SamePriorities(old(Snap()), t, db)
              && (suspended == 0 ==>
                    && Model() == Release(old(Model()), t)
                    && old(db).Relocated(t, Ready(old(db).tasks[t].priority), db))
              && (suspended > 0 ==>
                    && Model() == WaitFor(old(Model()), t, PendingReady)
                    && db.L(PendingReady) == InsertEnd(old(db).L(PendingReady), t))
              && higherPriority == (old(db).tasks[t].priority > old(db).tasks[current].priority)
      ensures yieldPending == (old(yieldPending) || higherPriority)
      ensures HighestRuns(db, current) <==> HighestRuns(old(db), current) && (suspended == 0 ==> !higherPriority)
    {
      hide Core, Timely, ModelOf, NonePending, Release, WaitFor, Tail, InsertEnd, Db.L, Db.Relocated, HighestRuns;
      var t := Head(e);
      if suspended == 0 {
        ReleaseFirstWaiter(e);
        RelocatedHighest(old(db), t, db, current);
      } else {
        ParkFirstWaiter(e);
      }
      higherPriority := db.tasks[t].priority > db.tasks[current].priority;
      if higherPriority {
        yieldPending := true;
      }
    }

    /** vTaskRemoveFromUnorderedEventList: the waiter is told value, marked as in use, and made ready at once. */
    method RemoveFromUnorderedEventList(t: Task, e: ListId, value: TickType)
      requires Valid() && suspended > 0 && e.Event? && t in db.L(e).items
      modifies this`db, this`topReadyPriority, this`yieldPending
      ensures Valid() && Clk() == old(Clk()) && Model() == Release(old(Model()), t)
      ensures db.L(e) == Remove(old(db).L(e), t) && t in db.tasks
      ensures db.tasks[t].eventValue == if value < VALUE_IN_USE then value + VALUE_IN_USE else value
      ensures SamePriorities(old(Snap()), t, db)
      ensures yieldPending == (old(yieldPending) || db.tasks[t].priority > db.tasks[current].priority)
      ensures HighestRuns(db, current) <==>
                HighestRuns(old(db), current) && db.tasks[t].priority <= db.tasks[current].priority
    {
      hide Core, Timely, ModelOf, NonePending, Release, Db.DetachState, Db.DetachEvent, Db.AttachEnd, Remove, HighestRuns;
      ghost var s := Snap();
      Waiter(s, e, t);
      SetEventValue(s, t, MarkInUse(value));
      db := db.SetTask(t, db.tasks[t].(eventValue := MarkInUse(value)));
      assert Snap() == s.(db := db);
      SameReadyHighest(s.db, t, db, current);
      ghost var r := Snap();
      Waiter(r, e, t);
      db := db.DetachEvent(t);
      db := db.DetachState(t);
      AddTaskToReadyList(t);
      assert Snap() == MovedTo(r, Ready(r.db.tasks[t].priority), db);
      ReleaseWaiter(r, t, db);
      RelocatedHighest(r.db, t, db, current);
      if db.tasks[t].priority > db.tasks[current].priority {
        yieldPending := true;
      }
    }

    // ------------------------------------------------------------ suspending, resuming, deleting and creating tasks

    /** A handle that may be passed to the calls below: its task has not been deleted. */
    ghost predicate Live(t: Task)
      reads this
    {
      t in db.tasks && db.tasks[t].stateList != Some(Termination)
    }

    /** vTaskSuspend */
    method Suspend(t: Task)
      requires Valid() && Live(t) && (t == current ==> suspended == 0)
      modifies this`db, this`nextUnblockTime
      ensures Valid() && Clk() == old(Clk())
      ensures Model() == Leave(old(Model()), t, Indefinite) && old(db).Relocated(t, ListId.Suspended, db)
      ensures t in db.tasks && db.tasks[t] == old(db).tasks[t].(stateList := Some(ListId.Suspended), eventList := None)
      ensures forall u :: u in old(db).tasks && u != t ==> u in db.tasks && db.tasks[u] == old(db).tasks[u]
    {
      hide Core, Timely, ModelOf, NonePending, Leave, Db.DetachState, Db.DetachEvent, Db.AttachEnd, Db.Relocated, Db.Consistent;
      ghost var s := Snap();
      CoreTables(s, {});
      db := db.DetachState(t);
      db := db.DetachEvent(t);
      db := db.AttachEnd(ListId.Suspended, t);
      s.db.RelocateStateFirst(t, ListId.Suspended);
      Relocate(s, t, ListId.Suspended, db, {});
      assert {} - {t} == {};
      assert Snap() == MovedTo(s, ListId.Suspended, db);
      TimelySplit(Snap());
      RecomputeUnblockTime();
    }

    /** prvResetNextTaskUnblockTime in a state where the old time was still a lower bound. */
    method RecomputeUnblockTime()
      requires Core(Snap(), {}) && NoneOverdue(db, Clk())
      modifies this`nextUnblockTime
      ensures Core(Snap(), {}) && Timely(Snap())
    {
      hide Core, ModelOf, NoneOverdue, NoneBefore, TablesOk;
      ghost var s := Snap();
      CoreFacts(s, {});
      ResetNextTaskUnblockTime();
      assert Snap() == s.(nextUnblock := nextUnblockTime);
      CoreUnblock(s, nextUnblockTime);
    }

    /** prvTaskIsTaskSuspended: on the suspended list, neither resumed already nor waiting for an event. */
    predicate IsTaskSuspended(t: Task)
      requires t in db.tasks
      reads this
    {
      && db.tasks[t].stateList == Some(ListId.Suspended)
      && db.tasks[t].eventList != Some(PendingReady) && db.tasks[t].eventList == None
    }

    /** vTaskResume: true asks for a switch to the resumed task. */
    method Resume(t: Task) returns (yieldRequired: bool)
      requires Valid() && t in db.tasks
      modifies this`db, this`topReadyPriority
      ensures Valid() && Clk() == old(Clk()) && current in old(db).tasks
      ensures var was := old(db).tasks[t];
              var resumes := t != current && was.stateList == Some(ListId.Suspended) && was.eventList == None;
              && (yieldRequired <==> resumes && was.priority >= old(db).tasks[current].priority)
              && (resumes ==>
                    && Model() == Release(old(Model()), t) && old(db).Relocated(t, Ready(was.priority), db) && IsReady(db, t))
              && (!resumes ==> db == old(db))
      ensures HighestRuns(old(db), current) && !yieldRequired ==> HighestRuns(db, current)
    {
      hide Core, Timely, ModelOf, NonePending, Release, Db.Relocated, HighestRuns, Db.L;
      yieldRequired := false;
      CoreFacts(Snap(), {});
      if t != current && IsTaskSuspended(t) {
        ghost var s := Snap();
        MakeReady(t);
        RelocatedHighest(s.db, t, db, current);
        yieldRequired := db.tasks[t].priority >= db.tasks[current].priority;
      }
    }

    /** A blocked task that waits for no event goes to the ready list of its priority. */
    method MakeReady(t: Task)
      requires Valid() && t in db.tasks && Blocked(db.tasks[t]) && db.tasks[t].eventList == None
      modifies this`db, this`topReadyPriority
      ensures Valid() && Model() == Release(old(Model()), t)
      ensures old(db).Relocated(t, Ready(old(db).tasks[t].priority), db) && SamePriorities(old(Snap()), t, db)
      ensures IsReady(db, t) && db.tasks[t].eventList == None
    {
      hide Core, Timely, ModelOf, NonePending, Release, Db.DetachState, Db.AttachEnd, Db.Relocated, SamePriorities;
      ghost var s := Snap();
      NoEvent(db, t);
      db := db.DetachState(t);
      AddTaskToReadyList(t);
      assert Snap() == MovedTo(s, Ready(s.db.tasks[t].priority), db);
      ReleaseWaiter(s, t, db);
      RelocatedTask(s.db, t, db);
    }

    /** vTaskDelete: the running task is left for the idle task to free, any other is freed at once. */
    method Delete(t: Task)
      requires Valid() && Live(t) && (t == current ==> suspended == 0)
      modifies this
      ensures Valid() && Clk() == old(Clk()) && current == old(current) && suspended == old(suspended)
      ensures t == current ==>
                && Model() == Leave(old(Model()), t, Terminated) && old(db).Relocated(t, Termination, db)
                && deletedWaiting == old(deletedWaiting) + 1 && numberOfTasks == old(numberOfTasks)
      ensures t != current ==>
                && Model() == Forgotten(Leave(old(Model()), t, Runnable), t) && db == DeletedDb(old(db), t)
                && db.tasks == old(db).tasks - {t}
                && deletedWaiting == old(deletedWaiting) && numberOfTasks == old(numberOfTasks) - 1
    {
      hide Core, Timely, ModelOf, NonePending, Leave, Forgotten, NoneBefore, NoneOverdue, Db.Consistent;
      hide Db.DetachState, Db.DetachEvent, Db.AttachEnd, Db.Relocated, Db.Forget;
      ghost var s := Snap();
      CoreTables(s, {});
      db := db.DetachState(t);
      db := db.DetachEvent(t);
      if t == current {
        db := db.AttachEnd(Termination, t);
        deletedWaiting := deletedWaiting + 1;
        s.db.RelocateStateFirst(t, Termination);
        Relocate(s, t, Termination, db, {});
        assert {} - {t} == {};
        assert Snap() == MovedTo(s, Termination, db);
      } else {
        CoreCount(s, {});
        numberOfTasks := numberOfTasks - 1;
        db := db.Forget(t);
        DeleteOther(s, t);
        DeletedFacts(s.db, t);
        TimelySplit(s);
        assert Snap() == s.(db := db, numberOfTasks := numberOfTasks);
        RecomputeUnblockTime();
      }
    }

    /** prvCheckTasksWaitingTermination, run by the idle task: all terminated tasks are freed. */
    method CheckTasksWaitingTermination()
      requires Valid() && Live(current)
      modifies this`db, this`numberOfTasks, this`deletedWaiting
      ensures Valid() && Clk() == old(Clk()) && deletedWaiting == 0
      ensures numberOfTasks == old(numberOfTasks) - old(deletedWaiting)
      ensures Model() == ForgottenAll(old(Model()), old(db).L(Termination).items)
      ensures forall t :: t in db.tasks <==> t in old(db).tasks && old(db).tasks[t].stateList != Some(Termination)
    {
      hide Core, Timely, ModelOf, NonePending, Forgotten, Db.L;
      ghost var all := db.L(Termination).items;
      CoreDeleted(Snap(), {});
      while deletedWaiting > 0
        invariant Valid() && Clk() == old(Clk()) && Live(current) && deletedWaiting == |db.L(Termination).items|
        invariant numberOfTasks - deletedWaiting == old(numberOfTasks) - old(deletedWaiting)
        invariant ForgottenAll(Model(), db.L(Termination).items) == ForgottenAll(old(Model()), all)
        decreases deletedWaiting
      {
        ghost var s := Snap();
        FreeFirstTerminated();
        CoreDeleted(Snap(), {});
      }
      assert db.L(Termination).items == [];
      TerminatedGone(old(Snap()), Snap());
    }

    /** One round of that loop. */
    method FreeFirstTerminated()
      requires Valid() && Live(current) && deletedWaiting > 0
      modifies this`db, this`numberOfTasks, this`deletedWaiting
      ensures Valid() && Live(current)
      ensures deletedWaiting == old(deletedWaiting) - 1 && numberOfTasks == old(numberOfTasks) - 1
      ensures old(db).L(Termination).items != []
      ensures db.L(Termination).items == Tail(old(db).L(Termination).items, 1)
      ensures Model() == Forgotten(old(Model()), old(db).L(Termination).items[0])
    {
      hide Core, Timely, ModelOf, NonePending, Forgotten, Db.L, Db.DetachState, Db.Forget, Tail;
      ghost var s := Snap();
      CoreDeleted(s, {});
      var t := Head(Termination);
      TerminatedTask(s, t);
      CleanUp(s, t);
      CleanUpLists(s, t);
      db := db.DetachState(t);
      CoreCount(s, {});
      numberOfTasks := numberOfTasks - 1;
      deletedWaiting := deletedWaiting - 1;
      db := db.Forget(t);
      assert Snap() == s.(db := db, numberOfTasks := numberOfTasks, deleted := deletedWaiting);
    }

    /** A task with a fresh control block goes to the ready list of its priority. */
    method AddNewTask(t: Task, priority: nat)
      requires Valid() && t !in db.tasks && priority < MAX_PRIORITIES
      modifies this`db, this`topReadyPriority, this`numberOfTasks
      ensures Valid() && Clk() == old(Clk()) && current in old(db).tasks
      ensures Model() == old(Model()).(status := old(Model()).status[t := Runnable])
      ensures db.tasks == old(db).tasks[t := Tcb(priority, priority, 0, 0, Some(Ready(priority)), EventValueOf(priority), None)]
      ensures numberOfTasks == old(numberOfTasks) + 1
    {
      hide Core, Timely, ModelOf, NonePending;
      ghost var s := Snap();
      CoreTables(s, {});
      var tcb := Tcb(priority, priority, 0, 0, None, EventValueOf(priority), None);
      numberOfTasks := numberOfTasks + 1;
      db := db.SetTask(t, tcb);
      AddTaskToReadyList(t);
      Create(s, t, tcb, db);
      assert Snap() == s.(db := db, top := topReadyPriority, numberOfTasks := numberOfTasks);
    }

    /** prvAddNewTaskToReadyList while the scheduler runs; true asks for a switch to the new task. */
    method CreateTask(t: Task, priority: nat) returns (preempts: bool)
      requires Valid() && t !in db.tasks && priority < MAX_PRIORITIES
      modifies this`db, this`topReadyPriority, this`numberOfTasks
      ensures Valid() && Clk() == old(Clk())
      ensures Model() == old(Model()).(status := old(Model()).status[t := Runnable])
      ensures t in db.tasks && IsReady(db, t) && db.tasks[t].priority == db.tasks[t].basePriority == priority
      ensures numberOfTasks == old(numberOfTasks) + 1
      ensures current in db.tasks && preempts == (db.tasks[current].priority < priority)
      ensures HighestRuns(old(db), current) && !preempts ==> HighestRuns(db, current)
    {
      hide Core, Timely, ModelOf, NonePending, HighestRuns, Db.L;
      ghost var before := db;
      AddNewTask(t, priority);
      preempts := db.tasks[current].priority < priority;
      if HighestRuns(before, current) && !preempts {
        CreatedHighest(before, t, db.tasks[t], db, current);
      }
    }

    // ------------------------------------------------------------ priorities

    /** The moves between ready lists common to the four priority changes below. */
    method ChangePriority(t: Task, tcb: Tcb)
      requires Valid() && t in db.tasks && SamePlace(tcb, db.tasks[t]) && tcb.priority < MAX_PRIORITIES
      modifies this`db, this`topReadyPriority
      ensures Valid() && Clk() == old(Clk()) && Model() == old(Model())
      ensures Reprioritised(old(db), t, tcb, db)
    {
      hide Core, Timely, ModelOf, NonePending, Reprioritised, Db.Consistent, Db.DetachState, Db.AttachEnd, Db.SetTask;
      ghost var s := Snap();
      CoreTables(s, {});
      if db.tasks[t].stateList == Some(Ready(db.tasks[t].priority)) {
        db := db.DetachState(t);
        db := db.SetTask(t, tcb.(stateList := None));
        AddTaskToReadyList(t);
        ReadyMove(s.db, t, tcb, db);
      } else {
        BlockedChange(db, t, tcb);
        db := db.SetTask(t, tcb);
      }
      Reprioritise(s, t, tcb, db);
      assert Snap() == s.(db := db, top := TopAfter(s.top, s.db, t, tcb.priority));
    }

    /** vTaskPrioritySet: the base priority is set, the priority in use only if it is not inherited; true asks for a switch. */
    method PrioritySet(t: Task, newPriority: nat) returns (yieldRequired: bool)
      requires Valid() && t in db.tasks
      modifies this`db, this`topReadyPriority
      ensures Valid() && Clk() == old(Clk()) && Model() == old(Model()) && current in old(db).tasks
      ensures var p := if newPriority < MAX_PRIORITIES then newPriority else MAX_PRIORITIES - 1;
              && (old(db).tasks[t].basePriority == p ==> db == old(db))
              && (old(db).tasks[t].basePriority != p ==> Reprioritised(old(db), t, SetPriority(old(db).tasks[t], p), db))
              && (yieldRequired <==>
                    if t == current then p < old(db).tasks[t].basePriority
                    else old(db).tasks[t].basePriority < p && old(db).tasks[current].priority <= p)
      ensures var p := if newPriority < MAX_PRIORITIES then newPriority else MAX_PRIORITIES - 1;
              var was := old(db).tasks[t];
              && t in db.tasks && db.tasks[t].basePriority == p
              && db.tasks[t].priority == (if was.priority == was.basePriority then p else was.priority)
              && db.tasks[t].eventValue == (if was.basePriority == p || was.eventValue >= VALUE_IN_USE then was.eventValue
                                            else MAX_PRIORITIES - p)
      ensures forall u :: u in old(db).tasks && u != t ==> u in db.tasks && db.tasks[u] == old(db).tasks[u]
      ensures HighestRuns(old(db), current) && !yieldRequired ==> HighestRuns(db, current)
    {
      hide Core, Timely, ModelOf, NonePending, Reprioritised, Db.Consistent, HighestRuns;
      yieldRequired := false;
      CoreFacts(Snap(), {});
      var p := if newPriority < MAX_PRIORITIES then newPriority else MAX_PRIORITIES - 1;
      if db.tasks[t].basePriority != p {
        if p > db.tasks[t].basePriority {
          if t != current {
            if p >= db.tasks[current].priority {
              yieldRequired := true;
            }
          }
        } else if t == current {
          yieldRequired := true;
        }
        ghost var s := Snap();
        ChangePriority(t, SetPriority(db.tasks[t], p));
        ReprioritisedFields(s.db, t, SetPriority(s.db.tasks[t], p), db);
        if HighestRuns(s.db, current) && !yieldRequired {
          ReprioritisedHighest(s.db, t, SetPriority(s.db.tasks[t], p), db, current);
        }
      }
    }

    /** xTaskPriorityInherit: true tells the caller that the holder runs, or ran already, at an inherited priority. */
    method PriorityInherit(holder: Option<Task>) returns (inherited: bool)
      requires Valid() && (holder.Some? ==> holder.value in db.tasks)
      modifies this`db, this`topReadyPriority
      ensures Valid() && Clk() == old(Clk()) && Model() == old(Model()) && current in old(db).tasks
      ensures inherited <==> holder.Some? && var h, p := old(db).tasks[holder.value], old(db).tasks[current].priority;
                                             h.priority < p || h.basePriority < p
      ensures if holder.Some? && old(db).tasks[holder.value].priority < old(db).tasks[current].priority
              then Reprioritised(old(db), holder.value, Inherit(old(db).tasks[holder.value], old(db).tasks[current].priority), db)
              else db == old(db)
      ensures holder.Some? ==>
                var h, was, p := holder.value, old(db).tasks[holder.value], old(db).tasks[current].priority;
                && h in db.tasks && db.tasks[h].basePriority == was.basePriority && db.tasks[h].mutexesHeld == was.mutexesHeld
                && db.tasks[h].priority == (if was.priority < p then p else was.priority)
                && db.tasks[h].eventValue == (if p <= was.priority || was.eventValue >= VALUE_IN_USE then was.eventValue
                                              else MAX_PRIORITIES - p)
                && forall u :: u in old(db).tasks && u != h ==> u in db.tasks && db.tasks[u] == old(db).tasks[u]
      ensures HighestRuns(old(db), current) ==> HighestRuns(db, current)
    {
      hide Core, Timely, ModelOf, NonePending, Reprioritised, Db.Consistent, HighestRuns;
      inherited := false;
      CoreFacts(Snap(), {});
      if holder.Some? {
        var h := holder.value;
        if db.tasks[h].priority < db.tasks[current].priority {
          ghost var before := db;
          ChangePriority(h, Inherit(db.tasks[h], db.tasks[current].priority));
          ReprioritisedFields(before, h, Inherit(before.tasks[h], before.tasks[current].priority), db);
          if HighestRuns(before, current) {
            ReprioritisedHighest(before, h, Inherit(before.tasks[h], before.tasks[current].priority), db, current);
          }
          inherited := true;
        } else if db.tasks[h].basePriority < db.tasks[current].priority {
          inherited := true;
        }
      }
    }

    /** xTaskPriorityDisinherit, called by the running holder when it gives a mutex. */
    method PriorityDisinherit(holder: Option<Task>) returns (yieldRequired: bool)
      requires Valid()
      requires holder.Some? ==> && holder.value == current && db.tasks[current].mutexesHeld > 0
                                && db.tasks[current].basePriority < MAX_PRIORITIES && Running(Snap())
      modifies this`db, this`topReadyPriority
      ensures Valid() && Clk() == old(Clk()) && Model() == old(Model())
      ensures yieldRequired <==>
                && holder.Some? && old(db).tasks[current].mutexesHeld == 1
                && old(db).tasks[current].priority != old(db).tasks[current].basePriority
      ensures holder == None ==> db == old(db)
      ensures holder.Some? ==> if yieldRequired then Reprioritised(old(db), current, Disinherit(old(db).tasks[current]), db)
                               else db == old(db).SetTask(current, Disinherit(old(db).tasks[current]))
      ensures current in old(db).tasks && current in db.tasks
      ensures db.tasks[current].priority == PriorityAfterGive(old(db), current, holder)
      ensures holder.Some? ==>
                var was, now := old(db).tasks[current], db.tasks[current];
                && now.basePriority == was.basePriority && now.mutexesHeld == was.mutexesHeld - 1
                && now.priority == (if was.mutexesHeld == 1 then was.basePriority else was.priority)
                && now.eventValue == (if was.mutexesHeld == 1 && was.priority != was.basePriority
                                      then MAX_PRIORITIES - was.basePriority else was.eventValue)
      ensures forall t :: t in old(db).tasks && t != current ==> t in db.tasks && db.tasks[t] == old(db).tasks[t]
      ensures forall e: ListId :: e.Event? ==> db.L(e) == old(db).L(e)
      ensures HighestRuns(old(db), current) ==>
                (HighestRuns(db, current) <==>
                   !(yieldRequired && ReadyAbove(old(db), current, old(db).tasks[current].basePriority)))
    {
      hide Core, Timely, ModelOf, NonePending, Db.Consistent, HighestRuns, ReadyAbove;
      yieldRequired := false;
      CoreFacts(Snap(), {});
      if holder.Some? {
        var tcb := db.tasks[current];
        if tcb.priority != tcb.basePriority && tcb.mutexesHeld == 1 {
          ghost var before := db;
          ChangePriority(current, Disinherit(tcb));
          if HighestRuns(before, current) {
            ReprioritisedHighestIff(before, current, Disinherit(tcb), db, current);
          }
          yieldRequired := true;
        } else {
          ghost var s := Snap();
          MutexCount(s, current, Disinherit(tcb));
          db := db.SetTask(current, Disinherit(tcb));
          SameReadyHighest(s.db, current, db, current);
          assert Snap() == s.(db := db);
        }
      }
    }

    /** vTaskPriorityDisinheritAfterTimeout */
    method PriorityDisinheritAfterTimeout(holder: Option<Task>, highestWaiting: nat)
      requires Valid() && highestWaiting < MAX_PRIORITIES
      requires holder.Some? ==> holder.value in db.tasks && db.tasks[holder.value].basePriority < MAX_PRIORITIES
      modifies this`db, this`topReadyPriority
      ensures Valid() && Clk() == old(Clk()) && Model() == old(Model())
      ensures if holder.Some?
                 && DisinheritAfterTimeout(old(db).tasks[holder.value], highestWaiting) != old(db).tasks[holder.value]
              then Reprioritised(old(db), holder.value, DisinheritAfterTimeout(old(db).tasks[holder.value], highestWaiting), db)
              else db == old(db)
      ensures holder.Some? ==>
                var h, was := holder.value, old(db).tasks[holder.value];
                var p := if was.basePriority < highestWaiting then highestWaiting else was.basePriority;
                && h in db.tasks && db.tasks[h].basePriority == was.basePriority && db.tasks[h].mutexesHeld == was.mutexesHeld
                && db.tasks[h].priority == (if was.mutexesHeld == 1 then p else was.priority)
                && db.tasks[h].eventValue == (if was.mutexesHeld != 1 || was.priority == p || was.eventValue >= VALUE_IN_USE
                                              then was.eventValue else MAX_PRIORITIES - p)
                && forall u :: u in old(db).tasks && u != h ==> u in db.tasks && db.tasks[u] == old(db).tasks[u]
      ensures holder.Some? && HighestRuns(old(db), current) ==>
                var h := holder.value;
                && h in db.tasks
                && (HighestRuns(db, current) <==>
                      if h == current then !ReadyAbove(old(db), current, db.tasks[h].priority)
                      else IsReady(old(db), h) ==> db.tasks[h].priority <= old(db).tasks[current].priority)
    {
      hide Core, Timely, ModelOf, NonePending, Reprioritised, Db.Consistent;
      CoreFacts(Snap(), {});
      if holder.Some? {
        var tcb := db.tasks[holder.value];
        if DisinheritAfterTimeout(tcb, highestWaiting) != tcb {
          ghost var before := db;
          ChangePriority(holder.value, DisinheritAfterTimeout(tcb, highestWaiting));
          ReprioritisedFields(before, holder.value, DisinheritAfterTimeout(tcb, highestWaiting), db);
          if HighestRuns(before, current) {
            ReprioritisedHighestIff(before, holder.value, DisinheritAfterTimeout(tcb, highestWaiting), db, current);
          }
        }
      }
    }

    /**
      The give of a mutex, in the critical section of xQueueGenericSend: the priority is given
      back, and then the first waiter for e is woken; true asks for a switch.  With a waiter the
      answer of xTaskPriorityDisinherit is dropped, which is where a switch can be missed.
     */
    method GiveMutex(holder: Option<Task>, e: ListId) returns (yieldRequired: bool)
      requires Valid() && e.Event?
      requires holder.Some? ==> && holder.value == current && db.tasks[current].mutexesHeld > 0
                                && db.tasks[current].basePriority < MAX_PRIORITIES && Running(Snap())
      modifies this`db, this`topReadyPriority, this`yieldPending
      ensures Valid() && Clk() == old(Clk()) && current in old(db).tasks
      ensures var l := old(db).L(e).items;
              && (l == [] ==> Model() == old(Model()) && yieldRequired == Drops(old(db), current, holder))
              && (l != [] ==>
                    && l[0] in old(db).tasks
                    && Model() == (if suspended == 0 then Release(old(Model()), l[0])
                                   else WaitFor(old(Model()), l[0], PendingReady))
                    && (yieldRequired <==> old(db).tasks[l[0]].priority > PriorityAfterGive(old(db), current, holder)))
      // The exact condition for a ready task above the running one without a switch.
      ensures HighestRuns(old(db), current) ==>
                (!yieldRequired && !HighestRuns(db, current) <==> GiveMissesSwitch(old(db), current, holder, e))
    {
      hide Core, Timely, ModelOf, NonePending, HighestRuns, ReadyAbove, Reprioritised, Db.L, Release, WaitFor, Db.Relocated;
      hide Db.Consistent;
      CoreFacts(Snap(), {});
      ghost var d := db;
      if db.L(e).items != [] {
        WaiterGives(Snap(), e);
      }
      var dropped := PriorityDisinherit(holder);
      if db.L(e).items != [] {
        yieldRequired := RemoveFromEventList(e);
      } else {
        yieldRequired := dropped;
      }
    }

    // ------------------------------------------------------------ periodic tasks

    /**
      xTaskDelayUntil, with arrived ticks while it keeps the scheduler suspended.  Read without
      wrap-around, the previous wake time lies elapsed ticks back, so sleeping until
      now + increment - elapsed is sleeping until previous + increment.
     */
    method DelayUntil(previousWakeTime: TickType, increment: TickType, arrived: TickType)
      returns (nextWakeTime: TickType, shouldDelay: bool)
      requires Valid() && Running(Snap()) && suspended == 0 && increment > 0
      modifies this
      ensures Valid() && suspended == 0 && current == old(current)
      ensures var plan := PlanDelay(previousWakeTime, increment, old(tick));
              && nextWakeTime == plan.nextWakeTime && shouldDelay == plan.ticks.Some?
              && nextWakeTime == TickAdd(previousWakeTime, increment)
              && (shouldDelay <==> increment > TickSub(old(tick), previousWakeTime))
              && (shouldDelay ==> plan.ticks == Some(increment - TickSub(old(tick), previousWakeTime)))
              && Model() == Ticks(if shouldDelay
                                  then SleepUntil(old(Model()), current, old(Model()).now + plan.ticks.value)
                                  else old(Model()), arrived)
    {
      hide Core, Timely, ModelOf, NonePending, SleepUntil, Db.L, OnlyPlacesChanged, AnyOutranks, ReleaseAll, Slept;
      hide TicksYield, HighestRuns, Ticks, NoneBefore, NoneOverdue;
      shouldDelay := false;
      assert NonePending(db);
      SuspendAll();
      nextWakeTime := TickAdd(previousWakeTime, increment);
      if tick < previousWakeTime {
        if nextWakeTime < previousWakeTime && nextWakeTime > tick {
          shouldDelay := true;
        }
      } else {
        if nextWakeTime < previousWakeTime || nextWakeTime > tick {
          shouldDelay := true;
        }
      }
      if shouldDelay {
        WeakerBut(Snap());
        AddCurrentTaskToDelayedList(TickSub(nextWakeTime, tick), false);
        TimelyTogether(Snap());
      }
      PendTicks(arrived);
      NothingToRelease(Snap());
      var alreadyYielded := ResumeAll();
    }

    /** Tick interrupts while the scheduler is suspended. */
    method PendTicks(arrived: TickType)
      requires Valid() && suspended > 0 && pendedTicks + arrived <= PORT_MAX_DELAY
      modifies this
      ensures Valid() && suspended == old(suspended) && current == old(current) && db == old(db) && Clk() == old(Clk())
      ensures pendedTicks == old(pendedTicks) + arrived
    {
      hide Core, Timely, NonePending, WakesOver, SharesPriority, HighestRuns, OnlyPlacesChanged;
      var n := arrived;
      while n > 0
        invariant 0 <= n <= arrived && Valid() && pendedTicks == old(pendedTicks) + (arrived - n)
        invariant suspended == old(suspended) && current == old(current) && db == old(db) && Clk() == old(Clk())
      {
        var _ := IncrementTick();
        n := n - 1;
      }
    }
  }

  /**
    Deferred ticks equal immediate ticks.  Scheduler a takes its ticks one by one, with
    context switches after some of them; b, in the same situation, is suspended, only
    counts them, and is then resumed.  Both end with the same time, sleepers and ready tasks.
   */
  method DeferredTicksAgree(a: Scheduler, b: Scheduler, switches: seq<bool>)
    requires a != b && a.Valid() && b.Valid() && a.suspended == 0 && b.suspended == 1
    requires NonePending(b.db) && b.pendedTicks == 0 && SomeReady(a.db)
    requires a.Model() == b.Model() && |switches| <= PORT_MAX_DELAY
    modifies a, b
    ensures a.Valid() && b.Valid() && a.suspended == 0 && b.suspended == 0
    ensures a.Model() == b.Model() == Ticks(old(a.Model()), |switches|)
    ensures a.tick == b.tick && a.overflows == b.overflows
  {
    hide Core, Timely, ModelOf, NonePending, Advance, Ticks, Sound, SomeReady, OnlyPlacesChanged, WakesOver;
    hide ReleaseAll, AnyOutranks, TicksYield, SharesPriority, HighestRuns;
    ghost var m := a.Model();
    SoundCore(a.Snap(), {});
    NoTicks(m);
    var i := 0;
    while i < |switches|
      invariant i <= |switches|
      invariant a.Valid() && b.Valid() && a.suspended == 0 && b.suspended == 1 && b.pendedTicks == i
      invariant NonePending(b.db) && SomeReady(a.db)
      invariant b.Model() == m && a.Model() == Ticks(m, i)
    {
      OneMoreTick(m, i);
      SomeReadyIff(a.Snap(), {});
      RunnableStays(a.Model(), 1);
      var _ := a.IncrementTick();
      SomeReadyIff(a.Snap(), {});
      if switches[i] {
        a.SwitchContext();
        SomeReadyIff(a.Snap(), {});
      }
      var _ := b.IncrementTick();
      i := i + 1;
    }
    NothingToRelease(b.Snap());
    var _ := b.ResumeAll();
    SameInstant(a.Snap(), b.Snap());
  }

  /**
    Time slicing.  While no task of their priority or above wakes, the n ready tasks of the
    highest priority take turns: in n ticks, each followed by a context switch if it asks for
    one, every one of them runs for exactly one tick.
   */
  method TakeTurns(s: Scheduler) returns (ran: seq<Task>)
    requires s.Valid() && s.suspended == 0 && IsReady(s.db, s.current) && HighestRuns(s.db, s.current)
    requires var p := s.db.tasks[s.current].priority; NoneWakes(s.db, s.Model(), p, |s.db.L(Ready(p)).items|)
    modifies s
    ensures s.Valid()
    ensures forall i, j :: 0 <= i < j < |ran| ==> ran[i] != ran[j]
    ensures var was, p := old(s.db), old(s.db.tasks[s.current].priority);
            forall t :: t in ran <==> IsReady(was, t) && was.tasks[t].priority == p
  {
    hide Core, Timely, ModelOf, NonePending, Advance, Ticks, Sound, OnlyPlacesChanged, WakesOver, SharesPriority, HighestRuns;
    hide OnlyWoken, TablesOk, NoneWakes, Db.L, Visits;
    CoreFacts(s.Snap(), {});
    SoundCore(s.Snap(), {});
    ghost var d, m := s.db, s.Model();
    var p := s.db.tasks[s.current].priority;
    var n := |s.db.L(Ready(p)).items|;
    ghost var v := s.db.L(Ready(p));
    ReadyAt(d, p, s.current);
    ghost var all := Visits(v, n);
    FullTurnVisitsAll(v);
    NoTicks(m);
    ran := [];
    var i := 0;
    while i < n
      invariant i <= n && s.Valid() && s.suspended == 0 && IsReady(s.db, s.current) && HighestRuns(s.db, s.current)
      invariant s.current in s.db.tasks && s.db.tasks[s.current].priority == p
      invariant v.items == d.L(Ready(p)).items && v.index <= |v.items| && (i == 0 || n > 1 ==> s.db.L(Ready(p)) == v)
      invariant ran + Visits(v, n - i) == all
      invariant s.Model() == Ticks(m, i) && NoneWakes(s.db, m, p, n)
    {
      OneMoreTick(m, i);
      OneSlice(s, m, i, n, p);
      UnfoldVisits(v, n - i, ran);
      ran := ran + [s.current];
      v := Next(v);
      i := i + 1;
    }
    NoVisits(v, ran);
    forall t
      ensures t in ran <==> IsReady(d, t) && d.tasks[t].priority == p
    {
      ReadyAt(d, p, t);
      SameMembers(ran, d.L(Ready(p)).items, t);
    }
  }

  /** One tick of that series. */
  method OneSlice(s: Scheduler, ghost m: Model, ghost i: nat, ghost n: nat, ghost p: nat)
    requires s.Valid() && s.suspended == 0 && IsReady(s.db, s.current) && HighestRuns(s.db, s.current)
    requires s.db.tasks[s.current].priority == p && s.Model() == Ticks(m, i) && NoneWakes(s.db, m, p, n) && i < n
    requires |s.db.L(Ready(p)).items| == n && s.db.L(Ready(p)).index <= n
    modifies s
    ensures s.Valid() && s.suspended == 0 && IsReady(s.db, s.current) && HighestRuns(s.db, s.current)
    ensures s.db.tasks[s.current].priority == p && s.Model() == Advance(Ticks(m, i), 1) && NoneWakes(s.db, m, p, n)
    ensures s.current == Indexed(Next(old(s.db).L(Ready(p))))
    ensures s.db.L(Ready(p)).items == old(s.db).L(Ready(p)).items
    ensures n > 1 ==> s.db.L(Ready(p)) == Next(old(s.db).L(Ready(p)))
  {
    hide Core, Timely, ModelOf, NonePending, Advance, Ticks, Sound, OnlyPlacesChanged, WakesOver, SharesPriority;
    hide OnlyWoken, TablesOk, NoneWakes, Db.L;
    ghost var b := s.Snap();
    var switchRequired := s.IncrementTick();
    NobodyElse(b, s.Snap(), m, i, n, p);
    CoreFacts(s.Snap(), {});
    ReadyAt(s.db, p, s.current);
    if switchRequired {
      ghost var d := s.db;
      SomeoneReady(d, s.current);
      assert forall t :: IsReady(d, t) ==> d.tasks[t].priority <= p;
      s.SwitchContext();
      SwitchedWithin(b.db, d, s.db, m, n, p, s.current);
      TurnedList(d, p);
    } else {
      OnlyItem(s.db.L(Ready(p)), s.current);
    }
  }

  lemma SomeoneReady(d: Db, t: Task)
    requires IsReady(d, t)
    ensures SomeReady(d)
  {
  }

  lemma UnfoldVisits(v: View<Task>, k: nat, ran: seq<Task>)
    requires v.items != [] && v.index <= |v.items| && k > 0
    ensures ran + Visits(v, k) == (ran + [Indexed(Next(v))]) + Visits(Next(v), k - 1)
  {
  }

  lemma NoVisits(v: View<Task>, ran: seq<Task>)
    requires v.items != [] && v.index <= |v.items|
    ensures ran + Visits(v, 0) == ran
  {
  }

  lemma SameMembers(a: seq<Task>, b: seq<Task>, t: Task)
    requires multiset(a) == multiset(b)
    ensures t in a <==> t in b
  {
    assert t in a <==> t in multiset(a);
    assert t in b <==> t in multiset(b);
  }

  /** A task that is suspended and then resumed is ready, whatever it waited for, and asks for a switch by its priority. */
  method SuspendThenResume(s: Scheduler, t: Task) returns (yieldRequired: bool)
    requires s.Valid() && s.Live(t) && t != s.current
    modifies s
    ensures s.Valid() && t in s.db.tasks && s.current in s.db.tasks
    ensures s.db.tasks[t].stateList == Some(Ready(s.db.tasks[t].priority)) && s.db.tasks[t].eventList == None
    ensures yieldRequired <==> s.db.tasks[t].priority >= s.db.tasks[s.current].priority
  {
    hide Core, Timely, ModelOf, NonePending, Leave, Release, HighestRuns;
    CoreFacts(s.Snap(), {});
    s.Suspend(t);
    yieldRequired := s.Resume(t);
    CoreFacts(s.Snap(), {});
  }

  /**
    A task that blocks for so many ticks is ready again after n tick interrupts exactly if n is
    at least that many, and not zero; one that blocks indefinitely is not.
   */
  method BlockedFor(s: Scheduler, ticksToWait: TickType, canBlockIndefinitely: bool, n: nat)
    requires s.Valid() && Running(s.Snap()) && s.suspended == 0 && s.SafeWait(ticksToWait)
    modifies s
    ensures s.Valid() && s.current == old(s.current)
    ensures IsReady(s.db, s.current) <==>
              n > 0 && ticksToWait <= n && !(ticksToWait == PORT_MAX_DELAY && canBlockIndefinitely)
  {
    hide Core, Timely, ModelOf, NonePending, Advance, Ticks, Sound, OnlyPlacesChanged, WakesOver, SharesPriority, HighestRuns;
    hide OnlyWoken, SleepUntil, SleepForever, Slept, NoneBefore, NoneOverdue, IsReady;
    ghost var t, m := s.current, s.Model();
    WeakerBut(s.Snap());
    s.AddCurrentTaskToDelayedList(ticksToWait, canBlockIndefinitely);
    TimelyTogether(s.Snap());
    ghost var asleep := s.Model();
    SoundCore(s.Snap(), {});
    NoTicks(asleep);
    var i := 0;
    while i < n
      invariant i <= n && s.Valid() && s.suspended == 0 && s.current == t && s.Model() == Ticks(asleep, i)
    {
      OneMoreTick(asleep, i);
      var _ := s.IncrementTick();
      i := i + 1;
    }
    CoreFacts(s.Snap(), {});
    if ticksToWait == PORT_MAX_DELAY && canBlockIndefinitely {
      NeverAwake(s.Snap(), m, t, n);
    } else {
      AwakeIff(s.Snap(), m, t, ticksToWait, n);
    }
  }

  /** What can happen to the tick count: a tick interrupt, vTaskSuspendAll, or xTaskResumeAll. */
  datatype TickStep = Tick | SuspendScheduler | ResumeScheduler

  function TickCount(steps: seq<TickStep>): (n: nat)
    ensures n <= |steps|
  {
    if steps == [] then 0
    else TickCount(steps[..|steps| - 1]) + if steps[|steps| - 1].Tick? then 1 else 0
  }

  /** The true time of the tick count and the pended ticks together. */
  ghost function Counted(s: Scheduler): nat
    reads s
  {
    s.Model().now + s.pendedTicks
  }

  /** However suspending and resuming nest, the tick count and the pended ticks together count every tick. */
  method TicksAreCounted(s: Scheduler, steps: seq<TickStep>)
    requires s.Valid() && s.pendedTicks + |steps| <= PORT_MAX_DELAY
    modifies s
    ensures s.Valid() && Counted(s) == old(Counted(s)) + TickCount(steps)
  {
    hide Core, Timely, ModelOf, NonePending, Ticks, OnlyPlacesChanged, WakesOver, ReleaseAll, AnyOutranks, Sound;
    hide TicksYield, SharesPriority, HighestRuns;
    ghost var start, room := Counted(s), s.pendedTicks;
    var i := 0;
    while i < |steps|
      invariant i <= |steps| && s.Valid() && s.pendedTicks <= room + i
      invariant Counted(s) == start + TickCount(steps[..i])
    {
      assert steps[..i + 1][..i] == steps[..i];
      ghost var m := s.Model();
      match steps[i] {
        case Tick =>
          var _ := s.IncrementTick();
        case SuspendScheduler =>
          s.SuspendAll();
        case ResumeScheduler =>
          if s.suspended > 0 {
            ReleasedLater(m, s.db.L(PendingReady).items, s.pendedTicks);
            var _ := s.ResumeAll();
          }
      }
      i := i + 1;
    }
    assert steps[..i] == steps;
  }

  lemma ReleasedLater(m: Model, ts: seq<Task>, n: nat)
    ensures Ticks(ReleaseAll(m, ts), n).now == m.now + n
    decreases |ts|
  {
    if ts != [] {
      ReleasedLater(Release(m, ts[0]), Tail(ts, 1), n);
    }
  }

  lemma NoTicks(m: Model)
    ensures Ticks(m, 0) == m
  {
  }

  lemma SameInstant(s: Snapshot, r: Snapshot)
    requires s.Model() == r.Model()
    ensures s.clock.tick == r.clock.tick && s.clock.overflows == r.clock.overflows
  {
    InstantParts(s.clock.overflows, s.clock.tick);
    InstantParts(r.clock.overflows, r.clock.tick);
  }
}
