/**
  The locking protocol between tasks and interrupts on one queue or semaphore (queue.c).
  Every critical section and every interrupt call is one method, so a run is any sequence
  of method calls.  Items are only counted here; module QueueRing has their contents.
 */
module QueueWakeups {
  import opened ListViews
  import opened TaskTables

  /** queueUNLOCKED; a locked queue counts from queueLOCKED_UNMODIFIED up. */
  const UNLOCKED: int := -1
  const LOCKED_UNMODIFIED: int := 0
  const INT8_MAX: int := 127

  /**
    Where the task that suspended the scheduler is, between the two critical sections of a
    blocking call: it has locked the queue, found it empty or full, joined a list of
    waiters, or unlocked one of the two counts.
   */
  datatype Phase = Running | Locked | FoundEmpty | FoundFull | Waiting | TxUnlocked

  /** The first k tasks of a list. */
  function First(s: seq<Task>, k: nat): set<Task>
    requires k <= |s|
  {
    set i | 0 <= i < k :: s[i]
  }

  lemma {:induction false} DistinctCount(s: seq<Task>, all: set<Task>)
    requires NoDuplicates(s) && forall t :: t in s ==> t in all
    ensures |s| <= |all|
  {
    if s != [] {
      var n := |s| - 1;
      assert s[n] !in s[..n];
      DistinctCount(s[..n], all - {s[n]});
    }
  }

  lemma NothingWoken(all: seq<Task>)
    ensures First(all, 0) == {} && Tail(all, 0) == all
  {
  }

  lemma OneMoreWoken(all: seq<Task>, k: nat)
    requires k <= |all| && Tail(all, k) != []
    ensures k < |all| && Tail(Tail(all, k), 1) == Tail(all, k + 1) && Tail(all, k)[0] == all[k]
    ensures First(all, k + 1) == First(all, k) + {all[k]}
  {
    TailTwice(all, k);
  }

  lemma TailLength(all: seq<Task>, k: nat)
    requires k <= |all|
    ensures |Tail(all, k)| == |all| - k
  {
  }

  class QueueLock {
    const length: nat
    /** Items of size zero: the queue is a semaphore, whose overwritten count goes on growing. */
    const zeroSized: bool
    var messages: nat
    var rxLock: int
    var txLock: int
    /** xTasksWaitingToReceive and xTasksWaitingToSend, the first to be woken first. */
    var receivers: seq<Task>
    var senders: seq<Task>
    /** Woken tasks that have not yet tried again. */
    var wokenReceivers: set<Task>
    var wokenSenders: set<Task>
    /** All tasks of the system: uxTaskGetNumberOfTasks counts them. */
    var tasks: set<Task>
    var phase: Phase
    var locker: Task
    /** Posts and removals by interrupts since the queue was locked. */
    ghost var posted: nat
    ghost var removed: nat

    /** What the lock count shows of n events: it is capped at the number of tasks. */
    ghost function OnRecord(n: nat): nat
      reads `tasks
    {
      if n <= |tasks| then n else |tasks|
    }

    ghost predicate Shape()
      reads this
    {
      && length >= 1 && (zeroSized || messages <= length) && |tasks| <= INT8_MAX
      && NoDuplicates(receivers) && NoDuplicates(senders)
      && (forall t :: t in receivers ==> t in tasks && t !in wokenReceivers && t !in senders)
      && (forall t :: t in senders ==> t in tasks && t !in wokenSenders)
      && (phase.Locked? || phase.FoundEmpty? || phase.FoundFull? ==> Outside(locker))
      && (phase.Running? || phase.TxUnlocked? <==> txLock == UNLOCKED)
      && (phase.Running? <==> rxLock == UNLOCKED)
      && (txLock != UNLOCKED ==> txLock == OnRecord(posted))
      && (rxLock != UNLOCKED ==> rxLock == OnRecord(removed))
    }

    /** t is a task that neither waits on this queue nor has been woken without trying again. */
    predicate Outside(t: Task)
      reads this
    {
      t in tasks && t !in receivers && t !in senders && t !in wokenReceivers && t !in wokenSenders
    }

    /** While receivers wait, each message has a woken receiver, or a post that came while the queue is locked. */
    ghost predicate ReceiversServed()
      reads this
    {
      receivers != [] ==> messages <= |wokenReceivers| + if txLock == UNLOCKED then 0 else posted
    }

    ghost predicate SendersServed()
      reads this
    {
      senders != [] ==> length - messages <= |wokenSenders| + if rxLock == UNLOCKED then 0 else removed
    }

    /** Every message in a queue found empty was posted since, and every space in one found full was freed since. */
    ghost predicate FindingRecorded()
      reads this
    {
      && (phase.FoundEmpty? ==> messages <= posted)
      && (phase.FoundFull? ==> length - messages <= removed)
    }

    ghost predicate Valid()
      reads this
    {
      Shape() && ReceiversServed() && SendersServed() && FindingRecorded()
    }

    constructor (length: nat, zeroSized: bool, tasks: set<Task>)
      requires length >= 1 && |tasks| <= INT8_MAX
      ensures Valid() && this.length == length && this.zeroSized == zeroSized && this.tasks == tasks
      ensures messages == 0 && phase == Running
      ensures receivers == [] && senders == [] && wokenReceivers == {} && wokenSenders == {}
    {
      this.length, this.zeroSized, this.tasks, messages, phase := length, zeroSized, tasks, 0, Running;
      rxLock, txLock, receivers, senders := UNLOCKED, UNLOCKED, [], [];
      wokenReceivers, wokenSenders, posted, removed := {}, {}, 0, 0;
    }

    /**
      With the queue unlocked, while a receiver waits there are no more messages than woken
      receivers yet to try again; so with none of those, the queue is empty.  Dually for
      senders and free spaces, and never do both wait with nobody on the way.
     */
    lemma NoLostWakeup()
      requires Valid() && phase.Running?
      ensures receivers != [] ==> messages <= |wokenReceivers|
      ensures senders != [] ==> length - messages <= |wokenSenders|
      ensures receivers != [] && wokenReceivers == {} ==> messages == 0
      ensures senders != [] && wokenSenders == {} ==> messages >= length
      ensures receivers != [] && senders != [] ==> |wokenReceivers| + |wokenSenders| >= length
    {
    }

    // ------------------------------------------------------------ waking

    /** xTaskRemoveFromEventList on the receivers, if there are any. */
    method WakeReceiver()
      requires NoDuplicates(receivers) && forall t :: t in receivers ==> t !in wokenReceivers
      modifies `receivers, `wokenReceivers
      ensures receivers == if old(receivers) == [] then [] else Tail(old(receivers), 1)
      ensures wokenReceivers == old(wokenReceivers) + if old(receivers) == [] then {} else {old(receivers)[0]}
      ensures |wokenReceivers| == |old(wokenReceivers)| + if old(receivers) == [] then 0 else 1
      ensures NoDuplicates(receivers) && forall t :: t in receivers ==> t in old(receivers) && t !in wokenReceivers
    {
      if receivers != [] {
        assert receivers[0] in receivers;
        wokenReceivers := wokenReceivers + {receivers[0]};
        receivers := Tail(receivers, 1);
      }
    }

    method WakeSender()
      requires NoDuplicates(senders) && forall t :: t in senders ==> t !in wokenSenders
      modifies `senders, `wokenSenders
      ensures senders == if old(senders) == [] then [] else Tail(old(senders), 1)
      ensures wokenSenders == old(wokenSenders) + if old(senders) == [] then {} else {old(senders)[0]}
      ensures |wokenSenders| == |old(wokenSenders)| + if old(senders) == [] then 0 else 1
      ensures NoDuplicates(senders) && forall t :: t in senders ==> t in old(senders) && t !in wokenSenders
    {
      if senders != [] {
        assert senders[0] in senders;
        wokenSenders := wokenSenders + {senders[0]};
        senders := Tail(senders, 1);
      }
    }

    /** The loop of prvUnlockQueue over the receivers. */
    method WakeReceivers(limit: nat)
      requires NoDuplicates(receivers) && forall t :: t in receivers ==> t !in wokenReceivers
      modifies `receivers, `wokenReceivers
      ensures var k := if limit <= |old(receivers)| then limit else |old(receivers)|;
              && receivers == Tail(old(receivers), k) && wokenReceivers == old(wokenReceivers) + First(old(receivers), k)
              && |wokenReceivers| == |old(wokenReceivers)| + k
      ensures NoDuplicates(receivers) && forall t :: t in receivers ==> t in old(receivers) && t !in wokenReceivers
    {
      hide First, Tail;
      ghost var all, before, woken := receivers, wokenReceivers, 0;
      var count := limit;
      NothingWoken(all);
      while count > LOCKED_UNMODIFIED && receivers != []
        invariant 0 <= count && woken == limit - count <= |all| && receivers == Tail(all, woken)
        invariant NoDuplicates(receivers) && forall t :: t in receivers ==> t in all && t !in wokenReceivers
        invariant wokenReceivers == before + First(all, woken) && |wokenReceivers| == |before| + woken
      {
        OneMoreWoken(all, woken);
        WakeReceiver();
        count, woken := count - 1, woken + 1;
      }
      TailLength(all, woken);
    }

    /** The loop of prvUnlockQueue over the senders. */
    method WakeSenders(limit: nat)
      requires NoDuplicates(senders) && forall t :: t in senders ==> t !in wokenSenders
      modifies `senders, `wokenSenders
      ensures var k := if limit <= |old(senders)| then limit else |old(senders)|;
              && senders == Tail(old(senders), k) && wokenSenders == old(wokenSenders) + First(old(senders), k)
              && |wokenSenders| == |old(wokenSenders)| + k
      ensures NoDuplicates(senders) && forall t :: t in senders ==> t in old(senders) && t !in wokenSenders
    {
      hide First, Tail;
      ghost var all, before, woken := senders, wokenSenders, 0;
      var count := limit;
      NothingWoken(all);
      while count > LOCKED_UNMODIFIED && senders != []
        invariant 0 <= count && woken == limit - count <= |all| && senders == Tail(all, woken)
        invariant NoDuplicates(senders) && forall t :: t in senders ==> t in all && t !in wokenSenders
        invariant wokenSenders == before + First(all, woken) && |wokenSenders| == |before| + woken
      {
        OneMoreWoken(all, woken);
        WakeSender();
        count, woken := count - 1, woken + 1;
      }
      TailLength(all, woken);
    }

    // ------------------------------------------------------------ critical sections of tasks

    method TakeMessage(t: Task)
      requires Valid() && phase.Running? && messages > 0
      modifies `messages, `senders, `wokenReceivers, `wokenSenders
      ensures Valid() && messages == old(messages) - 1 && wokenReceivers == old(wokenReceivers) - {t}
      ensures senders == if old(senders) != [] then Tail(old(senders), 1) else []
      ensures wokenSenders == old(wokenSenders) + if old(senders) != [] then {old(senders)[0]} else {}
    {
      assert |wokenReceivers - {t}| >= |wokenReceivers| - 1;
      wokenReceivers := wokenReceivers - {t};
      messages := messages - 1;
      WakeSender();
    }

    /** The first critical section of xQueueReceive and xQueueSemaphoreTake. */
    method TryReceive(t: Task) returns (received: bool)
      requires Valid() && phase.Running? && t in tasks && t !in receivers && t !in senders
      modifies `messages, `senders, `wokenReceivers, `wokenSenders
      ensures Valid() && received == (old(messages) > 0)
      ensures wokenReceivers == old(wokenReceivers) - {t}
      ensures messages == old(messages) - (if received then 1 else 0)
      ensures senders == if received && old(senders) != [] then Tail(old(senders), 1) else old(senders)
      ensures wokenSenders == old(wokenSenders) + if received && old(senders) != [] then {old(senders)[0]} else {}
    {
      received := messages > 0;
      if received {
        TakeMessage(t);
      } else {
        wokenReceivers := wokenReceivers - {t};
      }
    }

    method PassOn(t: Task)
      requires Valid() && phase.Running? && messages > 0
      modifies `receivers, `wokenReceivers
      ensures Valid()
      ensures receivers == if old(receivers) != [] then Tail(old(receivers), 1) else []
      ensures wokenReceivers == old(wokenReceivers) - {t} + if old(receivers) != [] then {old(receivers)[0]} else {}
    {
      assert |wokenReceivers - {t}| >= |wokenReceivers| - 1;
      wokenReceivers := wokenReceivers - {t};
      WakeReceiver();
    }

    /** The first critical section of xQueuePeek: the message stays, so another receiver is woken. */
    method TryPeek(t: Task) returns (seen: bool)
      requires Valid() && phase.Running? && t in tasks && t !in receivers && t !in senders
      modifies `receivers, `wokenReceivers
      ensures Valid() && seen == (messages > 0)
      ensures receivers == if seen && old(receivers) != [] then Tail(old(receivers), 1) else old(receivers)
      ensures wokenReceivers == old(wokenReceivers) - {t} + if seen && old(receivers) != [] then {old(receivers)[0]} else {}
    {
      seen := messages > 0;
      if seen {
        PassOn(t);
      } else {
        wokenReceivers := wokenReceivers - {t};
      }
    }

    method PutMessage(t: Task, now: nat)
      requires Valid() && phase.Running? && messages <= now <= messages + 1 && (zeroSized || now <= length)
      requires now == messages ==> length == 1 == messages
      modifies `messages, `receivers, `wokenReceivers, `wokenSenders
      ensures Valid() && messages == now && wokenSenders == old(wokenSenders) - {t}
      ensures receivers == if old(receivers) != [] then Tail(old(receivers), 1) else []
      ensures wokenReceivers == old(wokenReceivers) + if old(receivers) != [] then {old(receivers)[0]} else {}
    {
      assert |wokenSenders - {t}| >= |wokenSenders| - 1;
      wokenSenders := wokenSenders - {t};
      messages := now;
      WakeReceiver();
    }

    /** The first critical section of xQueueGenericSend. */
    method TrySend(t: Task, overwrite: bool) returns (sent: bool)
      requires Valid() && phase.Running? && t in tasks && t !in receivers && t !in senders
      requires overwrite ==> length == 1
      modifies `messages, `receivers, `wokenReceivers, `wokenSenders
      ensures Valid() && sent == (old(messages) < length || overwrite)
      ensures wokenSenders == old(wokenSenders) - {t}
      ensures messages == if old(messages) < length || (sent && zeroSized) then old(messages) + 1 else old(messages)
      ensures receivers == if sent && old(receivers) != [] then Tail(old(receivers), 1) else old(receivers)
      ensures wokenReceivers == old(wokenReceivers) + if sent && old(receivers) != [] then {old(receivers)[0]} else {}
    {
      sent := messages < length || overwrite;
      if sent {
        PutMessage(t, if messages < length || zeroSized then messages + 1 else messages);
      } else {
        wokenSenders := wokenSenders - {t};
      }
    }

    /** vTaskSuspendAll and prvLockQueue, by a task whose first try failed. */
    method Lock(t: Task)
      requires Valid() && phase.Running? && Outside(t)
      modifies `phase, `locker, `rxLock, `txLock, `posted, `removed
      ensures Valid() && phase.Locked? && locker == t && rxLock == txLock == LOCKED_UNMODIFIED
      ensures posted == removed == 0
    {
      if rxLock == UNLOCKED {
        rxLock := LOCKED_UNMODIFIED;
      }
      if txLock == UNLOCKED {
        txLock := LOCKED_UNMODIFIED;
      }
      phase, locker, posted, removed := Locked, t, 0, 0;
    }

    /** prvIsQueueEmpty, asked by a task that wants to receive. */
    method CheckEmpty() returns (empty: bool)
      requires Valid() && phase.Locked?
      modifies `phase
      ensures Valid() && empty == (messages == 0) && phase == if empty then FoundEmpty else Locked
    {
      empty := messages == 0;
      if empty {
        phase := FoundEmpty;
      }
    }

    /** prvIsQueueFull, asked by a task that wants to send. */
    method CheckFull() returns (full: bool)
      requires Valid() && phase.Locked?
      modifies `phase
      ensures Valid() && full == (messages == length) && phase == if full then FoundFull else Locked
    {
      full := messages == length;
      if full {
        phase := FoundFull;
      }
    }

    /** vTaskPlaceOnEventList on the receivers, at the place its priority gives it. */
    method WaitToReceive(k: nat)
      requires Valid() && phase.FoundEmpty? && k <= |receivers|
      modifies `phase, `receivers
      ensures Valid() && phase.Waiting? && receivers == Put(old(receivers), k, locker)
    {
      PutNoDuplicates(receivers, k, locker);
      receivers := Put(receivers, k, locker);
      phase := Waiting;
    }

    method WaitToSend(k: nat)
      requires Valid() && phase.FoundFull? && k <= |senders|
      modifies `phase, `senders
      ensures Valid() && phase.Waiting? && senders == Put(old(senders), k, locker)
    {
      PutNoDuplicates(senders, k, locker);
      senders := Put(senders, k, locker);
      phase := Waiting;
    }

    /** The first critical section of prvUnlockQueue: one receiver is woken for each post, whatever the cap. */
    method UnlockTx()
      requires Valid() && (phase.Locked? || phase.Waiting?)
      modifies `phase, `txLock, `receivers, `wokenReceivers
      ensures Valid() && phase.TxUnlocked? && txLock == UNLOCKED
      ensures var k := if posted <= |old(receivers)| then posted else |old(receivers)|;
              receivers == Tail(old(receivers), k) && wokenReceivers == old(wokenReceivers) + First(old(receivers), k)
    {
      hide NoDuplicates, Outside, First;
      DistinctCount(receivers, tasks);
      WakeReceivers(txLock);
      txLock, phase := UNLOCKED, TxUnlocked;
    }

    /** The second critical section of prvUnlockQueue, and xTaskResumeAll. */
    method UnlockRx()
      requires Valid() && phase.TxUnlocked?
      modifies `phase, `rxLock, `senders, `wokenSenders
      ensures Valid() && phase.Running? && rxLock == UNLOCKED
      ensures var k := if removed <= |old(senders)| then removed else |old(senders)|;
              senders == Tail(old(senders), k) && wokenSenders == old(wokenSenders) + First(old(senders), k)
    {
      hide NoDuplicates, Outside, First;
      DistinctCount(senders, tasks);
      WakeSenders(rxLock);
      rxLock, phase := UNLOCKED, Running;
    }

    /** prvUnlockQueue, with nothing between its two critical sections. */
    method Unlock()
      requires Valid() && (phase.Locked? || phase.Waiting?)
      modifies `phase, `txLock, `receivers, `wokenReceivers, `rxLock, `senders, `wokenSenders
      ensures Valid() && phase.Running?
      ensures var k := if posted <= |old(receivers)| then posted else |old(receivers)|;
              receivers == Tail(old(receivers), k) && wokenReceivers == old(wokenReceivers) + First(old(receivers), k)
      ensures var k := if removed <= |old(senders)| then removed else |old(senders)|;
              senders == Tail(old(senders), k) && wokenSenders == old(wokenSenders) + First(old(senders), k)
    {
      hide Shape, ReceiversServed, SendersServed, FindingRecorded, Valid, First, Tail;
      UnlockTx();
      UnlockRx();
    }

    /** The tick, or vTaskSuspend, takes a waiting task off its list; it was not woken for a message. */
    method StopWaiting(t: Task)
      requires Valid() && phase.Running?
      modifies `receivers, `senders
      ensures Valid() && receivers == Without(old(receivers), t) && senders == Without(old(senders), t)
    {
      if t in receivers {
        DropNoDuplicates(receivers, PositionOf(receivers, t));
      }
      if t in senders {
        DropNoDuplicates(senders, PositionOf(senders, t));
      }
      receivers, senders := Without(receivers, t), Without(senders, t);
    }

    // ------------------------------------------------------------ interrupts, in any phase

    /** prvIncrementQueueTxLock: the count shows one post more, and stays clear of its assertion. */
    method IncrementTxLock()
      requires |tasks| <= INT8_MAX && txLock == OnRecord(posted)
      modifies `txLock
      ensures txLock == OnRecord(posted + 1) <= INT8_MAX
    {
      if txLock < |tasks| {
        assert txLock != INT8_MAX;
        txLock := txLock + 1;
      }
    }

    method IncrementRxLock()
      requires |tasks| <= INT8_MAX && rxLock == OnRecord(removed)
      modifies `rxLock
      ensures rxLock == OnRecord(removed + 1) <= INT8_MAX
    {
      if rxLock < |tasks| {
        assert rxLock != INT8_MAX;
        rxLock := rxLock + 1;
      }
    }

    /** A post on an unlocked queue wakes a receiver at once. */
    method PostAndWake(now: nat)
      requires Valid() && txLock == UNLOCKED && messages <= now <= messages + 1 && (zeroSized || now <= length)
      modifies `messages, `receivers, `wokenReceivers
      ensures Valid() && messages == now
      ensures receivers == if old(receivers) == [] then [] else Tail(old(receivers), 1)
      ensures wokenReceivers == old(wokenReceivers) + if old(receivers) == [] then {} else {old(receivers)[0]}
    {
      messages := now;
      WakeReceiver();
    }

    /** A post on a locked queue is only put on record. */
    method PostAndRecord(now: nat)
      requires Valid() && txLock != UNLOCKED && messages <= now <= messages + 1 && (zeroSized || now <= length)
      modifies `messages, `txLock, `posted
      ensures Valid() && messages == now && posted == old(posted) + 1 && txLock != UNLOCKED
    {
      messages := now;
      IncrementTxLock();
      posted := posted + 1;
    }

    method RemoveAndWake()
      requires Valid() && rxLock == UNLOCKED && messages > 0
      modifies `messages, `senders, `wokenSenders
      ensures Valid() && messages == old(messages) - 1
      ensures senders == if old(senders) == [] then [] else Tail(old(senders), 1)
      ensures wokenSenders == old(wokenSenders) + if old(senders) == [] then {} else {old(senders)[0]}
    {
      messages := messages - 1;
      WakeSender();
    }

    method RemoveAndRecord()
      requires Valid() && rxLock != UNLOCKED && messages > 0
      modifies `messages, `rxLock, `removed
      ensures Valid() && messages == old(messages) - 1 && removed == old(removed) + 1 && rxLock != UNLOCKED
    {
      messages := messages - 1;
      IncrementRxLock();
      removed := removed + 1;
    }

    /** xQueueGenericSendFromISR and xQueueGiveFromISR. */
    method SendFromIsr(overwrite: bool) returns (sent: bool)
      requires Valid() && (overwrite ==> length == 1)
      modifies `messages, `txLock, `receivers, `wokenReceivers, `posted
      ensures Valid() && sent == (old(messages) < length || overwrite)
      ensures messages == if old(messages) < length || (sent && zeroSized) then old(messages) + 1 else old(messages)
      ensures sent && old(txLock) != UNLOCKED ==>
                && receivers == old(receivers) && wokenReceivers == old(wokenReceivers)
                && txLock != UNLOCKED && posted == old(posted) + 1
      ensures sent && old(txLock) == UNLOCKED ==>
                && txLock == UNLOCKED && posted == old(posted)
                && (receivers == if old(receivers) == [] then [] else Tail(old(receivers), 1))
                && wokenReceivers == old(wokenReceivers) + if old(receivers) == [] then {} else {old(receivers)[0]}
      ensures !sent ==>
                && txLock == old(txLock) && posted == old(posted)
                && receivers == old(receivers) && wokenReceivers == old(wokenReceivers)
    {
      assert zeroSized || messages <= length;
      hide Shape, ReceiversServed, SendersServed, FindingRecorded, Valid;
      sent := messages < length || overwrite;
      if sent {
        var now := if messages < length || zeroSized then messages + 1 else messages;
        if txLock == UNLOCKED {
          PostAndWake(now);
        } else {
          PostAndRecord(now);
        }
      }
    }

    /** xQueueReceiveFromISR */
    method ReceiveFromIsr() returns (received: bool)
      requires Valid()
      modifies `messages, `rxLock, `senders, `wokenSenders, `removed
      ensures Valid() && received == (old(messages) > 0)
      ensures messages == old(messages) - (if received then 1 else 0)
      ensures received && old(rxLock) != UNLOCKED ==>
                && senders == old(senders) && wokenSenders == old(wokenSenders)
                && rxLock != UNLOCKED && removed == old(removed) + 1
      ensures received && old(rxLock) == UNLOCKED ==>
                && rxLock == UNLOCKED && removed == old(removed)
                && (senders == if old(senders) == [] then [] else Tail(old(senders), 1))
                && wokenSenders == old(wokenSenders) + if old(senders) == [] then {} else {old(senders)[0]}
      ensures !received ==>
                && rxLock == old(rxLock) && removed == old(removed)
                && senders == old(senders) && wokenSenders == old(wokenSenders)
    {
      hide Shape, ReceiversServed, SendersServed, FindingRecorded, Valid;
      received := messages > 0;
      if received {
        if rxLock == UNLOCKED {
          RemoveAndWake();
        } else {
          RemoveAndRecord();
        }
      }
    }

    /** Tasks come and go while the scheduler runs; waiting and woken tasks stay. */
    method ChangeTasks(tasks: set<Task>)
      requires Valid() && phase.Running? && |tasks| <= INT8_MAX
      requires forall t :: t in receivers || t in senders ==> t in tasks
      modifies `tasks
      ensures Valid() && this.tasks == tasks
    {
      this.tasks := tasks;
    }

    /** Any calls from interrupts while the queue is locked: they wake nobody, and every accepted one is recorded. */
    method LockedCalls(calls: seq<IsrCall>)
      requires Valid() && txLock != UNLOCKED && rxLock != UNLOCKED
      requires Allowed(calls, length)
      modifies `messages, `txLock, `rxLock, `posted, `removed, `receivers, `senders, `wokenReceivers, `wokenSenders
      ensures Valid() && txLock != UNLOCKED && rxLock != UNLOCKED
      ensures receivers == old(receivers) && senders == old(senders)
      ensures wokenReceivers == old(wokenReceivers) && wokenSenders == old(wokenSenders)
      ensures var c := Counted(old(messages), length, zeroSized, calls);
              messages == c.messages && posted == old(posted) + c.posts && removed == old(removed) + c.removals
    {
      hide Shape, ReceiversServed, SendersServed, FindingRecorded, Valid;
      var i := 0;
      while i < |calls|
        invariant i <= |calls| && Valid() && txLock != UNLOCKED && rxLock != UNLOCKED
        invariant receivers == old(receivers) && senders == old(senders)
        invariant wokenReceivers == old(wokenReceivers) && wokenSenders == old(wokenSenders)
        invariant var c := Counted(old(messages), length, zeroSized, calls[..i]);
                  messages == c.messages && posted == old(posted) + c.posts && removed == old(removed) + c.removals
      {
        assert calls[..i + 1][..i] == calls[..i] && calls[i] in calls;
        match calls[i] {
          case Post(overwrite) =>
            var _ := SendFromIsr(overwrite);
          case Removal =>
            var _ := ReceiveFromIsr();
        }
        i := i + 1;
      }
      assert calls[..i] == calls;
    }

    /**
      The whole locked window of a receiver: it locks, finds the queue empty or not, waits if
      it is, and unlocks, with any interrupt calls before the check, before it has joined the
      waiters, and after.  Exactly min(posts, waiters) receivers are woken, despite the cap.
     */
    method ReceiverWindow(t: Task, before: seq<IsrCall>, joining: seq<IsrCall>, after: seq<IsrCall>, k: nat)
      returns (waits: bool)
      requires Valid() && phase.Running? && Outside(t) && k <= |receivers|
      requires Allowed(before, length) && Allowed(joining, length) && Allowed(after, length)
      modifies this
      ensures Valid() && phase.Running?
      ensures var c := Counted(old(messages), length, zeroSized, before + joining + after);
              var list := if waits then Put(old(receivers), k, t) else old(receivers);
              var woken := if c.posts <= |list| then c.posts else |list|;
              && messages == c.messages
              && receivers == Tail(list, woken) && wokenReceivers == old(wokenReceivers) + First(list, woken)
      ensures var c := Counted(old(messages), length, zeroSized, before + joining + after);
              var woken := if c.removals <= |old(senders)| then c.removals else |old(senders)|;
              && senders == Tail(old(senders), woken)
              && wokenSenders == old(wokenSenders) + First(old(senders), woken)
      ensures tasks == old(tasks)
      ensures waits <==> Counted(old(messages), length, zeroSized, before).messages == 0
    {
      hide Shape, ReceiversServed, SendersServed, FindingRecorded, Valid, Outside, Counted, First, Tail, Put, Allowed, OnRecord;
      CountedThrice(messages, length, zeroSized, before, joining, after);
      Lock(t);
      LockedCalls(before);
      waits := CheckEmpty();
      LockedCalls(joining);
      if waits {
        WaitToReceive(k);
      }
      LockedCalls(after);
      Unlock();
    }

    /** The same for a sender and the messages interrupts remove. */
    method SenderWindow(t: Task, before: seq<IsrCall>, joining: seq<IsrCall>, after: seq<IsrCall>, k: nat)
      returns (waits: bool)
      requires Valid() && phase.Running? && Outside(t) && k <= |senders|
      requires Allowed(before, length) && Allowed(joining, length) && Allowed(after, length)
      modifies this
      ensures Valid() && phase.Running?
      ensures var c := Counted(old(messages), length, zeroSized, before + joining + after);
              var list := if waits then Put(old(senders), k, t) else old(senders);
              var woken := if c.removals <= |list| then c.removals else |list|;
              && messages == c.messages
              && senders == Tail(list, woken) && wokenSenders == old(wokenSenders) + First(list, woken)
      ensures var c := Counted(old(messages), length, zeroSized, before + joining + after);
              var woken := if c.posts <= |old(receivers)| then c.posts else |old(receivers)|;
              && receivers == Tail(old(receivers), woken)
              && wokenReceivers == old(wokenReceivers) + First(old(receivers), woken)
      ensures tasks == old(tasks)
      ensures waits <==> Counted(old(messages), length, zeroSized, before).messages == length
    {
      hide Shape, ReceiversServed, SendersServed, FindingRecorded, Valid, Outside, Counted, First, Tail, Put, Allowed, OnRecord;
      CountedThrice(messages, length, zeroSized, before, joining, after);
      Lock(t);
      LockedCalls(before);
      waits := CheckFull();
      LockedCalls(joining);
      if waits {
        WaitToSend(k);
      }
      LockedCalls(after);
      Unlock();
    }

    /**
      xQueueGenericReset empties the queue and wakes one sender only.  So it keeps the
      invariant exactly if no other sender is left waiting, or enough are on their way.
     */
    method Reset()
      requires Valid() && phase.Running?
      modifies `messages, `rxLock, `txLock, `senders, `wokenSenders
      ensures messages == 0 && phase.Running?
      ensures senders == if old(senders) == [] then [] else Tail(old(senders), 1)
      ensures wokenSenders == old(wokenSenders) + if old(senders) == [] then {} else {old(senders)[0]}
      ensures Valid() <==> |old(senders)| <= 1 || length <= |old(wokenSenders)| + 1
    {
      messages, rxLock, txLock := 0, UNLOCKED, UNLOCKED;
      WakeSender();
    }

    // ------------------------------------------------------------ runs

    /** Where the section may come next, in the order in which the calls of queue.c go through their sections. */
    predicate MayFollow(c: Section)
      reads this
    {
      match c
      case Receives(t) => phase.Running? && t in tasks && t !in receivers && t !in senders
      case Peeks(t) => phase.Running? && t in tasks && t !in receivers && t !in senders
      case Sends(t, overwrite) => phase.Running? && t in tasks && t !in receivers && t !in senders && (overwrite ==> length == 1)
      case Locks(t) => phase.Running? && Outside(t)
      case ChecksEmpty => phase.Locked?
      case ChecksFull => phase.Locked?
      case WaitsToReceive(k) => phase.FoundEmpty? && k <= |receivers|
      case WaitsToSend(k) => phase.FoundFull? && k <= |senders|
      case UnlocksTx => phase.Locked? || phase.Waiting?
      case UnlocksRx => phase.TxUnlocked?
      case StopsWaiting(t) => phase.Running?
      case Interrupts(Post(overwrite)) => overwrite ==> length == 1
      case Interrupts(Removal) => true
      case ChangesTasks(now) => phase.Running? && |now| <= INT8_MAX && (forall t :: t in receivers + senders ==> t in now)
      case Resets => phase.Running? && (|senders| <= 1 || length <= |wokenSenders| + 1)
    }

    method Perform(c: Section)
      requires Valid() && MayFollow(c)
      modifies this
      ensures Valid()
    {
      hide Shape, ReceiversServed, SendersServed, FindingRecorded, Valid, Outside, First, Tail, Put;
      match c {
        case Receives(t) => var _ := TryReceive(t);
        case Peeks(t) => var _ := TryPeek(t);
        case Sends(t, overwrite) => var _ := TrySend(t, overwrite);
        case Locks(t) => Lock(t);
        case ChecksEmpty => var _ := CheckEmpty();
        case ChecksFull => var _ := CheckFull();
        case WaitsToReceive(k) => WaitToReceive(k);
        case WaitsToSend(k) => WaitToSend(k);
        case UnlocksTx => UnlockTx();
        case UnlocksRx => UnlockRx();
        case StopsWaiting(t) => StopWaiting(t);
        case Interrupts(Post(overwrite)) => var _ := SendFromIsr(overwrite);
        case Interrupts(Removal) => var _ := ReceiveFromIsr();
        case ChangesTasks(now) => ChangeTasks(now);
        case Resets => Reset();
      }
    }

    /**
      Any critical sections and interrupt calls, up to the first that cannot follow or is a
      reset with senders left waiting: no wake-up is lost in any state on the way, as none is
      after any shorter series.
     */
    method Run(sections: seq<Section>) returns (made: nat)
      requires Valid()
      modifies this
      ensures Valid() && made <= |sections| && (made < |sections| ==> !MayFollow(sections[made]))
      ensures phase.Running? && receivers != [] ==> messages <= |wokenReceivers|
      ensures phase.Running? && senders != [] ==> length - messages <= |wokenSenders|
    {
      made := 0;
      while made < |sections| && MayFollow(sections[made])
        invariant Valid() && made <= |sections|
      {
        Perform(sections[made]);
        made := made + 1;
      }
    }
  }

  /** The critical sections of tasks and the calls of interrupts. */
  datatype Section =
    | Receives(task: Task)
    | Peeks(task: Task)
    | Sends(task: Task, overwrite: bool)
    | Locks(task: Task)
    | ChecksEmpty
    | ChecksFull
    | WaitsToReceive(place: nat)
    | WaitsToSend(place: nat)
    | UnlocksTx
    | UnlocksRx
    | StopsWaiting(task: Task)
    | Interrupts(call: IsrCall)
    | ChangesTasks(tasks: set<Task>)
    | Resets

  /** A sender that finds the queue full, with no interrupt about, waits at the head of the list. */
  method WaitFirst(q: QueueLock, t: Task)
    requires q.Valid() && q.phase.Running? && q.Outside(t) && q.messages == q.length && q.receivers == []
    modifies q
    ensures q.Valid() && q.phase.Running? && q.messages == q.length && q.receivers == [] && q.tasks == old(q.tasks)
    ensures q.senders == [t] + old(q.senders) && q.wokenSenders == old(q.wokenSenders)
    ensures q.wokenReceivers == old(q.wokenReceivers)
  {
    hide QueueLock.Valid;
    ghost var none: seq<IsrCall> := [];
    assert none + none + none == none;
    var waits := q.SenderWindow(t, [], [], [], 0);
    NothingWoken(q.senders);
    NothingWoken(Put(old(q.senders), 0, t));
    NothingWoken(old(q.receivers));
    assert Put(old(q.senders), 0, t) == [t] + old(q.senders);
  }

  /** Two senders wait for a queue of two; after a reset there is room for both, and one goes on waiting. */
  method ResetStrandsSender() returns (q: QueueLock)
    ensures fresh(q) && q.length == 2 && q.messages == 0 && q.senders == [1] && q.wokenSenders == {2} && !q.Valid()
  {
    q := new QueueLock(2, false, {1, 2, 3});
    var _ := q.TrySend(3, false);
    var _ := q.TrySend(3, false);
    WaitFirst(q, 1);
    WaitFirst(q, 2);
    q.Reset();
  }

  // ---------------------------------------------------------------- calls from interrupts

  datatype IsrCall = Post(overwrite: bool) | Removal

  /** Only a queue of length one may be overwritten. */
  ghost predicate Allowed(calls: seq<IsrCall>, length: nat) {
    forall c :: c in calls && c.Post? && c.overwrite ==> length == 1
  }

  datatype Count = Count(messages: nat, posts: nat, removals: nat)

  /** The messages after the calls, and how many posts and removals were accepted. */
  function Counted(messages: nat, length: nat, zeroSized: bool, calls: seq<IsrCall>): Count {
    if calls == [] then Count(messages, 0, 0)
    else
      var n := |calls| - 1;
      var c := Counted(messages, length, zeroSized, calls[..n]);
      match calls[n]
      case Post(overwrite) =>
        if c.messages < length || overwrite
        then Count(if c.messages < length || zeroSized then c.messages + 1 else c.messages, c.posts + 1, c.removals)
        else c
      case Removal =>
        if c.messages > 0 then Count(c.messages - 1, c.posts, c.removals + 1) else c
  }

  lemma {:induction false} CountedTwice(messages: nat, length: nat, zeroSized: bool, a: seq<IsrCall>, b: seq<IsrCall>)
    ensures var c := Counted(messages, length, zeroSized, a);
            var d := Counted(c.messages, length, zeroSized, b);
            Counted(messages, length, zeroSized, a + b) == Count(d.messages, c.posts + d.posts, c.removals + d.removals)
    decreases |b|
  {
    if b == [] {
      assert a + b == a;
    } else {
      var n := |b| - 1;
      CountedTwice(messages, length, zeroSized, a, b[..n]);
      assert (a + b)[..|a + b| - 1] == a + b[..n];
    }
  }

  lemma CountedThrice(messages: nat, length: nat, zeroSized: bool, a: seq<IsrCall>, b: seq<IsrCall>, c: seq<IsrCall>)
    ensures var x := Counted(messages, length, zeroSized, a);
            var y := Counted(x.messages, length, zeroSized, b);
            var z := Counted(y.messages, length, zeroSized, c);
            Counted(messages, length, zeroSized, a + b + c)
              == Count(z.messages, x.posts + y.posts + z.posts, x.removals + y.removals + z.removals)
  {
    CountedTwice(messages, length, zeroSized, a, b);
    CountedTwice(messages, length, zeroSized, a + b, c);
  }
}
