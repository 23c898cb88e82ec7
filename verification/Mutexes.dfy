/**
  Mutexes, recursive mutexes and priority inheritance (queue.c with tasks.c).  Each method
  is one critical section.  The ready lists that follow a priority change are the business
  of module Scheduling; the arithmetic is that of module PriorityRules.
 */
module Mutexes {
  import opened KernelConfig
  import opened ListViews
  import opened TaskTables
  import opened PriorityRules

  type MutexId = nat
  type Tasks = map<Task, Tcb>
  type Table = map<MutexId, Mutex>

  /** For each mutex, the tasks that blocked on it since its holder took it. */
  type Since = map<MutexId, set<Task>>

  /** uxMessagesWaiting, xMutexHolder, uxRecursiveCallCount and xTasksWaitingToReceive. */
  datatype Mutex = Mutex(count: nat, holder: Option<Task>, recursiveCalls: nat, waiters: seq<Task>)

  function HeldBy(ms: Table, t: Task): set<MutexId> {
    set m | m in ms && ms[m].holder == Some(t)
  }

  // ---------------------------------------------------------------- accounting

  /** A mutex is available exactly when nobody holds it. */
  ghost predicate CountsOk(ts: Tasks, ms: Table) {
    forall m :: m in ms ==>
      && ms[m].count <= 1 && (ms[m].count == 1 <==> ms[m].holder.None?)
      && (ms[m].holder.Some? ==> ms[m].holder.value in ts)
  }

  /** uxMutexesHeld counts the mutexes that name the task as their holder. */
  ghost predicate HeldOk(ts: Tasks, ms: Table) {
    forall t :: t in ts ==> ts[t].mutexesHeld == |HeldBy(ms, t)|
  }

  /** Whoever holds no mutex runs at the base priority. */
  ghost predicate UnboostedOk(ts: Tasks) {
    forall t :: t in ts && ts[t].mutexesHeld == 0 ==> ts[t].priority == ts[t].basePriority
  }

  ghost predicate Accounting(ts: Tasks, ms: Table) {
    CountsOk(ts, ms) && HeldOk(ts, ms) && UnboostedOk(ts)
  }

  ghost predicate NeverBelowBase(ts: Tasks) {
    forall t :: t in ts ==> ts[t].priority >= ts[t].basePriority
  }

  // ---------------------------------------------------------------- inheritance

  function EventValues(ts: Tasks, l: seq<Task>): (r: seq<nat>)
    ensures |r| == |l|
  {
    seq(|l|, i requires 0 <= i < |l| => if l[i] in ts then ts[l[i]].eventValue else 0)
  }

  /** A waiter that holds no mutex, with the event value of its priority. */
  predicate PlainWaiter(ts: Tasks, w: Task) {
    && w in ts && ts[w].mutexesHeld == 0 && ts[w].priority < MAX_PRIORITIES
    && ts[w].eventValue == EventValueOf(ts[w].priority)
  }

  /** The waiters of a mutex hold none themselves and stand in order of their priority. */
  ghost predicate WaitersOk(ts: Tasks, l: seq<Task>) {
    NoDuplicates(l) && (forall w :: w in l ==> PlainWaiter(ts, w)) && Sorted(EventValues(ts, l))
  }

  /** The holder runs no lower than any task that blocked during this hold and still waits. */
  ghost predicate Boosted(ts: Tasks, m: Mutex, since: set<Task>) {
    m.holder.Some? && m.holder.value in ts ==>
      forall w :: w in since && w in m.waiters && w in ts ==> ts[w].priority <= ts[m.holder.value].priority
  }

  ghost predicate Inheriting(ts: Tasks, ms: Table, since: Since) {
    && (forall m :: m in ms ==> WaitersOk(ts, ms[m].waiters))
    && (forall m :: m in ms ==> m in since && Boosted(ts, ms[m], since[m]))
  }

  predicate Waits(ms: Table, t: Task) {
    exists m :: m in ms && t in ms[m].waiters
  }

  // ---------------------------------------------------------------- changing one task, one mutex

  lemma OtherValues(ts: Tasks, l: seq<Task>, t: Task, tcb: Tcb)
    requires t !in l
    ensures EventValues(ts[t := tcb], l) == EventValues(ts, l)
  {
  }

  /** A task that waits nowhere may change without disturbing any waiters. */
  lemma WaitersUndisturbed(ts: Tasks, l: seq<Task>, t: Task, tcb: Tcb)
    requires WaitersOk(ts, l) && t !in l
    ensures WaitersOk(ts[t := tcb], l)
  {
    OtherValues(ts, l, t, tcb);
  }

  lemma HeldSame(ms: Table, m: MutexId, x: Mutex, t: Task)
    requires m in ms && x.holder == ms[m].holder
    ensures HeldBy(ms[m := x], t) == HeldBy(ms, t)
  {
  }

  lemma HeldTaken(ms: Table, m: MutexId, x: Mutex, t: Task, u: Task)
    requires m in ms && ms[m].holder == None && x.holder == Some(t)
    ensures |HeldBy(ms[m := x], u)| == |HeldBy(ms, u)| + if u == t then 1 else 0
  {
    assert HeldBy(ms[m := x], u) == HeldBy(ms, u) + if u == t then {m} else {};
  }

  lemma HeldGiven(ms: Table, m: MutexId, x: Mutex, t: Task, u: Task)
    requires m in ms && ms[m].holder == Some(t) && x.holder == None
    ensures |HeldBy(ms[m := x], u)| == |HeldBy(ms, u)| - if u == t then 1 else 0
  {
    assert HeldBy(ms[m := x], u) == HeldBy(ms, u) - if u == t then {m} else {};
  }

  lemma HoldsSome(ms: Table, m: MutexId, t: Task)
    requires m in ms && ms[m].holder == Some(t)
    ensures m in HeldBy(ms, t) && |HeldBy(ms, t)| >= 1
  {
    assert {m} <= HeldBy(ms, t);
    SubsetSize({m}, HeldBy(ms, t));
  }

  lemma HoldsOnly(ms: Table, m: MutexId, n: MutexId, t: Task)
    requires m in ms && n in ms && ms[m].holder == Some(t) == ms[n].holder && |HeldBy(ms, t)| <= 1
    ensures m == n
  {
    if m != n {
      SubsetSize({m, n}, HeldBy(ms, t));
    }
  }

  lemma {:induction false} SubsetSize<T>(a: set<T>, b: set<T>)
    requires a <= b
    ensures |a| <= |b|
  {
    if a != {} {
      var x :| x in a;
      SubsetSize(a - {x}, b - {x});
    }
  }

  // ---------------------------------------------------------------- take

  lemma TakeAccounts(ts: Tasks, ms: Table, t: Task, m: MutexId, tcb: Tcb, x: Mutex)
    requires Accounting(ts, ms) && t in ts && m in ms && ms[m].holder == None
    requires tcb == ts[t].(mutexesHeld := ts[t].mutexesHeld + 1)
    requires x.holder == Some(t) && x.count == 0
    ensures Accounting(ts[t := tcb], ms[m := x])
  {
    forall u | u in ts
      ensures ts[t := tcb][u].mutexesHeld == |HeldBy(ms[m := x], u)|
    {
      HeldTaken(ms, m, x, t, u);
    }
  }

  lemma TakeInherits(ts: Tasks, ms: Table, since: Since, t: Task, m: MutexId, tcb: Tcb, x: Mutex)
    requires Inheriting(ts, ms, since) && t in ts && m in ms && !Waits(ms, t)
    requires tcb == ts[t].(mutexesHeld := ts[t].mutexesHeld + 1) && x.waiters == ms[m].waiters
    ensures Inheriting(ts[t := tcb], ms[m := x], since[m := {}])
  {
    hide WaitersOk;
    var after := ms[m := x];
    forall n | n in after
      ensures WaitersOk(ts[t := tcb], after[n].waiters)
      ensures n in since[m := {}] && Boosted(ts[t := tcb], after[n], since[m := {}][n])
    {
      assert t !in ms[n].waiters;
      WaitersUndisturbed(ts, ms[n].waiters, t, tcb);
      assert Boosted(ts, ms[n], since[n]);
    }
  }

  // ---------------------------------------------------------------- block

  lemma BlockAccounts(ts: Tasks, ms: Table, h: Task, m: MutexId, tcb: Tcb, x: Mutex)
    requires Accounting(ts, ms) && h in ts && m in ms && ms[m].holder == Some(h)
    requires tcb.mutexesHeld == ts[h].mutexesHeld
    requires x == ms[m].(waiters := x.waiters)
    ensures Accounting(ts[h := tcb], ms[m := x])
  {
    HoldsSome(ms, m, h);
    forall u | u in ts
      ensures ts[h := tcb][u].mutexesHeld == |HeldBy(ms[m := x], u)|
    {
      HeldSame(ms, m, x, u);
    }
  }

  /** Whoever holds a mutex waits for none. */
  lemma HolderWaitsNot(ts: Tasks, ms: Table, since: Since, h: Task)
    requires Inheriting(ts, ms, since) && h in ts && ts[h].mutexesHeld > 0
    ensures !Waits(ms, h)
  {
    forall m | m in ms
      ensures h !in ms[m].waiters
    {
      assert WaitersOk(ts, ms[m].waiters);
    }
  }

  lemma JoinWaiters(ts: Tasks, l: seq<Task>, t: Task)
    requires WaitersOk(ts, l) && PlainWaiter(ts, t) && t !in l
    ensures WaitersOk(ts, Put(l, SortedPosition(EventValues(ts, l), ts[t].eventValue), t))
  {
    var keys, key := EventValues(ts, l), ts[t].eventValue;
    var k := SortedPosition(keys, key);
    PutNoDuplicates(l, k, t);
    SortedInsertion(keys, key);
    assert EventValues(ts, Put(l, k, t)) == Put(keys, k, key);
  }

  lemma RaisedStaysBoosted(ts: Tasks, n: Mutex, since: set<Task>, h: Task, tcb: Tcb)
    requires Boosted(ts, n, since) && h in ts && tcb.priority >= ts[h].priority && h !in n.waiters
    ensures Boosted(ts[h := tcb], n, since)
  {
  }

  lemma RaisedInherits(ts: Tasks, ms: Table, since: Since, h: Task, tcb: Tcb)
    requires Inheriting(ts, ms, since) && h in ts && tcb.priority >= ts[h].priority && !Waits(ms, h)
    ensures Inheriting(ts[h := tcb], ms, since)
  {
    hide WaitersOk, Boosted;
    forall n | n in ms
      ensures WaitersOk(ts[h := tcb], ms[n].waiters) && n in since && Boosted(ts[h := tcb], ms[n], since[n])
    {
      assert h !in ms[n].waiters;
      WaitersUndisturbed(ts, ms[n].waiters, h, tcb);
      RaisedStaysBoosted(ts, ms[n], since[n], h, tcb);
    }
  }

  lemma JoinInherits(ts: Tasks, ms: Table, since: Since, t: Task, m: MutexId, x: Mutex)
    requires Inheriting(ts, ms, since) && m in ms && PlainWaiter(ts, t) && t !in ms[m].waiters
    requires ms[m].holder.Some? && ms[m].holder.value in ts && ts[ms[m].holder.value].priority >= ts[t].priority
    requires x == ms[m].(waiters := Put(ms[m].waiters, SortedPosition(EventValues(ts, ms[m].waiters), ts[t].eventValue), t))
    ensures Inheriting(ts, ms[m := x], since[m := since[m] + {t}])
  {
    var l := ms[m].waiters;
    JoinWaiters(ts, l, t);
    assert Boosted(ts, ms[m], since[m]);
    hide WaitersOk, SortedPosition, EventValues;
    PutMembers(l, SortedPosition(EventValues(ts, l), ts[t].eventValue), t);
  }

  lemma BlockInherits(ts: Tasks, ms: Table, since: Since, t: Task, h: Task, m: MutexId, x: Mutex)
    requires Accounting(ts, ms) && Inheriting(ts, ms, since)
    requires m in ms && ms[m].holder == Some(h) && h in ts && PlainWaiter(ts, t) && !Waits(ms, t)
    requires var now := ts[h := Inherit(ts[h], ts[t].priority)];
             x == ms[m].(waiters := Put(ms[m].waiters, SortedPosition(EventValues(now, ms[m].waiters), ts[t].eventValue), t))
    ensures Inheriting(ts[h := Inherit(ts[h], ts[t].priority)], ms[m := x], since[m := since[m] + {t}])
  {
    HoldsSome(ms, m, h);
    HolderWaitsNot(ts, ms, since, h);
    RaisedInherits(ts, ms, since, h, Inherit(ts[h], ts[t].priority));
    assert t !in ms[m].waiters;
    hide Inheriting, Accounting, SortedPosition, EventValues;
    JoinInherits(ts[h := Inherit(ts[h], ts[t].priority)], ms, since, t, m, x);
  }

  /** The promise alone, whether or not waiters hold mutexes themselves. */
  ghost predicate Promise(ts: Tasks, ms: Table, since: Since) {
    forall m :: m in ms ==> m in since && Boosted(ts, ms[m], since[m])
  }

  /** Raising h to priority leaves it no higher than the holders of the mutexes it waits for itself. */
  ghost predicate ChainServed(ts: Tasks, ms: Table, since: Since, h: Task, priority: nat) {
    forall n :: n in ms && n in since ==> ServedAt(ts, ms[n], since[n], h, priority)
  }

  predicate ServedAt(ts: Tasks, x: Mutex, since: set<Task>, h: Task, priority: nat) {
    h in since && h in x.waiters && x.holder.Some? && x.holder.value in ts && x.holder.value != h ==>
      priority <= ts[x.holder.value].priority
  }

  lemma RaisedBoostedIff(ts: Tasks, x: Mutex, since: set<Task>, h: Task, tcb: Tcb)
    requires Boosted(ts, x, since) && h in ts && tcb.priority >= ts[h].priority
    ensures Boosted(ts[h := tcb], x, since) <==> ServedAt(ts, x, since, h, tcb.priority)
  {
  }

  /** One more waiter, no higher than the holder. */
  lemma JoinedBoosted(ts: Tasks, a: Mutex, since: set<Task>, t: Task, k: nat)
    requires k <= |a.waiters| && t in ts && a.holder.Some? && a.holder.value in ts
    requires ts[t].priority <= ts[a.holder.value].priority
    ensures Boosted(ts, a.(waiters := Put(a.waiters, k, t)), since + {t}) <==> Boosted(ts, a, since)
  {
    PutMembers(a.waiters, k, t);
  }

  /**
    Whatever the waiters hold, blocking keeps the promise exactly if the holder need not
    be raised, or waits only for mutexes whose holders already run at the new priority.
   */
  lemma BlockKeepsPromiseIff(ts: Tasks, ms: Table, since: Since, t: Task, h: Task, m: MutexId, k: nat)
    requires Promise(ts, ms, since) && m in ms && ms[m].holder == Some(h) && h in ts && t in ts
    requires k <= |ms[m].waiters|
    ensures var now := ts[h := Inherit(ts[h], ts[t].priority)];
            var after := ms[m := ms[m].(waiters := Put(ms[m].waiters, k, t))];
            Promise(now, after, since[m := since[m] + {t}]) <==>
              ts[h].priority >= ts[t].priority || ChainServed(ts, ms, since, h, ts[t].priority)
  {
    var tcb := Inherit(ts[h], ts[t].priority);
    var now, x := ts[h := tcb], ms[m].(waiters := Put(ms[m].waiters, k, t));
    var after, joined := ms[m := x], since[m := since[m] + {t}];
    InheritRaises(ts[h], ts[t].priority);
    assert tcb.priority == if ts[h].priority < ts[t].priority then ts[t].priority else ts[h].priority;
    JoinedBoosted(now, ms[m], since[m], t, k);
    hide Boosted, Put, Inherit, ServedAt;
    forall n | n in ms
      ensures Boosted(now, after[n], joined[n]) <==> Boosted(now, ms[n], since[n])
      ensures Boosted(now, ms[n], since[n]) <==> ServedAt(ts, ms[n], since[n], h, tcb.priority)
    {
      RaisedBoostedIff(ts, ms[n], since[n], h, tcb);
    }
    if ts[h].priority >= ts[t].priority {
      assert tcb == ts[h] && now == ts;
    }
  }

  // ---------------------------------------------------------------- time-outs

  lemma LeaveWaiters(ts: Tasks, l: seq<Task>, t: Task)
    requires WaitersOk(ts, l)
    ensures WaitersOk(ts, Without(l, t)) && t !in Without(l, t)
    ensures forall w :: w in Without(l, t) ==> w in l
  {
    if t in l {
      var k := PositionOf(l, t);
      DropNoDuplicates(l, k);
      assert EventValues(ts, Drop(l, k)) == Drop(EventValues(ts, l), k);
    }
  }

  lemma LeaveInherits(ts: Tasks, ms: Table, since: Since, m: MutexId, x: Mutex, t: Task)
    requires Inheriting(ts, ms, since) && m in ms && x == ms[m].(waiters := Without(ms[m].waiters, t))
    ensures Inheriting(ts, ms[m := x], since[m := since[m] - {t}])
  {
    LeaveWaiters(ts, ms[m].waiters, t);
    assert Boosted(ts, ms[m], since[m]);
    hide WaitersOk;
  }

  lemma SameHolders(ts: Tasks, ms: Table, m: MutexId, x: Mutex)
    requires Accounting(ts, ms) && m in ms && x.holder == ms[m].holder && x.count == ms[m].count
    ensures Accounting(ts, ms[m := x])
  {
    forall u | u in ts
      ensures ts[u].mutexesHeld == |HeldBy(ms[m := x], u)|
    {
      HeldSame(ms, m, x, u);
    }
  }

  /** prvGetDisinheritPriorityAfterTimeout reads the head; it is the highest of all waiters. */
  function HighestWaiting(ts: Tasks, l: seq<Task>): nat {
    if l == [] || l[0] !in ts || ts[l[0]].eventValue > MAX_PRIORITIES then 0 else MAX_PRIORITIES - ts[l[0]].eventValue
  }

  lemma HeadIsHighest(ts: Tasks, l: seq<Task>, w: Task)
    requires WaitersOk(ts, l) && w in l
    ensures w in ts && ts[w].priority <= HighestWaiting(ts, l) < MAX_PRIORITIES
  {
    var keys, i := EventValues(ts, l), PositionOf(l, w);
    assert l[0] in l && l[i] in l;
    assert PlainWaiter(ts, l[0]) && PlainWaiter(ts, l[i]);
    assert keys[0] <= keys[i];
  }

  /** The priority after the time-out, by the head of the waiters. */
  lemma TimeoutPriority(ts: Tasks, h: Task, l: seq<Task>)
    requires h in ts
    ensures var highest, now := HighestWaiting(ts, l), DisinheritAfterTimeout(ts[h], HighestWaiting(ts, l));
            && now.basePriority == ts[h].basePriority && now.mutexesHeld == ts[h].mutexesHeld
            && now.priority == (if ts[h].mutexesHeld != 1 then ts[h].priority
                                else if ts[h].basePriority < highest then highest else ts[h].basePriority)
            && (l == [] ==> highest == 0)
  {
  }

  /** The head is one of the highest waiters. */
  lemma TimeoutServes(ts: Tasks, ms: Table, since: Since, m: MutexId, h: Task, tcb: Tcb)
    requires Inheriting(ts, ms, since) && m in ms && h in ts && !Waits(ms, h) && ts[h].mutexesHeld == 1
    requires tcb == DisinheritAfterTimeout(ts[h], HighestWaiting(ts, ms[m].waiters))
    ensures tcb.priority >= tcb.basePriority && h !in ms[m].waiters
    ensures forall w :: w in ms[m].waiters ==> w in ts && ts[w].priority <= tcb.priority
    ensures tcb.priority == tcb.basePriority || (exists w :: w in ms[m].waiters && w in ts && ts[w].priority == tcb.priority)
  {
    var l := ms[m].waiters;
    assert WaitersOk(ts, l);
    TimeoutPriority(ts, h, l);
    forall w | w in l
      ensures w in ts && ts[w].priority <= HighestWaiting(ts, l)
    {
      HeadIsHighest(ts, l, w);
    }
    if l != [] {
      assert l[0] in l && PlainWaiter(ts, l[0]);
    }
  }

  lemma LoweredBoosted(ts: Tasks, ms: Table, since: Since, n: MutexId, m: MutexId, h: Task, tcb: Tcb)
    requires Inheriting(ts, ms, since) && m in ms && n in ms && ms[m].holder == Some(h) && h in ts
    requires |HeldBy(ms, h)| == 1 && tcb.priority >= HighestWaiting(ts, ms[m].waiters) && !Waits(ms, h)
    ensures n in since && Boosted(ts[h := tcb], ms[n], since[n])
  {
    assert Boosted(ts, ms[n], since[n]);
    if ms[n].holder == Some(h) {
      HoldsOnly(ms, m, n, h);
      forall w | w in since[m] && w in ms[m].waiters && w in ts
        ensures w != h && ts[w].priority <= tcb.priority
      {
        HeadIsHighest(ts, ms[m].waiters, w);
      }
    } else if ms[n].holder.Some? && ms[n].holder.value in ts {
      assert h !in ms[n].waiters;
    }
  }

  /** With only this mutex held, going down to its highest waiter still serves every waiter. */
  lemma LoweredInherits(ts: Tasks, ms: Table, since: Since, m: MutexId, h: Task, tcb: Tcb)
    requires Inheriting(ts, ms, since) && m in ms && ms[m].holder == Some(h) && h in ts
    requires |HeldBy(ms, h)| == 1 && tcb.priority >= HighestWaiting(ts, ms[m].waiters) && !Waits(ms, h)
    ensures Inheriting(ts[h := tcb], ms, since)
  {
    hide Boosted, HighestWaiting;
    forall n | n in ms
      ensures WaitersOk(ts[h := tcb], ms[n].waiters) && n in since && Boosted(ts[h := tcb], ms[n], since[n])
    {
      assert WaitersOk(ts, ms[n].waiters) && h !in ms[n].waiters;
      WaitersUndisturbed(ts, ms[n].waiters, h, tcb);
      LoweredBoosted(ts, ms, since, n, m, h, tcb);
    }
  }

  // ---------------------------------------------------------------- give

  lemma GiveAccounts(ts: Tasks, ms: Table, t: Task, m: MutexId, x: Mutex)
    requires Accounting(ts, ms) && t in ts && m in ms && ms[m].holder == Some(t)
    requires x.holder == None && x.count == 1
    ensures ts[t].mutexesHeld > 0 && Accounting(ts[t := Disinherit(ts[t])], ms[m := x])
  {
    HoldsSome(ms, m, t);
    forall u | u in ts
      ensures ts[t := Disinherit(ts[t])][u].mutexesHeld == |HeldBy(ms[m := x], u)|
    {
      HeldGiven(ms, m, x, t, u);
    }
  }

  lemma GivenBoosted(ts: Tasks, ms: Table, since: Since, t: Task, m: MutexId, n: MutexId)
    requires Accounting(ts, ms) && Inheriting(ts, ms, since) && t in ts && m in ms && n in ms && n != m
    requires ms[m].holder == Some(t) && !Waits(ms, t) && ts[t].mutexesHeld > 0
    ensures n in since && Boosted(ts[t := Disinherit(ts[t])], ms[n], since[n])
  {
    assert Boosted(ts, ms[n], since[n]) && t !in ms[n].waiters;
    if ms[n].holder == Some(t) {
      SubsetSize({m, n}, HeldBy(ms, t));
      assert Disinherit(ts[t]).priority == ts[t].priority;
    }
  }

  lemma GiveInherits(ts: Tasks, ms: Table, since: Since, t: Task, m: MutexId, x: Mutex)
    requires Accounting(ts, ms) && Inheriting(ts, ms, since) && t in ts && m in ms
    requires ms[m].holder == Some(t) && !Waits(ms, t) && ts[t].mutexesHeld > 0
    requires x.holder == None && x.waiters == if ms[m].waiters == [] then [] else Drop(ms[m].waiters, 0)
    ensures Inheriting(ts[t := Disinherit(ts[t])], ms[m := x], since[m := {}])
  {
    var now, after := ts[t := Disinherit(ts[t])], ms[m := x];
    forall n | n in after
      ensures WaitersOk(now, after[n].waiters) && n in since[m := {}] && Boosted(now, after[n], since[m := {}][n])
    {
      assert WaitersOk(ts, ms[n].waiters) && t !in ms[n].waiters;
      WaitersUndisturbed(ts, ms[n].waiters, t, Disinherit(ts[t]));
      if n == m {
        HeadLeaves(now, ms[m].waiters);
      } else {
        GivenBoosted(ts, ms, since, t, m, n);
      }
    }
  }

  lemma HeadLeaves(ts: Tasks, l: seq<Task>)
    requires WaitersOk(ts, l)
    ensures WaitersOk(ts, if l == [] then [] else Drop(l, 0))
  {
    if l != [] {
      DropNoDuplicates(l, 0);
      assert EventValues(ts, Drop(l, 0)) == Drop(EventValues(ts, l), 0);
    }
  }

  // ---------------------------------------------------------------- setting priorities

  /** A task that neither holds nor waits may get any priority. */
  lemma UninvolvedInherits(ts: Tasks, ms: Table, since: Since, t: Task, tcb: Tcb)
    requires Accounting(ts, ms) && Inheriting(ts, ms, since) && t in ts
    requires ts[t].mutexesHeld == 0 && !Waits(ms, t)
    ensures Inheriting(ts[t := tcb], ms, since)
  {
    hide WaitersOk;
    forall n | n in ms
      ensures WaitersOk(ts[t := tcb], ms[n].waiters) && n in since && Boosted(ts[t := tcb], ms[n], since[n])
    {
      assert t !in ms[n].waiters && Boosted(ts, ms[n], since[n]);
      WaitersUndisturbed(ts, ms[n].waiters, t, tcb);
      if ms[n].holder == Some(t) {
        HoldsSome(ms, n, t);
        assert false;
      }
    }
  }

  /** Lowering h to priority leaves it no lower than whoever waits for a mutex it holds. */
  ghost predicate WaitersServed(ts: Tasks, ms: Table, since: Since, h: Task, priority: nat) {
    forall n :: n in ms && n in since && ms[n].holder == Some(h) ==> NoneAbove(ts, ms[n], since[n], h, priority)
  }

  predicate NoneAbove(ts: Tasks, x: Mutex, since: set<Task>, h: Task, priority: nat) {
    forall w :: w in since && w in x.waiters && w in ts && w != h ==> ts[w].priority <= priority
  }

  lemma LoweredBoostedIff(ts: Tasks, x: Mutex, since: set<Task>, h: Task, tcb: Tcb)
    requires Boosted(ts, x, since) && h in ts && tcb.priority <= ts[h].priority
    ensures Boosted(ts[h := tcb], x, since) <==> (x.holder == Some(h) ==> NoneAbove(ts, x, since, h, tcb.priority))
  {
  }

  /**
    Whatever the task holds or waits for, another priority keeps the promise exactly if,
    raised, it waits only for mutexes whose holders run at that priority already, and,
    lowered, it holds none that a higher task waits for.
   */
  lemma PriorityKeepsPromiseIff(ts: Tasks, ms: Table, since: Since, t: Task, tcb: Tcb)
    requires Promise(ts, ms, since) && t in ts
    ensures Promise(ts[t := tcb], ms, since) <==>
              if tcb.priority >= ts[t].priority then ChainServed(ts, ms, since, t, tcb.priority)
              else WaitersServed(ts, ms, since, t, tcb.priority)
  {
    hide Boosted, ServedAt, NoneAbove;
    forall n | n in ms
      ensures Boosted(ts[t := tcb], ms[n], since[n]) <==>
                if tcb.priority >= ts[t].priority then ServedAt(ts, ms[n], since[n], t, tcb.priority)
                else ms[n].holder == Some(t) ==> NoneAbove(ts, ms[n], since[n], t, tcb.priority)
    {
      if tcb.priority >= ts[t].priority {
        RaisedBoostedIff(ts, ms[n], since[n], t, tcb);
      } else {
        LoweredBoostedIff(ts, ms[n], since[n], t, tcb);
      }
    }
  }

  /** A holder of priority 5, not boosted, is set to 1 while a task of priority 3 waits for its mutex. */
  lemma LoweredBelowWaiter()
    ensures var ts: Tasks := map[1 := Tcb(5, 5, 1, 0, None, EventValueOf(5), None), 2 := Tcb(3, 3, 0, 0, None, EventValueOf(3), None)];
            var ms: Table := map[0 := Mutex(0, Some(1), 0, [2])];
            Promise(ts, ms, map[0 := {2}]) && !Promise(ts[1 := SetPriority(ts[1], 1)], ms, map[0 := {2}])
  {
    var ts: Tasks := map[1 := Tcb(5, 5, 1, 0, None, EventValueOf(5), None), 2 := Tcb(3, 3, 0, 0, None, EventValueOf(3), None)];
    var ms: Table := map[0 := Mutex(0, Some(1), 0, [2])];
    assert 2 in ms[0].waiters;
    assert !Boosted(ts[1 := SetPriority(ts[1], 1)], ms[0], {2});
  }

  lemma CreateAccounts(ts: Tasks, ms: Table, m: MutexId)
    requires Accounting(ts, ms) && m !in ms
    ensures Accounting(ts, ms[m := Mutex(1, None, 0, [])])
  {
    var after := ms[m := Mutex(1, None, 0, [])];
    forall t | t in ts
      ensures ts[t].mutexesHeld == |HeldBy(after, t)|
    {
      assert HeldBy(after, t) == HeldBy(ms, t);
    }
  }

  // ---------------------------------------------------------------- the operations

  /** A call of a task, or a time-out: TimedOut is the end of a take that gave up waiting. */
  datatype Call =
    | Create(mutex: MutexId)
    | TakeOrWait(task: Task, mutex: MutexId, mayBlock: bool)
    | GiveUp(task: Task, mutex: MutexId)
    | TimedOut(mutex: MutexId)
    | GiveBack(task: Task, mutex: MutexId)
    | SetTaskPriority(task: Task, priority: nat)

  /**
    The calls under which inheritance is promised: by tasks that do not wait, a give by the
    holder, a wait by a task that holds nothing, and another priority for a task that neither
    holds nor waits.
   */
  predicate PlainCall(ts: Tasks, ms: Table, c: Call) {
    match c
    case Create(m) => m !in ms
    case TakeOrWait(t, m, mayBlock) =>
      t in ts && m in ms && !Waits(ms, t) && (mayBlock && ms[m].holder.Some? ==> PlainWaiter(ts, t))
    case GiveUp(t, m) => m in ms
    case TimedOut(m) => m in ms
    case GiveBack(t, m) => m in ms && ms[m].holder == Some(t) && !Waits(ms, t)
    case SetTaskPriority(t, p) => t in ts && ts[t].mutexesHeld == 0 && !Waits(ms, t)
  }

  class MutexSystem {
    var tasks: Tasks
    var mutexes: Table
    ghost var since: Since

    /** The accounting of mutexes and their holders, which no operation breaks. */
    ghost predicate Valid()
      reads this
    {
      Accounting(tasks, mutexes) && since.Keys == mutexes.Keys
    }

    /** The promise of priority inheritance, on top of the accounting. */
    ghost predicate Inherits()
      reads this
    {
      Inheriting(tasks, mutexes, since)
    }

    constructor (tasks: Tasks)
      requires forall t :: t in tasks ==> tasks[t].mutexesHeld == 0 && tasks[t].priority == tasks[t].basePriority
      ensures Valid() && Inherits() && this.tasks == tasks && mutexes == map[]
    {
      this.tasks, mutexes, since := tasks, map[], map[];
      new;
      forall t | t in tasks
        ensures HeldBy(mutexes, t) == {}
      {
      }
    }

    /** prvInitialiseMutex: the first give, by nobody, makes the mutex available. */
    method CreateMutex(m: MutexId)
      requires Valid() && m !in mutexes
      modifies this
      ensures Valid() && tasks == old(tasks) && mutexes == old(mutexes)[m := Mutex(1, None, 0, [])]
      ensures old(Inherits()) ==> Inherits()
    {
      hide Accounting;
      CreateAccounts(tasks, mutexes, m);
      mutexes, since := mutexes[m := Mutex(1, None, 0, [])], since[m := {}];
    }

    /** The first critical section of xQueueSemaphoreTake on a mutex. */
    method Take(t: Task, m: MutexId) returns (taken: bool)
      requires Valid() && t in tasks && m in mutexes
      modifies this
      ensures Valid() && taken == (old(mutexes[m]).holder == None)
      ensures taken ==>
                && tasks == old(tasks)[t := old(tasks[t]).(mutexesHeld := old(tasks[t]).mutexesHeld + 1)]
                && mutexes == old(mutexes)[m := old(mutexes[m]).(count := 0, holder := Some(t))]
                && since == old(since)[m := {}]
      ensures !taken ==> tasks == old(tasks) && mutexes == old(mutexes) && since == old(since)
      ensures old(Inherits()) && !Waits(old(mutexes), t) ==> Inherits()
    {
      hide HeldOk, UnboostedOk, Inheriting;
      ghost var ts, ms, blocked := tasks, mutexes, since;
      taken := mutexes[m].count > 0;
      if taken {
        mutexes := mutexes[m := mutexes[m].(count := mutexes[m].count - 1, holder := Some(t))];
        tasks := tasks[t := tasks[t].(mutexesHeld := tasks[t].mutexesHeld + 1)];
        since := since[m := {}];
        TakeAccounts(ts, ms, t, m, tasks[t], mutexes[m]);
        if Inheriting(ts, ms, blocked) && !Waits(ms, t) {
          TakeInherits(ts, ms, blocked, t, m, tasks[t], mutexes[m]);
        }
      }
    }

    /**
      The suspended-scheduler window of xQueueSemaphoreTake, when the mutex is still held:
      xTaskPriorityInherit, whose result is returned, and vTaskPlaceOnEventList.
     */
    method Block(t: Task, m: MutexId) returns (inheritanceOccurred: bool)
      requires Valid() && t in tasks && m in mutexes && mutexes[m].count == 0
      modifies this
      ensures Valid() && old(mutexes[m]).holder.Some?
      ensures var h := old(mutexes[m]).holder.value;
              && h in old(tasks) && tasks == old(tasks)[h := Inherit(old(tasks)[h], old(tasks)[t].priority)]
              && since == old(since)[m := old(since)[m] + {t}]
              && tasks[h].priority >= old(tasks)[t].priority
              && tasks[h].priority == (if old(tasks)[h].priority < old(tasks)[t].priority then old(tasks)[t].priority
                                       else old(tasks)[h].priority)
              && tasks[h].basePriority == old(tasks)[h].basePriority && tasks[h].mutexesHeld == old(tasks)[h].mutexesHeld
              && (inheritanceOccurred <==> old(tasks)[h].priority < old(tasks)[t].priority
                                           || old(tasks)[h].basePriority < old(tasks)[t].priority)
      ensures var l := old(mutexes[m]).waiters;
              mutexes == old(mutexes)[m := old(mutexes[m]).(waiters :=
                           Put(l, SortedPosition(EventValues(tasks, l), tasks[t].eventValue), t))]
      // Behind the waiters whose event value is not greater, before the first whose value is.
      ensures var l := old(mutexes[m]).waiters;
              exists k :: 0 <= k <= |l| && m in mutexes && mutexes[m].waiters == Put(l, k, t)
                          && (forall i :: 0 <= i < k && l[i] in tasks ==> tasks[l[i]].eventValue <= tasks[t].eventValue)
                          && (k < |l| && l[k] in tasks ==> tasks[l[k]].eventValue > tasks[t].eventValue)
      ensures old(Inherits()) && !Waits(old(mutexes), t) && PlainWaiter(old(tasks), t) ==> Inherits()
      // Whatever the waiters hold: the exact condition for the promise of inheritance alone.
      ensures var h := old(mutexes[m]).holder.value;
              old(Promise(tasks, mutexes, since)) ==>
                (Promise(tasks, mutexes, since) <==>
                   || old(tasks)[h].priority >= old(tasks)[t].priority
                   || ChainServed(old(tasks), old(mutexes), old(since), h, old(tasks)[t].priority))
      ensures old(NeverBelowBase(tasks)) ==> NeverBelowBase(tasks)
    {
      hide HeldOk, UnboostedOk, Inheriting, EventValues, SortedPosition, Put, Inherit, Promise, ChainServed;
      ghost var ts, ms, blocked := tasks, mutexes, since;
      var h, priority := mutexes[m].holder.value, tasks[t].priority;
      InheritRaises(tasks[h], priority);
      if tasks[h].priority < priority {
        tasks := tasks[h := Inherit(tasks[h], priority)];
        inheritanceOccurred := true;
      } else {
        inheritanceOccurred := tasks[h].basePriority < priority;
      }
      assert tasks == ts[h := Inherit(ts[h], priority)];
      var l := mutexes[m].waiters;
      var k := SortedPosition(EventValues(tasks, l), tasks[t].eventValue);
      WaiterPlace(tasks, l, t);
      mutexes := mutexes[m := mutexes[m].(waiters := Put(l, k, t))];
      since := since[m := since[m] + {t}];
      BlockAccounts(ts, ms, h, m, tasks[h], mutexes[m]);
      if Promise(ts, ms, blocked) {
        BlockKeepsPromiseIff(ts, ms, blocked, t, h, m, k);
      }
      if Inheriting(ts, ms, blocked) && !Waits(ms, t) && PlainWaiter(ts, t) {
        NotItself(ts, ms, t, h, m);
        BlockInherits(ts, ms, blocked, t, h, m, mutexes[m]);
      }
    }

    /** A tick, or a suspension, takes the waiting task off the list. */
    method StopWaiting(t: Task, m: MutexId)
      requires Valid() && m in mutexes
      modifies this
      ensures Valid() && tasks == old(tasks)
      ensures mutexes == old(mutexes)[m := old(mutexes[m]).(waiters := Without(old(mutexes[m]).waiters, t))]
      ensures since == old(since)[m := old(since)[m] - {t}]
      ensures old(Inherits()) ==> Inherits()
    {
      hide Accounting, Inheriting;
      ghost var ms, blocked := mutexes, since;
      mutexes := mutexes[m := mutexes[m].(waiters := Without(mutexes[m].waiters, t))];
      since := since[m := since[m] - {t}];
      SameHolders(tasks, ms, m, mutexes[m]);
      if Inheriting(tasks, ms, blocked) {
        LeaveInherits(tasks, ms, blocked, m, mutexes[m], t);
      }
    }

    /**
      The last critical section of a take that timed out after inheritance occurred.  By
      then the mutex may have another holder, or none.
     */
    method DisinheritAfterTakeTimeout(m: MutexId)
      requires Valid() && m in mutexes
      modifies `tasks
      ensures Valid()
      ensures mutexes[m].holder == None ==> tasks == old(tasks)
      ensures mutexes[m].holder.Some? ==>
                var h := mutexes[m].holder.value;
                && h in old(tasks) && old(tasks)[h].mutexesHeld > 0
                && tasks == old(tasks)[h := DisinheritAfterTimeout(old(tasks)[h],
                                                HighestWaiting(old(tasks), mutexes[m].waiters))]
                && tasks[h].basePriority == old(tasks)[h].basePriority
                && (old(tasks)[h].mutexesHeld != 1 ==> tasks[h].priority == old(tasks)[h].priority)
                && (old(tasks)[h].mutexesHeld == 1 && mutexes[m].waiters == [] ==> tasks[h].priority == tasks[h].basePriority)
                && (forall u :: u in tasks && u != h ==> tasks[u] == old(tasks)[u])
      // With one mutex held, the highest of the base priority and the priorities of those who still wait.
      ensures old(Inherits()) && mutexes[m].holder.Some? && old(tasks)[mutexes[m].holder.value].mutexesHeld == 1 ==>
                var h := mutexes[m].holder.value;
                && tasks[h].priority >= tasks[h].basePriority
                && (forall w :: w in mutexes[m].waiters ==> w in tasks && tasks[w].priority <= tasks[h].priority)
                && (tasks[h].priority == tasks[h].basePriority
                    || exists w :: w in mutexes[m].waiters && w in tasks && tasks[w].priority == tasks[h].priority)
      ensures old(Inherits()) ==> Inherits()
      ensures old(NeverBelowBase(tasks)) ==> NeverBelowBase(tasks)
    {
      hide UnboostedOk, HeldBy, Inheriting, HighestWaiting;
      ghost var ts := tasks;
      var highest := HighestWaiting(tasks, mutexes[m].waiters);
      if mutexes[m].holder.Some? {
        var h := mutexes[m].holder.value;
        HoldsSome(mutexes, m, h);
        tasks := tasks[h := DisinheritAfterTimeout(tasks[h], highest)];
        TimeoutAccounts(ts, mutexes, h, tasks[h]);
        TimeoutPriority(ts, h, mutexes[m].waiters);
        if Inheriting(ts, mutexes, since) {
          HolderWaitsNot(ts, mutexes, since, h);
          if ts[h].mutexesHeld == 1 {
            TimeoutServes(ts, mutexes, since, m, h, tasks[h]);
          }
          if tasks[h] == ts[h] {
            assert tasks == ts;
          } else {
            LoweredInherits(ts, mutexes, since, m, h, tasks[h]);
          }
        }
      }
    }

    /** xQueueGenericSend on a mutex by its holder: disinherit, release, wake the first waiter. */
    method Give(t: Task, m: MutexId) returns (yieldRequired: bool)
      requires Valid() && m in mutexes && mutexes[m].holder == Some(t)
      modifies this
      ensures Valid() && t in old(tasks) && old(tasks)[t].mutexesHeld > 0
      ensures tasks == old(tasks)[t := Disinherit(old(tasks)[t])]
      ensures mutexes == old(mutexes)[m := old(mutexes[m]).(count := 1, holder := None,
                           waiters := if old(mutexes[m]).waiters == [] then [] else Drop(old(mutexes[m]).waiters, 0))]
      ensures since == old(since)[m := {}]
      ensures t in tasks && tasks[t].basePriority == old(tasks)[t].basePriority
      ensures tasks[t].mutexesHeld == old(tasks)[t].mutexesHeld - 1
      ensures tasks[t].priority == if old(tasks)[t].mutexesHeld == 1 then tasks[t].basePriority else old(tasks)[t].priority
      ensures yieldRequired <==> old(tasks)[t].mutexesHeld == 1 && old(tasks)[t].priority != old(tasks)[t].basePriority
      // The waiter that leaves has the highest priority of them all.
      ensures old(Inherits()) ==>
                forall w :: w in old(mutexes[m]).waiters ==>
                  w in old(tasks) && old(mutexes[m]).waiters[0] in old(tasks)
                  && old(tasks)[w].priority <= old(tasks)[old(mutexes[m]).waiters[0]].priority
      ensures old(Inherits()) && !Waits(old(mutexes), t) ==> Inherits()
      ensures old(NeverBelowBase(tasks)) ==> NeverBelowBase(tasks)
    {
      hide HeldOk, UnboostedOk, Inheriting, Drop;
      if Inherits() {
        FirstIsHighest(tasks, mutexes, since, m);
      }
      ghost var ts, ms, blocked := tasks, mutexes, since;
      GiveAccounts(ts, ms, t, m, ms[m].(count := 1, holder := None,
                   waiters := if ms[m].waiters == [] then [] else Drop(ms[m].waiters, 0)));
      yieldRequired := tasks[t].priority != tasks[t].basePriority && tasks[t].mutexesHeld - 1 == 0;
      tasks := tasks[t := Disinherit(tasks[t])];
      var waiters := mutexes[m].waiters;
      if waiters != [] {
        waiters := Drop(waiters, 0);
      }
      mutexes := mutexes[m := mutexes[m].(count := mutexes[m].count + 1, holder := None, waiters := waiters)];
      since := since[m := {}];
      if Inheriting(ts, ms, blocked) && !Waits(ms, t) {
        GiveInherits(ts, ms, blocked, t, m, mutexes[m]);
      }
    }

    /** vTaskPrioritySet.  A base priority above the inherited one is possible, and only like this. */
    method PrioritySet(t: Task, newPriority: nat)
      requires Valid() && t in tasks
      modifies `tasks
      ensures Valid() && tasks == old(tasks)[t := SetPriority(old(tasks)[t], newPriority)]
      ensures tasks[t].basePriority == newPriority && tasks[t].mutexesHeld == old(tasks)[t].mutexesHeld
      ensures tasks[t].priority == if old(tasks)[t].priority == old(tasks)[t].basePriority then newPriority
                                   else old(tasks)[t].priority
      ensures old(NeverBelowBase(tasks)) ==>
                (NeverBelowBase(tasks) <==>
                   !(old(tasks)[t].priority > old(tasks)[t].basePriority && newPriority > old(tasks)[t].priority))
      ensures old(Inherits()) && old(tasks)[t].mutexesHeld == 0 && !Waits(mutexes, t) ==> Inherits()
      // Whatever the task holds or waits for: the exact condition for the promise of inheritance alone.
      ensures var p := SetPriority(old(tasks)[t], newPriority).priority;
              old(Promise(tasks, mutexes, since)) ==>
                (Promise(tasks, mutexes, since) <==>
                   if p >= old(tasks)[t].priority then ChainServed(old(tasks), mutexes, since, t, p)
                   else WaitersServed(old(tasks), mutexes, since, t, p))
    {
      hide Inheriting, HeldBy, Promise, ChainServed, WaitersServed;
      ghost var ts := tasks;
      tasks := tasks[t := SetPriority(tasks[t], newPriority)];
      if Inheriting(ts, mutexes, since) && ts[t].mutexesHeld == 0 && !Waits(mutexes, t) {
        UninvolvedInherits(ts, mutexes, since, t, tasks[t]);
      }
      if Promise(ts, mutexes, since) {
        PriorityKeepsPromiseIff(ts, mutexes, since, t, tasks[t]);
      }
    }

    /**
      Any calls, one after the other, up to the first that is no plain one: the accounting and
      the promise hold in every state on the way, as they do after every shorter series.
     */
    method Run(calls: seq<Call>) returns (made: nat)
      requires Valid() && Inherits()
      modifies this
      ensures Valid() && Inherits() && made <= |calls|
      ensures made < |calls| ==> !PlainCall(tasks, mutexes, calls[made])
      ensures forall m, w :: m in mutexes && mutexes[m].holder.Some? && w in since[m] && w in mutexes[m].waiters ==>
                w in tasks && mutexes[m].holder.value in tasks
                && tasks[mutexes[m].holder.value].priority >= tasks[w].priority
    {
      hide Accounting, Inheriting, Waits, PlainWaiter, NeverBelowBase, Promise, ChainServed, WaitersServed;
      made := 0;
      while made < |calls| && PlainCall(tasks, mutexes, calls[made])
        invariant Valid() && Inherits() && made <= |calls|
      {
        MakeCall(calls[made]);
        made := made + 1;
      }
      forall m, w | m in mutexes && mutexes[m].holder.Some? && w in since[m] && w in mutexes[m].waiters
        ensures w in tasks && mutexes[m].holder.value in tasks
        ensures tasks[mutexes[m].holder.value].priority >= tasks[w].priority
      {
        HolderServesWaiters(m, w);
      }
    }

    method MakeCall(c: Call)
      requires Valid() && Inherits() && PlainCall(tasks, mutexes, c)
      modifies this
      ensures Valid() && Inherits()
    {
      hide Accounting, Inheriting, Waits, PlainWaiter, NeverBelowBase, Promise, ChainServed, WaitersServed;
      match c {
        case Create(m) => CreateMutex(m);
        case TakeOrWait(t, m, mayBlock) =>
          var taken := Take(t, m);
          if !taken && mayBlock {
            HeldMeansTaken(tasks, mutexes, m);
            var _ := Block(t, m);
          }
        case GiveUp(t, m) => StopWaiting(t, m);
        case TimedOut(m) => DisinheritAfterTakeTimeout(m);
        case GiveBack(t, m) => var _ := Give(t, m);
        case SetTaskPriority(t, p) => PrioritySet(t, p);
      }
    }

    /** In every reachable state a holder runs no lower than whoever blocked during its hold and still waits. */
    lemma HolderServesWaiters(m: MutexId, w: Task)
      requires Valid() && Inherits() && m in mutexes && mutexes[m].holder.Some?
      requires w in since[m] && w in mutexes[m].waiters
      ensures mutexes[m].holder.value in tasks && w in tasks
      ensures tasks[mutexes[m].holder.value].priority >= tasks[w].priority
    {
      assert WaitersOk(tasks, mutexes[m].waiters) && Boosted(tasks, mutexes[m], since[m]);
      assert PlainWaiter(tasks, w);
    }

    // ------------------------------------------------------------ recursive mutexes

    /** A mutex used only through the recursive calls counts its holder's unmatched takes. */
    ghost predicate Recursive(m: MutexId)
      requires m in mutexes
      reads this
    {
      mutexes[m].holder.Some? <==> mutexes[m].recursiveCalls > 0
    }

    /**
      xQueueTakeMutexRecursive.  A task that may wait and does not get the mutex blocks, and
      calls again when it is woken or times out; the call is counted when it gets the mutex.
     */
    method TakeRecursive(t: Task, m: MutexId, mayBlock: bool) returns (taken: bool)
      requires Valid() && t in tasks && m in mutexes && Recursive(m)
      modifies this
      ensures Valid() && tasks.Keys == old(tasks.Keys) && mutexes.Keys == old(mutexes.Keys) && Recursive(m)
      ensures taken <==> old(mutexes[m]).holder == None || old(mutexes[m]).holder == Some(t)
      ensures taken ==>
                && mutexes[m].holder == Some(t) && mutexes[m].recursiveCalls == old(mutexes[m]).recursiveCalls + 1
                && mutexes[m].waiters == old(mutexes[m]).waiters
      ensures !taken ==>
                && mutexes[m].holder == old(mutexes[m]).holder && mutexes[m].holder.Some?
                && mutexes[m].recursiveCalls == old(mutexes[m]).recursiveCalls
                && (mayBlock ==> t in mutexes[m].waiters && mutexes[m].holder.value in tasks
                                 && tasks[mutexes[m].holder.value].priority >= old(tasks)[t].priority)
      ensures !taken && !mayBlock ==> tasks == old(tasks) && mutexes == old(mutexes)
      ensures forall n :: n in mutexes && n != m ==> mutexes[n] == old(mutexes)[n]
      ensures old(Inherits()) && !Waits(old(mutexes), t) && (taken || !mayBlock || PlainWaiter(old(tasks), t)) ==> Inherits()
    {
      hide Accounting, Inheriting, Waits, Put, SortedPosition, EventValues, Inherit, Promise, ChainServed, NeverBelowBase;
      if mutexes[m].holder == Some(t) {
        CountCall(m, mutexes[m].recursiveCalls + 1);
        taken := true;
      } else {
        taken := Take(t, m);
        if taken {
          CountCall(m, mutexes[m].recursiveCalls + 1);
        } else if mayBlock {
          HeldMeansTaken(tasks, mutexes, m);
          ghost var l := mutexes[m].waiters;
          var _ := Block(t, m);
          PutMembers(l, SortedPosition(EventValues(tasks, l), tasks[t].eventValue), t);
        }
      }
    }

    /** Only the holder touches uxRecursiveCallCount, and nothing else depends on it. */
    method CountCall(m: MutexId, calls: nat)
      requires Valid() && m in mutexes
      modifies `mutexes
      ensures Valid() && mutexes == old(mutexes)[m := old(mutexes[m]).(recursiveCalls := calls)]
      ensures old(Inherits()) ==> Inherits()
    {
      ghost var ms := mutexes;
      mutexes := mutexes[m := mutexes[m].(recursiveCalls := calls)];
      SameHolders(tasks, ms, m, mutexes[m]);
      hide Accounting, WaitersOk, HeldBy;
      assert Inheriting(tasks, ms, since) ==> Boosted(tasks, ms[m], since[m]);
    }

    /** xQueueGiveMutexRecursive: the mutex is released by the give that matches the first take. */
    method GiveRecursive(t: Task, m: MutexId) returns (given: bool)
      requires Valid() && t in tasks && m in mutexes && Recursive(m)
      modifies this
      ensures Valid() && tasks.Keys == old(tasks.Keys) && mutexes.Keys == old(mutexes.Keys) && Recursive(m)
      ensures given <==> old(mutexes[m]).holder == Some(t)
      ensures given ==>
                && mutexes[m].recursiveCalls == old(mutexes[m]).recursiveCalls - 1
                && mutexes[m].holder == if old(mutexes[m]).recursiveCalls == 1 then None else Some(t)
      ensures forall n :: n in mutexes && n != m ==> mutexes[n] == old(mutexes)[n]
      ensures !given ==> tasks == old(tasks) && mutexes == old(mutexes)
      ensures old(Inherits()) && !Waits(old(mutexes), t) ==> Inherits()
    {
      hide Accounting, Inheriting;
      given := mutexes[m].holder == Some(t);
      if given {
        ghost var ms := mutexes;
        CountCall(m, mutexes[m].recursiveCalls - 1);
        SameWaits(ms, mutexes, t);
        if mutexes[m].recursiveCalls == 0 {
          var _ := Give(t, m);
        }
      }
    }

    /**
      Any series of takes and gives by one task: after each call the mutex is held, as held
      says, exactly while there are more takes than gives.
     */
    method NestedUse(t: Task, m: MutexId, takes: seq<bool>) returns (held: seq<bool>)
      requires Valid() && t in tasks && m in mutexes && Recursive(m) && mutexes[m].holder == None
      modifies this
      ensures Valid() && m in mutexes && |held| == |takes|
      ensures forall i :: 0 <= i < |takes| ==> (held[i] <==> Depth(takes, i + 1) > 0)
      ensures mutexes[m].recursiveCalls == Depth(takes, |takes|)
      ensures mutexes[m].holder == if Depth(takes, |takes|) > 0 then Some(t) else None
    {
      hide Accounting, Inheriting, Waits, PlainWaiter;
      held := [];
      var i := 0;
      while i < |takes|
        invariant i <= |takes| && |held| == i
        invariant Valid() && t in tasks && m in mutexes && Recursive(m)
        invariant mutexes[m].recursiveCalls == Depth(takes, i)
        invariant mutexes[m].holder == if Depth(takes, i) > 0 then Some(t) else None
        invariant forall j :: 0 <= j < i ==> (held[j] <==> Depth(takes, j + 1) > 0)
      {
        if takes[i] {
          var _ := TakeRecursive(t, m, false);
        } else {
          var _ := GiveRecursive(t, m);
        }
        held := held + [mutexes[m].holder == Some(t)];
        i := i + 1;
      }
    }

    // ------------------------------------------------------------ what inheritance does not do

    /**
      Inheritance stops after one step: if high waits for a mutex of mid, and mid for one of
      low, then mid runs at the priority of high, but low only at that mid had before.
     */
    method ChainOfTwo(low: Task, mid: Task, high: Task, a: MutexId, b: MutexId)
      requires Valid() && a in mutexes && b in mutexes && a != b
      requires low in tasks && mid in tasks && high in tasks
      requires tasks[low].priority < tasks[mid].priority < tasks[high].priority
      requires mutexes[a] == Mutex(1, None, 0, []) == mutexes[b]
      modifies this
      ensures Valid() && low in tasks && mid in tasks && high in tasks && a in mutexes && b in mutexes
      ensures mutexes[a].holder == Some(low) && mutexes[a].waiters == [mid]
      ensures mutexes[b].holder == Some(mid) && mutexes[b].waiters == [high]
      ensures tasks[low].priority == old(tasks[mid]).priority < tasks[mid].priority == tasks[high].priority
      ensures !Promise(tasks, mutexes, since)
    {
      hide Accounting, Inheriting, Waits, EventValues, ChainServed, NeverBelowBase, PlainWaiter;
      var _ := Take(low, a);
      var _ := Take(mid, b);
      var _ := Block(mid, a);
      var _ := Block(high, b);
      assert SortedPosition(EventValues(tasks, []), tasks[mid].eventValue) == 0;
      assert mutexes[a].waiters == [mid] && mid in since[a];
      assert !Boosted(tasks, mutexes[a], since[a]);
    }

    /**
      Low holds a and b, and runs at the priority of high, which waits for a.  It gives a to
      high and then b to other, which is no higher than it: low is back at its base priority,
      and high, which waits for nothing any more, is above it.
     */
    method GivesOutOfOrder(low: Task, other: Task, high: Task, a: MutexId, b: MutexId) returns (first: bool, last: bool)
      requires Valid() && a in mutexes && b in mutexes && a != b
      requires low in tasks && other in tasks && high in tasks && low != other
      requires tasks[other].priority <= tasks[low].priority < tasks[high].priority
      requires tasks[low].mutexesHeld == 0 && mutexes[a] == Mutex(1, None, 0, []) == mutexes[b]
      modifies this
      ensures Valid() && low in tasks && high in tasks && a in mutexes && b in mutexes
      ensures mutexes[a].holder == mutexes[b].holder == None && mutexes[a].waiters == mutexes[b].waiters == []
      ensures !first && last && tasks[low].mutexesHeld == 0
      ensures tasks[low].priority == old(tasks)[low].priority < tasks[high].priority == old(tasks)[high].priority
      ensures other in tasks && tasks[other] == old(tasks)[other]
    {
      hide Accounting, Inheriting, Promise, ChainServed, NeverBelowBase, PlainWaiter;
      BoostedByOne(low, other, high, a, b);
      first := Give(low, a);
      last := Give(low, b);
    }

    method BoostedByOne(low: Task, other: Task, high: Task, a: MutexId, b: MutexId)
      requires Valid() && a in mutexes && b in mutexes && a != b
      requires low in tasks && other in tasks && high in tasks && low != other
      requires tasks[other].priority <= tasks[low].priority < tasks[high].priority
      requires tasks[low].mutexesHeld == 0 && mutexes[a] == Mutex(1, None, 0, []) == mutexes[b]
      modifies this
      ensures Valid() && low in tasks && a in mutexes && b in mutexes
      ensures mutexes[a].holder == mutexes[b].holder == Some(low)
      ensures mutexes[a].waiters == [high] && mutexes[b].waiters == [other]
      ensures tasks == old(tasks)[low := tasks[low]] && tasks[low].mutexesHeld == 2
      ensures tasks[low].basePriority == old(tasks)[low].priority && tasks[low].priority == tasks[high].priority
    {
      hide Accounting, Inheriting, Waits, EventValues, Promise, ChainServed, NeverBelowBase, PlainWaiter;
      AtBase(tasks, mutexes, low);
      var _ := Take(low, a);
      var _ := Take(low, b);
      var _ := Block(other, b);
      var _ := Block(high, a);
      assert SortedPosition(EventValues(tasks, []), tasks[high].eventValue) == 0;
      assert SortedPosition(EventValues(tasks, []), tasks[other].eventValue) == 0;
    }
  }

  lemma InheritRaises(holder: Tcb, priority: nat)
    ensures var r := Inherit(holder, priority);
            && r.priority >= priority && r.priority >= holder.priority && r.mutexesHeld == holder.mutexesHeld
            && r.priority == (if holder.priority < priority then priority else holder.priority)
            && r.basePriority == holder.basePriority && (holder.priority >= priority ==> r == holder)
  {
  }

  lemma NotItself(ts: Tasks, ms: Table, t: Task, h: Task, m: MutexId)
    requires Accounting(ts, ms) && PlainWaiter(ts, t) && m in ms && ms[m].holder == Some(h) && h in ts
    ensures t != h
  {
    HoldsSome(ms, m, h);
  }

  lemma TimeoutAccounts(ts: Tasks, ms: Table, h: Task, tcb: Tcb)
    requires Accounting(ts, ms) && h in ts && ts[h].mutexesHeld > 0 && tcb.mutexesHeld == ts[h].mutexesHeld
    ensures Accounting(ts[h := tcb], ms)
  {
    hide HeldBy;
  }

  lemma AtBase(ts: Tasks, ms: Table, t: Task)
    requires Accounting(ts, ms) && t in ts && ts[t].mutexesHeld == 0
    ensures ts[t].priority == ts[t].basePriority
  {
  }

  lemma FirstIsHighest(ts: Tasks, ms: Table, since: Since, m: MutexId)
    requires Inheriting(ts, ms, since) && m in ms
    ensures var l := ms[m].waiters;
            forall w :: w in l ==> w in ts && l[0] in ts && ts[w].priority <= ts[l[0]].priority
  {
    var l := ms[m].waiters;
    assert WaitersOk(ts, l);
    forall w | w in l
      ensures w in ts && l[0] in ts && ts[w].priority <= ts[l[0]].priority
    {
      HeadIsHighest(ts, l, w);
      assert l[0] in l && PlainWaiter(ts, l[0]);
    }
  }

  lemma WaiterPlace(ts: Tasks, l: seq<Task>, t: Task)
    requires t in ts
    ensures var k := SortedPosition(EventValues(ts, l), ts[t].eventValue);
            && k <= |l| && (forall i :: 0 <= i < k && l[i] in ts ==> ts[l[i]].eventValue <= ts[t].eventValue)
            && (k < |l| && l[k] in ts ==> ts[l[k]].eventValue > ts[t].eventValue)
  {
    var keys := EventValues(ts, l);
    forall i | 0 <= i < |l| && l[i] in ts
      ensures keys[i] == ts[l[i]].eventValue
    {
    }
  }

  lemma HeldMeansTaken(ts: Tasks, ms: Table, m: MutexId)
    requires Accounting(ts, ms) && m in ms && ms[m].holder.Some?
    ensures ms[m].count == 0
  {
  }

  /** Takes less gives among the first n calls, where a give without a take counts for nothing. */
  function Depth(takes: seq<bool>, n: nat): nat
    requires n <= |takes|
  {
    if n == 0 then 0
    else
      var d := Depth(takes, n - 1);
      if takes[n - 1] then d + 1 else if d > 0 then d - 1 else 0
  }

  lemma SameWaits(a: Table, b: Table, t: Task)
    requires forall m :: m in a <==> m in b
    requires forall m :: m in a ==> a[m].waiters == b[m].waiters
    ensures Waits(a, t) == Waits(b, t)
  {
  }
}
