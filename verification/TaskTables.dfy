/**
  The kernel's task lists and control blocks (tasks.c) as one value.  A task owns
  two list items: the state item is on a ready, delayed, suspended or termination
  list, the event item on the list of a kernel object or on the pending-ready list.
 */
module TaskTables {
  import opened KernelConfig
  import opened ListViews

  /** A task handle. */
  type Task = nat

  datatype ListId =
    | Ready(priority: nat)
    | DelayedA
    | DelayedB
    | Suspended
    | Termination
    | PendingReady
    | Event(object: nat)

  predicate IsStateList(l: ListId) {
    !l.PendingReady? && !l.Event?
  }

  /** The fields of a TCB that the lists and the priorities depend on. */
  datatype Tcb = Tcb(
    priority: nat,
    basePriority: nat,
    mutexesHeld: nat,
    wakeValue: TickType,
    stateList: Option<ListId>,
    eventValue: TickType,
    eventList: Option<ListId>)
  {
    /** pxContainer of the item that belongs on lists of l's kind. */
    function Container(l: ListId): Option<ListId> {
      if IsStateList(l) then stateList else eventList
    }

    function SetContainer(l: ListId, c: Option<ListId>): Tcb {
      if IsStateList(l) then this.(stateList := c) else this.(eventList := c)
    }
  }

  datatype Db = Db(lists: map<ListId, View<Task>>, tasks: map<Task, Tcb>) {
    function L(l: ListId): View<Task> {
      if l in lists then lists[l] else Empty()
    }

    /** uxListRemove of the item of t that is on l. */
    function Detach(l: ListId, t: Task): Db
      requires t in tasks
    {
      Db(lists[l := RemoveIfIn(L(l), t)], tasks[t := tasks[t].SetContainer(l, None)])
    }

    function Attach(l: ListId, k: nat, t: Task): Db
      requires t in tasks && k <= |L(l).items|
    {
      Db(lists[l := InsertAt(L(l), k, t)], tasks[t := tasks[t].SetContainer(l, Some(l))])
    }

    /** vListInsertEnd */
    function AttachEnd(l: ListId, t: Task): (d: Db)
      requires t in tasks
      ensures d.tasks.Keys == tasks.Keys && d.tasks[t].priority == tasks[t].priority
    {
      Attach(l, EndPosition(L(l)), t)
    }

    /** uxListRemove of the state item. */
    function DetachState(t: Task): (d: Db)
      requires t in tasks
      ensures d.tasks.Keys == tasks.Keys && d.tasks[t].priority == tasks[t].priority
    {
      if tasks[t].stateList.Some? then Detach(tasks[t].stateList.value, t) else this
    }

    /** uxListRemove of the event item, done only if it is on a list. */
    function DetachEvent(t: Task): (d: Db)
      requires t in tasks
      ensures d.tasks.Keys == tasks.Keys && d.tasks[t].priority == tasks[t].priority
    {
      if tasks[t].eventList.Some? then Detach(tasks[t].eventList.value, t) else this
    }

    function SetTask(t: Task, tcb: Tcb): (d: Db)
      ensures t in d.tasks && d.tasks[t].priority == tcb.priority
    {
      Db(lists, tasks[t := tcb])
    }

    /** The control block is freed. */
    function Forget(t: Task): Db {
      Db(lists, tasks - {t})
    }

    /** pxContainer and list contents agree in both directions; no list holds an item twice. */
    ghost predicate Consistent() {
      && (forall l :: WellFormed(L(l)))
      && (forall l, t :: t in L(l).items ==> t in tasks && tasks[t].Container(l) == Some(l))
      && (forall t :: t in tasks ==> Contained(t))
    }

    ghost predicate Contained(t: Task)
      requires t in tasks
    {
      && (tasks[t].stateList.Some? ==> IsStateList(tasks[t].stateList.value) && t in L(tasks[t].stateList.value).items)
      && (tasks[t].eventList.Some? ==> !IsStateList(tasks[t].eventList.value) && t in L(tasks[t].eventList.value).items)
    }

    lemma DetachConsistent(l: ListId, t: Task)
      requires Consistent() && t in L(l).items
      ensures t in tasks && Detach(l, t).Consistent()
    {
      var d := Detach(l, t);
      DropNoDuplicates(L(l).items, PositionOf(L(l).items, t));
      forall m
        ensures WellFormed(d.L(m))
      {
        assert WellFormed(L(m));
      }
      forall m, u | u in d.L(m).items
        ensures u in d.tasks && d.tasks[u].Container(m) == Some(m)
      {
        assert u in L(m).items;
      }
      forall u | u in d.tasks
        ensures d.Contained(u)
      {
        assert Contained(u);
      }
    }

    lemma AttachConsistent(l: ListId, k: nat, t: Task)
      requires Consistent() && t in tasks && k <= |L(l).items| && tasks[t].Container(l) == None
      ensures Attach(l, k, t).Consistent()
    {
      var d := Attach(l, k, t);
      assert WellFormed(L(l));
      PutNoDuplicates(L(l).items, k, t);
      forall m
        ensures WellFormed(d.L(m))
      {
        assert WellFormed(L(m));
      }
      forall m, u | u in d.L(m).items
        ensures u in d.tasks && d.tasks[u].Container(m) == Some(m)
      {
        assert u in L(m).items || (m == l && u == t);
      }
      forall u | u in d.tasks
        ensures d.Contained(u)
      {
        assert Contained(u);
      }
    }

    // ------------------------------------------------------------ moving a task

    /** after is this with t at the end of the state list dest and its event item on no list. */
    ghost predicate Relocated(t: Task, dest: ListId, after: Db) {
      && t in tasks && IsStateList(dest)
      && after.tasks == tasks[t := tasks[t].(stateList := Some(dest), eventList := None)]
      && (forall l :: l != dest ==> after.L(l) == RemoveIfIn(L(l), t))
      && after.L(dest) == InsertEnd(RemoveIfIn(L(dest), t), t)
    }

    lemma DetachStateConsistent(t: Task)
      requires Consistent() && t in tasks
      ensures DetachState(t).Consistent()
      ensures DetachState(t).tasks == tasks[t := tasks[t].(stateList := None)]
      ensures forall l :: DetachState(t).L(l) == if IsStateList(l) then RemoveIfIn(L(l), t) else L(l)
    {
      assert Contained(t);
      if tasks[t].stateList.Some? {
        DetachConsistent(tasks[t].stateList.value, t);
      }
    }

    lemma DetachEventConsistent(t: Task)
      requires Consistent() && t in tasks
      ensures DetachEvent(t).Consistent()
      ensures DetachEvent(t).tasks == tasks[t := tasks[t].(eventList := None)]
      ensures forall l :: DetachEvent(t).L(l) == if IsStateList(l) then L(l) else RemoveIfIn(L(l), t)
    {
      assert Contained(t);
      if tasks[t].eventList.Some? {
        DetachConsistent(tasks[t].eventList.value, t);
      }
    }

    /** Off both lists in either order, then onto the end of a state list. */
    lemma RelocateStateFirst(t: Task, dest: ListId)
      requires Consistent() && t in tasks && IsStateList(dest)
      ensures var after := DetachState(t).DetachEvent(t).AttachEnd(dest, t);
              after.Consistent() && Relocated(t, dest, after)
    {
      var d := DetachState(t);
      DetachStateConsistent(t);
      d.DetachEventConsistent(t);
      d.DetachEvent(t).AttachConsistent(dest, EndPosition(d.DetachEvent(t).L(dest)), t);
    }

    lemma RelocateEventFirst(t: Task, dest: ListId)
      requires Consistent() && t in tasks && IsStateList(dest)
      ensures var after := DetachEvent(t).DetachState(t).AttachEnd(dest, t);
              after.Consistent() && Relocated(t, dest, after)
    {
      var d := DetachEvent(t);
      DetachEventConsistent(t);
      d.DetachStateConsistent(t);
      d.DetachState(t).AttachConsistent(dest, EndPosition(d.DetachState(t).L(dest)), t);
    }

    /** With the same lists the tables stay consistent if each control block that differs is on the same lists, or on none. */
    lemma SameListsConsistent(after: Db)
      requires Consistent() && after.lists == lists
      requires forall t :: t in tasks && !SameContainers(t, after) ==> OffLists(t)
      requires forall t :: t in after.tasks && !after.SameContainers(t, this) ==> after.OffLists(t)
      ensures after.Consistent()
    {
      forall m
        ensures WellFormed(after.L(m))
      {
        assert WellFormed(L(m));
      }
      forall m, u | u in after.L(m).items
        ensures u in after.tasks && after.tasks[u].Container(m) == Some(m)
      {
        assert u in L(m).items;
        assert SameContainers(u, after);
      }
      forall u | u in after.tasks
        ensures after.Contained(u)
      {
        if u in tasks {
          assert Contained(u);
        }
      }
    }

    predicate OffLists(t: Task)
      requires t in tasks
    {
      tasks[t].stateList == None && tasks[t].eventList == None
    }

    predicate SameContainers(t: Task, other: Db)
      requires t in tasks
    {
      t in other.tasks && tasks[t].stateList == other.tasks[t].stateList && tasks[t].eventList == other.tasks[t].eventList
    }

    /** Changing numbers of a control block, not its containers, keeps the tables consistent. */
    lemma SetTaskConsistent(t: Task, tcb: Tcb)
      requires Consistent() && t in tasks
      requires tcb.stateList == tasks[t].stateList && tcb.eventList == tasks[t].eventList
      ensures SetTask(t, tcb).Consistent()
    {
      SameListsConsistent(SetTask(t, tcb));
    }

    /** A control block whose items are on no list can come and go. */
    lemma ForgetConsistent(t: Task)
      requires Consistent() && t in tasks && OffLists(t)
      ensures Forget(t).Consistent()
    {
      SameListsConsistent(Forget(t));
    }

    lemma NewTaskConsistent(t: Task, tcb: Tcb)
      requires Consistent() && t !in tasks && tcb.stateList == None && tcb.eventList == None
      ensures SetTask(t, tcb).Consistent()
    {
      SameListsConsistent(SetTask(t, tcb));
    }

    // ------------------------------------------------------------ counting

    function Length(l: ListId): nat {
      |L(l).items|
    }

    function ReadyLengths(n: nat): nat {
      if n == 0 then 0 else ReadyLengths(n - 1) + Length(Ready(n - 1))
    }

    /** Every task's state item is on one list, and on the ready list of its priority if it is ready. */
    ghost predicate Placed(priorities: nat) {
      && (forall t :: t in tasks ==> tasks[t].stateList.Some? && tasks[t].priority < priorities)
      && (forall t :: t in tasks && tasks[t].stateList.value.Ready? ==> tasks[t].stateList.value == Ready(tasks[t].priority))
    }

    ghost function On(l: ListId): set<Task> {
      set t | t in tasks && tasks[t].Container(l) == Some(l)
    }

    lemma {:induction false} CountNoDuplicates(s: seq<Task>, ts: set<Task>)
      requires NoDuplicates(s) && forall t :: t in s <==> t in ts
      ensures |s| == |ts|
    {
      if s == [] {
        assert ts == {};
      } else {
        var rest := ts - {s[0]};
        forall t
          ensures t in s[1..] <==> t in rest
        {
          if t in rest {
            var i :| 0 <= i < |s| && s[i] == t;
            assert s[1..][i - 1] == t;
          }
        }
        CountNoDuplicates(s[1..], rest);
      }
    }

    lemma ListCount(l: ListId)
      requires Consistent()
      ensures Length(l) == |On(l)|
    {
      assert WellFormed(L(l));
      forall t
        ensures t in L(l).items <==> t in On(l)
      {
        if t in On(l) {
          assert Contained(t);
        }
      }
      CountNoDuplicates(L(l).items, On(l));
    }

    lemma DisjointUnion(a: set<Task>, b: set<Task>, c: set<Task>)
      requires a !! b && (forall t :: t in c <==> t in a || t in b)
      ensures |c| == |a| + |b|
    {
      assert c == a + b;
    }

    ghost function ReadyBelow(n: nat): set<Task> {
      set t | t in tasks && tasks[t].stateList.Some? && tasks[t].stateList.value.Ready?
                && tasks[t].stateList.value.priority < n
    }

    lemma {:induction false} ReadyCount(n: nat)
      requires Consistent()
      ensures ReadyLengths(n) == |ReadyBelow(n)|
    {
      if n == 0 {
        assert ReadyBelow(0) == {};
      } else {
        ReadyCount(n - 1);
        ListCount(Ready(n - 1));
        DisjointUnion(ReadyBelow(n - 1), On(Ready(n - 1)), ReadyBelow(n));
      }
    }

    lemma StateSetsPartition(priorities: nat)
      requires Placed(priorities)
      requires forall t :: t in tasks ==> IsStateList(tasks[t].stateList.value)
      ensures |ReadyBelow(priorities)| + |On(DelayedA)| + |On(DelayedB)| + |On(Suspended)| + |On(Termination)| == |tasks|
    {
      var sleeping := set t | t in tasks && (tasks[t].stateList.value.DelayedA? || tasks[t].stateList.value.DelayedB?);
      var blocked := set t | t in tasks && (t in sleeping || tasks[t].stateList.value.Suspended?);
      var unready := set t | t in tasks && !tasks[t].stateList.value.Ready?;
      DisjointUnion(On(DelayedA), On(DelayedB), sleeping);
      DisjointUnion(sleeping, On(Suspended), blocked);
      DisjointUnion(blocked, On(Termination), unready);
      DisjointUnion(ReadyBelow(priorities), unready, tasks.Keys);
    }

    /** The lengths of the state lists add up to the number of tasks: the lists partition them. */
    lemma ListsPartitionTasks(priorities: nat)
      requires Consistent() && Placed(priorities)
      ensures ReadyLengths(priorities) + Length(DelayedA) + Length(DelayedB) + Length(Suspended) + Length(Termination)
           == |tasks|
    {
      ReadyCount(priorities);
      ListCount(DelayedA);
      ListCount(DelayedB);
      ListCount(Suspended);
      ListCount(Termination);
      forall t | t in tasks
        ensures IsStateList(tasks[t].stateList.value)
      {
        assert Contained(t);
      }
      StateSetsPartition(priorities);
    }
  }
}
