/**
  What the scheduler's lists and tick counter mean: time is a natural number that
  never wraps, and the sleeping tasks form one timeline ordered by wake time.
 */
module SleepModel {
  import opened ListViews
  import opened TaskTables

  datatype Status = Runnable | Timed(wake: nat) | Indefinite | Terminated

  datatype Sleeper = Sleeper(task: Task, wake: nat)

  datatype Model = Model(now: nat, timeline: seq<Sleeper>, status: map<Task, Status>, waits: map<Task, ListId>)

  function Wakes(ts: seq<Sleeper>): (w: seq<nat>)
    ensures |w| == |ts|
  {
    seq(|ts|, i requires 0 <= i < |ts| => ts[i].wake)
  }

  predicate IsTimed(m: Model, t: Task) {
    t in m.status && m.status[t].Timed?
  }

  predicate Due(status: map<Task, Status>, t: Task, now: nat) {
    t in status && status[t].Timed? && status[t].wake <= now
  }

  /** The timeline holds exactly the timed tasks, each once, in the order of their wake times. */
  ghost predicate Sound(m: Model) {
    NoDuplicates(m.timeline) && Sorted(Wakes(m.timeline)) && forall s :: s in m.timeline <==> Sleeps(m, s)
  }

  predicate Sleeps(m: Model, s: Sleeper) {
    s.task in m.status && m.status[s.task] == Timed(s.wake)
  }

  /** The task no longer sleeps nor waits for anything; its status becomes the one given. */
  function Leave(m: Model, t: Task, status: Status): Model {
    Model(m.now,
          if IsTimed(m, t) then Without(m.timeline, Sleeper(t, m.status[t].wake)) else m.timeline,
          m.status[t := status],
          m.waits - {t})
  }

  function Release(m: Model, t: Task): Model {
    Leave(m, t, Runnable)
  }

  function ReleaseAll(m: Model, ts: seq<Task>): Model
    decreases |ts|
  {
    if ts == [] then m else ReleaseAll(Release(m, ts[0]), Tail(ts, 1))
  }

  predicate HeadDue(m: Model) {
    m.timeline != [] && m.timeline[0].wake <= m.now
  }

  /** The sleepers that are still asleep after now. */
  function Later(ts: seq<Sleeper>, now: nat): seq<Sleeper> {
    Tail(ts, SortedPosition(Wakes(ts), now))
  }

  function StatusAt(status: map<Task, Status>, now: nat): map<Task, Status> {
    map t | t in status :: if Due(status, t, now) then Runnable else status[t]
  }

  function WaitsAt(waits: map<Task, ListId>, status: map<Task, Status>, now: nat): map<Task, ListId> {
    map t | t in waits && !Due(status, t, now) :: waits[t]
  }

  /** n ticks later: exactly the tasks whose wake time has come by then are runnable. */
  function Advance(m: Model, n: nat): Model {
    var now := m.now + n;
    Model(now, Later(m.timeline, now), StatusAt(m.status, now), WaitsAt(m.waits, m.status, now))
  }

  /** n tick interrupts are handled; without any, even a task due at once sleeps on. */
  function Ticks(m: Model, n: nat): Model {
    if n == 0 then m else Advance(m, n)
  }

  /** The task goes to sleep until wake, behind the tasks with an equal wake time. */
  function SleepUntil(m: Model, t: Task, wake: nat): Model {
    m.(timeline := Put(m.timeline, SortedPosition(Wakes(m.timeline), wake), Sleeper(t, wake)),
       status := m.status[t := Timed(wake)])
  }

  function SleepForever(m: Model, t: Task): Model {
    m.(status := m.status[t := Indefinite])
  }

  function WaitFor(m: Model, t: Task, l: ListId): Model {
    m.(waits := m.waits[t := l])
  }

  lemma SoundLeave(m: Model, t: Task, status: Status)
    requires Sound(m) && !status.Timed?
    ensures Sound(Leave(m, t, status))
  {
    var after := Leave(m, t, status);
    if IsTimed(m, t) {
      var s := Sleeper(t, m.status[t].wake);
      assert Sleeps(m, s);
      var k := PositionOf(m.timeline, s);
      DropNoDuplicates(m.timeline, k);
      assert Wakes(Drop(m.timeline, k)) == Drop(Wakes(m.timeline), k);
    }
    forall s
      ensures s in after.timeline <==> Sleeps(after, s)
    {
      assert s in m.timeline <==> Sleeps(m, s);
    }
  }

  lemma SoundSleep(m: Model, t: Task, wake: nat)
    requires Sound(m) && !IsTimed(m, t)
    ensures Sound(SleepUntil(m, t, wake))
  {
    var w, after, s := Wakes(m.timeline), SleepUntil(m, t, wake), Sleeper(t, wake);
    var k := SortedPosition(w, wake);
    assert !Sleeps(m, s);
    SortedInsertion(w, wake);
    PutNoDuplicates(m.timeline, k, s);
    assert Wakes(after.timeline) == Put(w, k, wake);
    forall r
      ensures r in after.timeline <==> Sleeps(after, r)
    {
      assert r in m.timeline <==> Sleeps(m, r);
    }
  }

  /** The cut of a sorted timeline keeps exactly the sleepers that are not due. */
  lemma LaterMembers(ts: seq<Sleeper>, now: nat)
    requires Sorted(Wakes(ts))
    ensures forall s :: s in Later(ts, now) <==> s in ts && now < s.wake
    ensures Wakes(Later(ts, now)) == Tail(Wakes(ts), SortedPosition(Wakes(ts), now))
    ensures Later(ts, now) != [] ==> now < Later(ts, now)[0].wake
  {
    var w := Wakes(ts);
    var k := SortedPosition(w, now);
    forall s | s in ts && now < s.wake
      ensures s in Later(ts, now)
    {
      var i :| 0 <= i < |ts| && ts[i] == s;
      assert w[i] == s.wake;
      assert Tail(ts, k)[i - k] == s;
    }
    forall s | s in Later(ts, now)
      ensures s in ts && now < s.wake
    {
      var i :| 0 <= i < |Tail(ts, k)| && Tail(ts, k)[i] == s;
      assert w[k] <= w[k + i];
    }
  }

  lemma SoundAdvance(m: Model, n: nat)
    requires Sound(m)
    ensures Sound(Advance(m, n)) && !HeadDue(Advance(m, n))
  {
    var after := Advance(m, n);
    LaterMembers(m.timeline, m.now + n);
    forall s
      ensures s in after.timeline <==> Sleeps(after, s)
    {
      assert s in m.timeline <==> Sleeps(m, s);
    }
  }

  lemma NoneDue(m: Model)
    requires Sound(m) && !HeadDue(m)
    ensures forall t :: !Due(m.status, t, m.now)
  {
    forall t | IsTimed(m, t)
      ensures m.now < m.status[t].wake
    {
      var s := Sleeper(t, m.status[t].wake);
      assert Sleeps(m, s);
      var i :| 0 <= i < |m.timeline| && m.timeline[i] == s;
      assert Wakes(m.timeline)[0] <= Wakes(m.timeline)[i];
    }
  }

  lemma AdvanceNoneDue(m: Model)
    requires Sound(m) && !HeadDue(m)
    ensures Advance(m, 0) == m
  {
    NoneDue(m);
    assert m.timeline != [] ==> Wakes(m.timeline)[0] == m.timeline[0].wake;
    assert Later(m.timeline, m.now) == m.timeline;
  }

  /** Releasing the head of the timeline when it is due is part of what the time brings anyway. */
  lemma AdvanceReleaseHead(m: Model)
    requires Sound(m) && HeadDue(m)
    ensures Sleeps(m, m.timeline[0])
    ensures Advance(Release(m, m.timeline[0].task), 0) == Advance(m, 0)
  {
    var s, ts := m.timeline[0], m.timeline;
    assert s in ts;
    var next := Release(m, s.task);
    var w := Wakes(ts);
    var k := SortedPosition(w, m.now);
    assert PositionOf(ts, s) == 0;
    assert next.timeline == Tail(ts, 1) && Wakes(Tail(ts, 1)) == Tail(w, 1);
    assert w[0] == s.wake;
    SortedPositionUnique(Tail(w, 1), m.now, k - 1);
    assert Tail(Tail(ts, 1), k - 1) == Tail(ts, k);
    forall u
      ensures Due(next.status, u, m.now) <==> Due(m.status, u, m.now) && u != s.task
    {
    }
  }

  lemma LaterTwice(ts: seq<Sleeper>, lo: nat, hi: nat)
    requires Sorted(Wakes(ts)) && lo <= hi
    ensures Later(Later(ts, lo), hi) == Later(ts, hi)
  {
    var w := Wakes(ts);
    var i, k := SortedPosition(w, lo), SortedPosition(w, hi);
    LaterMembers(ts, lo);
    SortedPositionSuffix(w, lo, hi);
    assert Tail(Tail(ts, i), k - i) == Tail(ts, k);
  }

  lemma StatusTwice(status: map<Task, Status>, waits: map<Task, ListId>, lo: nat, hi: nat)
    requires lo <= hi
    ensures StatusAt(StatusAt(status, lo), hi) == StatusAt(status, hi)
    ensures WaitsAt(WaitsAt(waits, status, lo), StatusAt(status, lo), hi) == WaitsAt(waits, status, hi)
  {
  }

  /** Taking the ticks one by one, in groups or all at once makes no difference. */
  lemma AdvanceCompose(m: Model, a: nat, b: nat)
    requires Sound(m)
    ensures Advance(Advance(m, a), b) == Advance(m, a + b)
  {
    hide Later, StatusAt, WaitsAt, Sorted, Wakes;
    var lo, hi := m.now + a, m.now + a + b;
    LaterTwice(m.timeline, lo, hi);
    StatusTwice(m.status, m.waits, lo, hi);
  }

  lemma OneMoreTick(m: Model, n: nat)
    requires Sound(m)
    ensures Ticks(m, n + 1) == Advance(Ticks(m, n), 1)
  {
    hide Advance, Sound;
    if n > 0 {
      AdvanceCompose(m, n, 1);
    }
  }

  lemma {:induction false} SoundReleaseAll(m: Model, ts: seq<Task>)
    requires Sound(m)
    ensures Sound(ReleaseAll(m, ts))
    decreases |ts|
  {
    if ts == [] {
    } else {
      SoundLeave(m, ts[0], Runnable);
      SoundReleaseAll(Release(m, ts[0]), Tail(ts, 1));
    }
  }
}
