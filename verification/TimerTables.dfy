/**
  The two lists of active timers (timers.c) as values, and what they mean in unbounded
  time: a timer on the current list expires in the epoch of the daemon's last sample of
  the tick count, one on the overflow list in the next epoch.
 */
module TimerTables {
  import opened KernelConfig
  import opened ListViews
  import opened Timeouts

  type TimerId = nat

  datatype Timer = Timer(period: TickType, autoReload: bool, active: bool, value: TickType)

  datatype Tables = Tables(timers: map<TimerId, Timer>, current: seq<TimerId>, overflow: seq<TimerId>) {
    predicate Listed(t: TimerId) {
      t in current || t in overflow
    }

    /** When t expires, in unbounded time. */
    function Expiry(epoch: nat, t: TimerId): Option<nat>
      requires t in timers
    {
      if t in current then Some(epoch * TICK_RANGE + timers[t].value)
      else if t in overflow then Some((epoch + 1) * TICK_RANGE + timers[t].value)
      else None
    }

    function SetTimer(t: TimerId, timer: Timer): Tables {
      this.(timers := timers[t := timer])
    }

    /** uxListRemove of the timer's list item. */
    function Unlisted(t: TimerId): Tables {
      this.(current := Without(current, t), overflow := Without(overflow, t))
    }

    function IntoCurrent(t: TimerId): Tables
      requires t in timers
    {
      this.(current := Put(current, SortedPosition(Values(timers, current), timers[t].value), t))
    }

    function IntoOverflow(t: TimerId): Tables
      requires t in timers
    {
      this.(overflow := Put(overflow, SortedPosition(Values(timers, overflow), timers[t].value), t))
    }
  }

  function Values(timers: map<TimerId, Timer>, l: seq<TimerId>): (r: seq<nat>)
    ensures |r| == |l|
  {
    seq(|l|, i requires 0 <= i < |l| => if l[i] in timers then timers[l[i]].value else 0)
  }

  ghost predicate GoodList(timers: map<TimerId, Timer>, l: seq<TimerId>) {
    NoDuplicates(l) && (forall t :: t in l ==> t in timers) && Sorted(Values(timers, l))
  }

  /** Both lists are sorted; no timer is listed twice; no period is zero. */
  ghost predicate Tidy(d: Tables) {
    && GoodList(d.timers, d.current) && GoodList(d.timers, d.overflow)
    && (forall t :: t in d.current ==> t !in d.overflow)
    && (forall t :: t in d.timers ==> d.timers[t].period > 0)
  }

  /** A timer is flagged active exactly when it is on a list, but for those in work. */
  ghost predicate ActiveIffListed(d: Tables, inWork: set<TimerId>) {
    forall t :: t in d.timers && t !in inWork ==> (d.timers[t].active <==> d.Listed(t))
  }

  /** Nothing about any other timer than t differs. */
  ghost predicate OthersKept(a: Tables, b: Tables, t: TimerId) {
    && (forall u :: u in a.timers && u != t ==> u in b.timers && b.timers[u] == a.timers[u])
    && (forall u :: u in b.timers && u != t ==> u in a.timers)
    && (forall u :: u != t ==> (u in b.current <==> u in a.current) && (u in b.overflow <==> u in a.overflow))
  }

  lemma OthersKeptExpiry(a: Tables, b: Tables, t: TimerId, epoch: nat)
    requires OthersKept(a, b, t)
    ensures forall u :: u in a.timers && u != t ==> u in b.timers && b.Expiry(epoch, u) == a.Expiry(epoch, u)
  {
  }

  // ---------------------------------------------------------------- the list operations

  lemma PutValues(timers: map<TimerId, Timer>, l: seq<TimerId>, t: TimerId)
    requires GoodList(timers, l) && t in timers && t !in l
    ensures GoodList(timers, Put(l, SortedPosition(Values(timers, l), timers[t].value), t))
  {
    var keys, key := Values(timers, l), timers[t].value;
    var k := SortedPosition(keys, key);
    SortedInsertion(keys, key);
    PutNoDuplicates(l, k, t);
    assert Values(timers, Put(l, k, t)) == Put(keys, k, key);
  }

  lemma WithoutValues(timers: map<TimerId, Timer>, l: seq<TimerId>, t: TimerId)
    requires GoodList(timers, l)
    ensures GoodList(timers, Without(l, t)) && t !in Without(l, t)
    ensures forall u :: u != t ==> (u in Without(l, t) <==> u in l)
  {
    if t in l {
      var k := PositionOf(l, t);
      DropNoDuplicates(l, k);
      assert Values(timers, Drop(l, k)) == Drop(Values(timers, l), k);
    }
  }

  lemma OtherTimerSet(timers: map<TimerId, Timer>, l: seq<TimerId>, t: TimerId, timer: Timer)
    requires GoodList(timers, l) && t !in l
    ensures GoodList(timers[t := timer], l)
  {
    assert Values(timers[t := timer], l) == Values(timers, l);
  }

  lemma UnlistedTidy(d: Tables, t: TimerId)
    requires Tidy(d)
    ensures Tidy(d.Unlisted(t)) && !d.Unlisted(t).Listed(t) && OthersKept(d, d.Unlisted(t), t)
    ensures d.Unlisted(t).timers == d.timers
  {
    WithoutValues(d.timers, d.current, t);
    WithoutValues(d.timers, d.overflow, t);
  }

  lemma SetTimerTidy(d: Tables, t: TimerId, timer: Timer)
    requires Tidy(d) && !d.Listed(t) && timer.period > 0
    ensures Tidy(d.SetTimer(t, timer)) && OthersKept(d, d.SetTimer(t, timer), t) && !d.SetTimer(t, timer).Listed(t)
  {
    OtherTimerSet(d.timers, d.current, t, timer);
    OtherTimerSet(d.timers, d.overflow, t, timer);
  }

  lemma InsertedTidy(d: Tables, t: TimerId, epoch: nat)
    requires Tidy(d) && t in d.timers && !d.Listed(t)
    ensures Tidy(d.IntoCurrent(t)) && OthersKept(d, d.IntoCurrent(t), t) && d.IntoCurrent(t).Listed(t)
    ensures d.IntoCurrent(t).Expiry(epoch, t) == Some(epoch * TICK_RANGE + d.timers[t].value)
    ensures Tidy(d.IntoOverflow(t)) && OthersKept(d, d.IntoOverflow(t), t) && d.IntoOverflow(t).Listed(t)
    ensures d.IntoOverflow(t).Expiry(epoch, t) == Some((epoch + 1) * TICK_RANGE + d.timers[t].value)
  {
    var v := d.timers[t].value;
    PutValues(d.timers, d.current, t);
    PutValues(d.timers, d.overflow, t);
    PutNoDuplicates(d.current, SortedPosition(Values(d.timers, d.current), v), t);
    PutNoDuplicates(d.overflow, SortedPosition(Values(d.timers, d.overflow), v), t);
  }

  /** The head of the current list is the earliest expiry of all. */
  lemma HeadIsEarliest(d: Tables, epoch: nat, t: TimerId)
    requires Tidy(d) && d.current != [] && t in d.timers && d.Listed(t)
    ensures d.current[0] in d.timers
    ensures d.Expiry(epoch, d.current[0]).value <= d.Expiry(epoch, t).value
  {
    var keys := Values(d.timers, d.current);
    assert d.current[0] in d.current;
    if t in d.current {
      var i :| 0 <= i < |d.current| && d.current[i] == t;
      assert i > 0 ==> keys[0] <= keys[i];
    }
  }

  // ---------------------------------------------------------------- expiries

  /** How many of e, e + period, e + 2 * period, ... are not after n. */
  function Multiples(e: nat, period: nat, n: nat): nat
    requires period > 0
    decreases n + 1 - e
  {
    if e > n then 0 else 1 + Multiples(e + period, period, n)
  }

  /** The first of them after n. */
  function FirstAfter(e: nat, period: nat, n: nat): (r: nat)
    requires period > 0
    ensures r > n && (e > n ==> r == e) && (e <= n ==> r <= n + period)
    decreases n + 1 - e
  {
    if e > n then e else FirstAfter(e + period, period, n)
  }

  lemma MultiplesStep(e: nat, period: nat, n: nat)
    requires period > 0
    ensures Multiples(e, period, n) == if e > n then 0 else 1 + Multiples(e + period, period, n)
    ensures FirstAfter(e, period, n) == if e > n then e else FirstAfter(e + period, period, n)
  {
  }

  lemma {:induction false} MultiplesClosedForm(e: nat, period: nat, n: nat)
    requires period > 0
    ensures e <= n ==> Multiples(e, period, n) == (n - e) / period + 1
    ensures FirstAfter(e, period, n) == e + Multiples(e, period, n) * period
    decreases n + 1 - e
  {
    if e > n {
    } else {
      MultiplesClosedForm(e + period, period, n);
      if e + period <= n {
        QuotientStep(n - e, period);
      } else {
        SmallQuotient(n - e, period);
      }
      var m := Multiples(e + period, period, n);
      assert (1 + m) * period == period + m * period;
    }
  }

  lemma QuotientStep(d: nat, p: nat)
    requires 0 < p <= d
    ensures d / p == (d - p) / p + 1
  {
    var q := (d - p) / p;
    assert d - p == q * p + (d - p) % p;
    UniqueQuotient(d, p, q + 1, (d - p) % p);
  }

  lemma SmallQuotient(d: nat, p: nat)
    requires d < p
    ensures d / p == 0
  {
  }

  lemma UniqueQuotient(d: nat, p: nat, q: nat, r: nat)
    requires p > 0 && r < p && d == (q - 1) * p + p + r
    ensures d / p == q
  {
    var s := d / p;
    assert d == s * p + d % p;
    assert q * p == (q - 1) * p + p;
    if s < q {
      Gap(s, q, p);
      assert false;
    } else if s > q {
      Gap(q, s, p);
      assert false;
    }
  }

  lemma {:induction false} Gap(a: nat, b: nat, p: nat)
    requires a < b
    ensures a * p + p <= b * p
  {
    if a + 1 < b {
      Gap(a, b - 1, p);
    }
  }

  /** Callbacks a timer is owed by the instant n, if it next expires at x. */
  function Owed(timer: Timer, x: Option<nat>, n: nat): nat
    requires timer.period > 0
  {
    if x.None? || x.value > n then 0
    else if timer.autoReload then Multiples(x.value, timer.period, n)
    else 1
  }

  /** When it next expires once those are made. */
  function Settled(timer: Timer, x: Option<nat>, n: nat): Option<nat>
    requires timer.period > 0
  {
    if x.None? || x.value > n then x
    else if timer.autoReload then Some(FirstAfter(x.value, timer.period, n))
    else None
  }

  /** What is owed by the instant n to a timer that expires at x, and when it expires next, in closed form. */
  lemma SettledClosedForm(timer: Timer, x: nat, n: nat)
    requires timer.period > 0
    ensures Owed(timer, None, n) == 0 && Settled(timer, None, n) == None
    ensures n < x ==> Owed(timer, Some(x), n) == 0 && Settled(timer, Some(x), n) == Some(x)
    ensures x <= n && !timer.autoReload ==> Owed(timer, Some(x), n) == 1 && Settled(timer, Some(x), n) == None
    ensures x <= n && timer.autoReload ==>
              var k := (n - x) / timer.period + 1;
              Owed(timer, Some(x), n) == k && Settled(timer, Some(x), n) == Some(x + k * timer.period)
  {
    MultiplesClosedForm(x, timer.period, n);
  }

  lemma {:induction false} MultiplesSplit(e: nat, period: nat, n: nat, horizon: nat)
    requires period > 0 && n <= horizon
    ensures Multiples(e, period, horizon)
         == Multiples(e, period, n) + Multiples(FirstAfter(e, period, n), period, horizon)
    decreases n + 1 - e
  {
    if e > n {
    } else {
      MultiplesSplit(e + period, period, n, horizon);
    }
  }

  /** Settling makes the callbacks due by n and leaves exactly those that come later. */
  lemma NoCallbackLost(timer: Timer, x: Option<nat>, n: nat, horizon: nat)
    requires timer.period > 0 && n <= horizon
    ensures Owed(timer, x, horizon) == Owed(timer, x, n) + Owed(timer, Settled(timer, x, n), horizon)
    ensures Owed(timer, Settled(timer, x, n), n) == 0
  {
    if x.Some? && x.value <= n && timer.autoReload {
      MultiplesSplit(x.value, timer.period, n, horizon);
    }
  }

  // ---------------------------------------------------------------- epochs

  function Epoch(time: nat): nat {
    time / TICK_RANGE
  }

  /** One switch per decrease of the tick follows the epochs exactly if samples are close enough. */
  lemma EpochFollowedIff(last: nat, time: nat)
    requires last <= time
    ensures Epoch(time) == Epoch(last) + (if TickAt(time) < TickAt(last) then 1 else 0) <==> time - last < TICK_RANGE
  {
    TickParts(last);
    TickParts(time);
  }

  /** The comparisons of prvInsertTimerInActiveList. */
  predicate AlreadyExpired(next: TickType, now: TickType, command: TickType, period: TickType) {
    if next <= now then TickSub(now, command) >= period else now < command && next >= command
  }

  /** The wait since command as far as the tick count can tell. */
  function Waited(command: nat, time: nat): nat
    requires command <= time
  {
    (time - command) % TICK_RANGE
  }

  /** A period counted from command is judged over exactly when the visible wait is that long. */
  lemma AlreadyExpiredIff(command: nat, time: nat, period: TickType)
    requires command <= time && period > 0
    ensures AlreadyExpired(TickAt(command + period), TickAt(time), TickAt(command), period) <==>
              Waited(command, time) >= period
    ensures time - command < TICK_RANGE ==> Waited(command, time) == time - command
  {
    TickAddIs(command, period);
    ElapsedTicks(command, time);
  }

  /**
    The judgement agrees with the true wait unless a full turn of the counter went by
    unseen and what is seen of the wait is shorter than the period.
   */
  lemma LateCommandJudgedIff(command: nat, time: nat, period: TickType)
    requires command <= time && period > 0
    ensures (AlreadyExpired(TickAt(command + period), TickAt(time), TickAt(command), period) <==> time - command >= period)
              <==> (time - command < TICK_RANGE || Waited(command, time) >= period)
  {
    AlreadyExpiredIff(command, time, period);
    hide AlreadyExpired, TickAt;
  }

  /** A timer of period 5 whose start is handled one tick more than a full turn late looks unexpired. */
  lemma LateCommandMissed()
    ensures !AlreadyExpired(TickAt(0 + 5), TickAt(TICK_RANGE + 1), TickAt(0), 5)
  {
  }

  /** A daemon that samples at 0 and then a full turn later sees no wrap. */
  lemma EpochMissed()
    ensures Epoch(TICK_RANGE) != Epoch(0) + if TickAt(TICK_RANGE) < TickAt(0) then 1 else 0
  {
  }

  /** Otherwise the comparison of next and now picks the list of the true expiry. */
  lemma ListOfExpiry(command: nat, time: nat, period: TickType)
    requires command <= time < command + period
    ensures var next := TickAt(command + period);
            command + period == (if next <= TickAt(time) then Epoch(time) + 1 else Epoch(time)) * TICK_RANGE + next
  {
    TickParts(time);
    TickParts(command + period);
  }

  // ---------------------------------------------------------------- settling

  function EndOfEpoch(time: nat): nat {
    Epoch(time) * TICK_RANGE + PORT_MAX_DELAY
  }

  predicate SameKind(a: Timer, b: Timer) {
    a.period == b.period && a.autoReload == b.autoReload
  }

  /** All tables, their epoch, and the callbacks made so far. */
  datatype Account = Account(tables: Tables, epoch: nat, calls: multiset<TimerId>)

  /** Timer t has had the callbacks it was owed by n, and its next expiry is the first after n. */
  ghost predicate SettledFor(a: Account, b: Account, t: TimerId, n: nat)
    requires t in a.tables.timers && t in b.tables.timers && a.tables.timers[t].period > 0
  {
    var timer, x := a.tables.timers[t], a.tables.Expiry(a.epoch, t);
    && SameKind(timer, b.tables.timers[t])
    && b.tables.Expiry(b.epoch, t) == Settled(timer, x, n)
    && b.calls[t] == a.calls[t] + Owed(timer, x, n)
  }

  /** Timer t is as it was. */
  ghost predicate KeptFor(a: Account, b: Account, t: TimerId)
    requires t in a.tables.timers && t in b.tables.timers
  {
    && a.tables.timers[t] == b.tables.timers[t] && b.tables.Expiry(b.epoch, t) == a.tables.Expiry(a.epoch, t)
    && b.calls[t] == a.calls[t]
  }

  ghost predicate SameTimers(a: Account, b: Account) {
    && (forall t :: t in a.tables.timers <==> t in b.tables.timers)
    && (forall t :: t in a.tables.timers ==> a.tables.timers[t].period > 0)
  }

  ghost predicate AllSettled(a: Account, b: Account, n: nat) {
    SameTimers(a, b) && (forall t :: t in a.tables.timers ==> SettledFor(a, b, t, n))
  }

  /** Callbacks made to t so far, and those it is still owed by the instant horizon. */
  function Total(a: Account, t: TimerId, horizon: nat): nat
    requires t in a.tables.timers && a.tables.timers[t].period > 0
  {
    a.calls[t] + Owed(a.tables.timers[t], a.tables.Expiry(a.epoch, t), horizon)
  }

  /** For every later horizon, t gets the same number of callbacks from a and from b. */
  ghost predicate Conserved(a: Account, b: Account, t: TimerId, from: nat) {
    && t in a.tables.timers && t in b.tables.timers
    && a.tables.timers[t].period > 0 && b.tables.timers[t].period > 0
    && (forall horizon :: horizon >= from ==> Total(b, t, horizon) == Total(a, t, horizon))
  }

  /** Settling early or late makes no difference to the callbacks a timer gets in the end. */
  lemma CallbacksConserved(a: Account, b: Account, t: TimerId, n: nat, from: nat)
    requires t in a.tables.timers && t in b.tables.timers && a.tables.timers[t].period > 0
    requires (SettledFor(a, b, t, n) && n <= from) || KeptFor(a, b, t)
    ensures Conserved(a, b, t, from)
  {
    if SettledFor(a, b, t, n) && n <= from {
      forall horizon | horizon >= from
        ensures Total(b, t, horizon) == Total(a, t, horizon)
      {
        NoCallbackLost(a.tables.timers[t], a.tables.Expiry(a.epoch, t), n, horizon);
      }
    }
  }

  /** No timer is active: no epoch matters to anyone. */
  predicate Idle(d: Tables) {
    d.current == [] && d.overflow == []
  }

  lemma IdleConserved(a: Account, b: Account, from: nat)
    requires Idle(a.tables) && b.tables == a.tables && b.calls == a.calls
    ensures forall t :: t in a.tables.timers && a.tables.timers[t].period > 0 ==> Conserved(a, b, t, from)
  {
    forall t | t in a.tables.timers && a.tables.timers[t].period > 0
      ensures Conserved(a, b, t, from)
    {
      CallbacksConserved(a, b, t, from, from);
    }
  }

  /** With an auto-reload timer started D ticks ago, settling makes D / period callbacks. */
  lemma LateStartCallbacks(timer: Timer, commanded: nat, time: nat)
    requires timer.period > 0 && timer.autoReload && commanded <= time
    ensures var x, p := Some(commanded + timer.period), timer.period;
            && Owed(timer, x, time) == (time - commanded) / p
            && Settled(timer, x, time) == Some(commanded + ((time - commanded) / p + 1) * p)
            && time < Settled(timer, x, time).value <= time + p
  {
    var p, d := timer.period, time - commanded;
    MultiplesClosedForm(commanded + p, p, time);
    if d >= p {
      QuotientStep(d, p);
    } else {
      SmallQuotient(d, p);
    }
    var q := d / p;
    assert (q + 1) * p == q * p + p;
  }
}
