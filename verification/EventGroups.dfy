/**
  Event groups (event_groups.c).  A waiting task packs its condition into the value of its
  event list item; whoever sets bits walks the waiters, leaves the bits in the items of those
  it releases, and clears what they asked to have cleared.
 */
module EventGroups {
  import opened KernelConfig
  import opened ListViews
  import opened TaskTables

  type EventBits = bv32

  const CLEAR_EVENTS_ON_EXIT_BIT: EventBits := 0x0100_0000
  const UNBLOCKED_DUE_TO_BIT_SET: EventBits := 0x0200_0000
  const WAIT_FOR_ALL_BITS: EventBits := 0x0400_0000
  const EVENT_BITS_CONTROL_BYTES: EventBits := 0xff00_0000
  const EVENT_LIST_ITEM_VALUE_IN_USE: EventBits := 0x8000_0000

  predicate UserBits(bits: EventBits) {
    bits & EVENT_BITS_CONTROL_BYTES == 0
  }

  /** The bits an item value waits for, without the control bits. */
  function WaitedFor(value: EventBits): EventBits {
    value & !EVENT_BITS_CONTROL_BYTES
  }

  /** prvTestWaitCondition */
  predicate TestWaitCondition(current: EventBits, waitFor: EventBits, all: bool) {
    if all then current & waitFor == waitFor else current & waitFor != 0
  }

  /** The condition packed into an item value, tested on bits. */
  predicate Satisfied(value: EventBits, bits: EventBits) {
    TestWaitCondition(bits, WaitedFor(value), value & WAIT_FOR_ALL_BITS != 0)
  }

  function ClearedOnExit(value: EventBits): EventBits {
    if value & CLEAR_EVENTS_ON_EXIT_BIT != 0 then WaitedFor(value) else 0
  }

  /** The item value of a task that starts waiting. */
  function Packed(waitFor: EventBits, clear: bool, all: bool): EventBits {
    waitFor | (if clear then CLEAR_EVENTS_ON_EXIT_BIT else 0) | (if all then WAIT_FOR_ALL_BITS else 0)
      | EVENT_LIST_ITEM_VALUE_IN_USE
  }

  /** The item value of a task released when the bits were bits. */
  function Stamped(bits: EventBits): EventBits {
    bits | UNBLOCKED_DUE_TO_BIT_SET | EVENT_LIST_ITEM_VALUE_IN_USE
  }

  /** Packing loses nothing, and a packed value never looks like a released one. */
  lemma PackedRoundTrip(waitFor: EventBits, clear: bool, all: bool, bits: EventBits)
    requires UserBits(waitFor)
    ensures var v := Packed(waitFor, clear, all);
            && WaitedFor(v) == waitFor && ClearedOnExit(v) == (if clear then waitFor else 0)
            && (Satisfied(v, bits) <==> TestWaitCondition(bits, waitFor, all))
            && v & UNBLOCKED_DUE_TO_BIT_SET == 0
  {
  }

  lemma StampedRoundTrip(bits: EventBits)
    requires UserBits(bits)
    ensures WaitedFor(Stamped(bits)) == bits && Stamped(bits) & UNBLOCKED_DUE_TO_BIT_SET != 0
  {
  }

  function Cleared(bits: EventBits, mask: EventBits): EventBits {
    bits & !mask
  }

  /** Clearing bits never satisfies a condition. */
  lemma ClearingSatisfiesNone(value: EventBits, bits: EventBits, mask: EventBits)
    requires Satisfied(value, Cleared(bits, mask))
    ensures Satisfied(value, bits)
  {
  }

  lemma UserBitsClosed(a: EventBits, b: EventBits)
    requires UserBits(a)
    ensures UserBits(Cleared(a, b)) && (UserBits(b) ==> UserBits(Union(a, b)))
  {
  }

  // ---------------------------------------------------------------- what setting bits does

  type Items = map<Task, EventBits>

  predicate Matches(items: Items, t: Task, bits: EventBits) {
    t in items && Satisfied(items[t], bits)
  }

  /** The waiters that bits do not release, in list order. */
  function Kept(waiting: seq<Task>, items: Items, bits: EventBits): (r: seq<Task>)
    ensures |r| <= |waiting|
    ensures forall t :: t in r <==> t in waiting && !Matches(items, t, bits)
  {
    if waiting == [] then []
    else
      var n := |waiting| - 1;
      Kept(waiting[..n], items, bits) + if Matches(items, waiting[n], bits) then [] else [waiting[n]]
  }

  function Union(a: EventBits, b: EventBits): EventBits {
    a | b
  }

  /** Every bit of a is among those of b. */
  predicate Within(a: EventBits, b: EventBits) {
    a & !b == 0
  }

  function AskedBy(items: Items, t: Task, bits: EventBits): EventBits {
    if Matches(items, t, bits) then ClearedOnExit(items[t]) else 0
  }

  /** The union of what the released waiters asked to have cleared. */
  function ClearMask(waiting: seq<Task>, items: Items, bits: EventBits): EventBits {
    if waiting == [] then 0
    else
      var n := |waiting| - 1;
      Union(ClearMask(waiting[..n], items, bits), AskedBy(items, waiting[n], bits))
  }

  /** The item values once the released waiters of the list have theirs. */
  ghost predicate Delivered(was: Items, now: Items, waiting: seq<Task>, bits: EventBits) {
    && now.Keys == was.Keys
    && (forall t :: t in was ==>
          now[t] == if t in waiting && Matches(was, t, bits) then Stamped(bits) else was[t])
  }

  lemma {:induction false} KeptDistinct(waiting: seq<Task>, items: Items, bits: EventBits)
    requires NoDuplicates(waiting)
    ensures NoDuplicates(Kept(waiting, items, bits))
  {
    if waiting == [] {
    } else {
      var n := |waiting| - 1;
      KeptDistinct(waiting[..n], items, bits);
      var k := Kept(waiting[..n], items, bits);
      assert waiting[n] !in waiting[..n];
      assert waiting[n] !in k;
    }
  }

  /** What a released waiter asked to have cleared is cleared... */
  lemma {:induction false} ClearMaskCovers(waiting: seq<Task>, items: Items, bits: EventBits, t: Task)
    requires t in waiting && Matches(items, t, bits)
    ensures Within(ClearedOnExit(items[t]), ClearMask(waiting, items, bits))
  {
    hide Union, Within, AskedBy, Satisfied, ClearedOnExit;
    var n := |waiting| - 1;
    var rest, last := ClearMask(waiting[..n], items, bits), AskedBy(items, waiting[n], bits);
    if t == waiting[n] {
      AskedByReleased(items, t, bits);
      WithinUnion(last, last, rest);
    } else {
      ClearMaskCovers(waiting[..n], items, bits, t);
      WithinUnion(ClearedOnExit(items[t]), rest, last);
    }
  }

  lemma AskedByReleased(items: Items, t: Task, bits: EventBits)
    requires Matches(items, t, bits)
    ensures AskedBy(items, t, bits) == ClearedOnExit(items[t])
    ensures Within(AskedBy(items, t, bits), AskedBy(items, t, bits))
  {
  }

  lemma WithinUnion(a: EventBits, b: EventBits, c: EventBits)
    requires Within(a, b)
    ensures Within(a, Union(b, c)) && Within(a, Union(c, b))
  {
  }

  predicate Common(a: EventBits, b: EventBits) {
    a & b != 0
  }

  /** ...and a bit is cleared only if some released waiter asked for it. */
  lemma {:induction false} ClearMaskOnlyAsked(waiting: seq<Task>, items: Items, bits: EventBits, bit: EventBits)
    requires Common(bit, ClearMask(waiting, items, bits))
    ensures exists t :: t in waiting && Common(bit, AskedBy(items, t, bits))
  {
    if waiting == [] {
    } else {
      hide Union, AskedBy, Common;
      var n := |waiting| - 1;
      var rest, last := ClearMask(waiting[..n], items, bits), AskedBy(items, waiting[n], bits);
      CommonUnion(bit, rest, last);
      if Common(bit, rest) {
        ClearMaskOnlyAsked(waiting[..n], items, bits, bit);
        var t :| t in waiting[..n] && Common(bit, AskedBy(items, t, bits));
        assert t in waiting;
      } else {
        assert waiting[n] in waiting;
      }
    }
  }

  lemma CommonUnion(bit: EventBits, a: EventBits, b: EventBits)
    ensures Common(bit, Union(a, b)) <==> Common(bit, a) || Common(bit, b)
  {
    hide Common, Union;
    if !Common(bit, Union(a, b)) {
      NoneOfUnion(bit, a, b);
    } else if !Common(bit, a) && !Common(bit, b) {
      NoneOfBoth(bit, a, b);
    }
  }

  lemma NoneOfUnion(bit: EventBits, a: EventBits, b: EventBits)
    requires !Common(bit, Union(a, b))
    ensures !Common(bit, a) && !Common(bit, b)
  {
  }

  lemma NoneOfBoth(bit: EventBits, a: EventBits, b: EventBits)
    requires !Common(bit, a) && !Common(bit, b)
    ensures !Common(bit, Union(a, b))
  {
  }

  lemma {:induction false} ClearMaskUser(waiting: seq<Task>, items: Items, bits: EventBits)
    ensures UserBits(ClearMask(waiting, items, bits))
  {
    if waiting == [] {
    } else {
      var n := |waiting| - 1;
      ClearMaskUser(waiting[..n], items, bits);
      UserBitsClosed(ClearMask(waiting[..n], items, bits), AskedBy(items, waiting[n], bits));
      hide UserBits, AskedBy;
    }
  }

  lemma NothingWalked(all: seq<Task>, items: Items, bits: EventBits)
    ensures Kept(all[..0], items, bits) == [] && ClearMask(all[..0], items, bits) == 0
    ensures all[0..] == all && Delivered(items, items, all[..0], bits)
  {
  }

  /** One more waiter of the walk: released, or left on the list. */
  lemma WalkStep(all: seq<Task>, was: Items, now: Items, bits: EventBits, done: nat, list: seq<Task>)
    requires NoDuplicates(all) && done < |all| && all[done] in was
    requires list == Kept(all[..done], was, bits) + all[done..]
    requires Delivered(was, now, all[..done], bits)
    ensures var t, k := all[done], |Kept(all[..done], was, bits)|;
            && t in now && now[t] == was[t] && k < |list|
            && (Satisfied(was[t], bits) ==>
                  && Kept(all[..done + 1], was, bits) == Kept(all[..done], was, bits)
                  && ClearMask(all[..done + 1], was, bits) == Union(ClearMask(all[..done], was, bits), ClearedOnExit(was[t]))
                  && Delivered(was, now[t := Stamped(bits)], all[..done + 1], bits)
                  && Drop(list, k) == Kept(all[..done + 1], was, bits) + all[done + 1..])
            && (!Satisfied(was[t], bits) ==>
                  && |Kept(all[..done + 1], was, bits)| == k + 1
                  && ClearMask(all[..done + 1], was, bits) == ClearMask(all[..done], was, bits)
                  && Delivered(was, now, all[..done + 1], bits)
                  && list == Kept(all[..done + 1], was, bits) + all[done + 1..])
  {
    var t := all[done];
    assert t !in all[..done];
    Unfolded(all, was, bits, done);
    DeliveredStep(was, now, bits, all, done);
    WithNothing(ClearMask(all[..done], was, bits));
    WalkedLists(Kept(all[..done], was, bits), all, done, list);
    hide Satisfied, ClearedOnExit, Stamped, Union, Delivered, Kept, ClearMask, Drop;
  }

  lemma Unfolded(all: seq<Task>, was: Items, bits: EventBits, done: nat)
    requires done < |all| && all[done] in was
    ensures Kept(all[..done + 1], was, bits)
         == Kept(all[..done], was, bits) + if Satisfied(was[all[done]], bits) then [] else [all[done]]
    ensures ClearMask(all[..done + 1], was, bits)
         == Union(ClearMask(all[..done], was, bits), if Satisfied(was[all[done]], bits) then ClearedOnExit(was[all[done]]) else 0)
  {
    hide Satisfied, ClearedOnExit, Union;
    assert all[..done + 1][..done] == all[..done];
  }

  lemma WalkedLists(kept: seq<Task>, all: seq<Task>, done: nat, list: seq<Task>)
    requires done < |all| && list == kept + all[done..]
    ensures |kept| < |list| && Drop(list, |kept|) == kept + all[done + 1..]
    ensures list == (kept + [all[done]]) + all[done + 1..] && kept + [] == kept
  {
  }

  lemma WithNothing(a: EventBits)
    ensures Union(a, 0) == a
  {
  }

  lemma DeliveredStep(was: Items, now: Items, bits: EventBits, all: seq<Task>, done: nat)
    requires done < |all| && all[done] in was && all[done] !in all[..done]
    requires Delivered(was, now, all[..done], bits)
    ensures var t := all[done];
            && t in now && now[t] == was[t]
            && Delivered(was, if Satisfied(was[t], bits) then now[t := Stamped(bits)] else now, all[..done + 1], bits)
  {
    hide Satisfied, Stamped;
    assert forall u :: u in all[..done + 1] <==> u in all[..done] || u == all[done];
  }

  // ---------------------------------------------------------------- the event group

  /** What another task does to the bits. */
  datatype Call = Setting(bits: EventBits) | Clearing(bits: EventBits)

  lemma WithinItself(a: EventBits)
    ensures Within(a, a)
  {
  }

  lemma ClearedWithin(a: EventBits, bits: EventBits, b: EventBits)
    ensures Within(a, b) ==> Within(Cleared(a, bits), b)
  {
  }

  /** The words used below, bit by bit. */
  lemma JoinedBits(a: EventBits, b: EventBits)
    ensures Union(a, b) == a | b && Cleared(a, b) == a & !b
  {
  }

  lemma CommonMeans(a: EventBits, b: EventBits)
    ensures Common(a, b) <==> a & b != 0
  {
  }

  lemma WaitedForMeans(v: EventBits)
    ensures WaitedFor(v) == v & !EVENT_BITS_CONTROL_BYTES
  {
  }

  lemma WithinMeans(a: EventBits, b: EventBits)
    ensures Within(a, b) <==> b & a == a
  {
    if Within(a, b) {
      WithinKeeps(a, b);
    }
    if b & a == a {
      KeptIsWithin(a, b);
    }
  }

  lemma WithinKeeps(a: EventBits, b: EventBits)
    requires Within(a, b)
    ensures b & a == a
  {
  }

  lemma KeptIsWithin(a: EventBits, b: EventBits)
    requires b & a == a
    ensures Within(a, b)
  {
  }

  /** The condition on the bits. */
  lemma TestMeans(bits: EventBits, waitFor: EventBits, all: bool)
    ensures TestWaitCondition(bits, waitFor, all) <==> if all then Within(waitFor, bits) else Common(bits, waitFor)
  {
    WithinMeans(waitFor, bits);
    hide Within;
  }

  lemma PackedMeans(waitFor: EventBits, clear: bool, all: bool)
    requires UserBits(waitFor)
    ensures var v := Packed(waitFor, clear, all);
            && WaitedFor(v) == waitFor && (Common(v, WAIT_FOR_ALL_BITS) <==> all)
            && (Common(v, CLEAR_EVENTS_ON_EXIT_BIT) <==> clear) && !Common(v, UNBLOCKED_DUE_TO_BIT_SET)
  {
  }

  /** What a condition means, and what a waiter's item value says about it. */
  lemma ConditionMeans(bits: EventBits, waitFor: EventBits, clear: bool, all: bool)
    requires UserBits(waitFor)
    ensures TestWaitCondition(bits, waitFor, all) <==> if all then Within(waitFor, bits) else Common(bits, waitFor)
    ensures var v := Packed(waitFor, clear, all);
            && WaitedFor(v) == waitFor && (Common(v, WAIT_FOR_ALL_BITS) <==> all)
            && (Common(v, CLEAR_EVENTS_ON_EXIT_BIT) <==> clear) && !Common(v, UNBLOCKED_DUE_TO_BIT_SET)
  {
    hide TestWaitCondition, Packed, Within, Common, WaitedFor;
    TestMeans(bits, waitFor, all);
    PackedMeans(waitFor, clear, all);
  }

  /** None of the bits b was to be cleared by a waiter that has left the list. */
  ghost predicate SparedBy(was: Items, before: seq<Task>, after: seq<Task>, b: EventBits) {
    forall t :: t in before && t !in after && t in was && Common(was[t], CLEAR_EVENTS_ON_EXIT_BIT) ==>
      !Common(WaitedFor(was[t]), b)
  }

  lemma SatisfiedMeans(v: EventBits, s: EventBits)
    ensures Satisfied(v, s) <==> if Common(v, WAIT_FOR_ALL_BITS) then Within(WaitedFor(v), s) else Common(s, WaitedFor(v))
    ensures ClearedOnExit(v) == if Common(v, CLEAR_EVENTS_ON_EXIT_BIT) then WaitedFor(v) else 0
  {
    hide TestWaitCondition, Within, WaitedFor;
    CommonMeans(v, WAIT_FOR_ALL_BITS);
    TestMeans(s, WaitedFor(v), v & WAIT_FOR_ALL_BITS != 0);
  }

  lemma StampedMeans(s: EventBits)
    requires UserBits(s)
    ensures WaitedFor(Stamped(s)) == s && Common(Stamped(s), UNBLOCKED_DUE_TO_BIT_SET)
  {
  }

  lemma SparedBits(b: EventBits, s: EventBits, mask: EventBits)
    requires Within(b, s) && !Common(b, mask)
    ensures Within(b, Cleared(s, mask))
  {
  }

  lemma ClearedBits(s: EventBits, mask: EventBits, w: EventBits)
    ensures Within(Cleared(s, mask), s)
    ensures Within(w, mask) ==> !Common(Cleared(s, mask), w)
  {
  }

  lemma CommonBits(a: EventBits, b: EventBits)
    ensures Common(a, b) <==> Common(b, a)
    ensures !Common(a, 0)
  {
  }

  /** Bits that nobody released asked to have cleared stay. */
  lemma SparedStay(waiting: seq<Task>, was: Items, s: EventBits, b: EventBits)
    requires forall t :: t in waiting ==> t in was
    requires Within(b, s) && SparedBy(was, waiting, Kept(waiting, was, s), b)
    ensures Within(b, Cleared(s, ClearMask(waiting, was, s)))
  {
    hide Within, Cleared, ClearMask, Satisfied, ClearedOnExit, Common, WaitedFor;
    var mask := ClearMask(waiting, was, s);
    CommonBits(b, 0);
    if Common(b, mask) {
      ClearMaskOnlyAsked(waiting, was, s, b);
      var t :| t in waiting && Common(b, AskedBy(was, t, s));
      SatisfiedMeans(was[t], s);
      CommonBits(b, WaitedFor(was[t]));
      assert false;
    }
    SparedBits(b, s, mask);
  }

  lemma SettingMeans(waiting: seq<Task>, was: Items, now: Items, s: EventBits)
    requires UserBits(s) && forall t :: t in waiting ==> t in was
    requires Delivered(was, now, waiting, s)
    ensures var left, kept := Cleared(s, ClearMask(waiting, was, s)), Kept(waiting, was, s);
            && (forall t :: t in waiting ==>
                  t in now &&
                  var v, w := was[t], WaitedFor(was[t]);
                  var met := if Common(v, WAIT_FOR_ALL_BITS) then Within(w, s) else Common(s, w);
                  && (t in kept <==> !met)
                  && (!met ==> now[t] == v)
                  && (met ==> WaitedFor(now[t]) == s && Common(now[t], UNBLOCKED_DUE_TO_BIT_SET))
                  && (met && Common(v, CLEAR_EVENTS_ON_EXIT_BIT) ==> !Common(left, w)))
            && Within(left, s)
            && (forall b :: Within(b, s) && SparedBy(was, waiting, kept, b) ==> Within(b, left))
  {
    hide Within, Cleared, ClearMask, Satisfied, ClearedOnExit, SparedBy, Stamped, Common, WaitedFor, UserBits;
    var mask := ClearMask(waiting, was, s);
    ClearedBits(s, mask, 0);
    StampedMeans(s);
    forall t | t in waiting
      ensures t in now
      ensures var v, w := was[t], WaitedFor(was[t]);
              var met := if Common(v, WAIT_FOR_ALL_BITS) then Within(w, s) else Common(s, w);
              && (t in Kept(waiting, was, s) <==> !met)
              && (!met ==> now[t] == v)
              && (met ==> WaitedFor(now[t]) == s && Common(now[t], UNBLOCKED_DUE_TO_BIT_SET))
              && (met && Common(v, CLEAR_EVENTS_ON_EXIT_BIT) ==> !Common(Cleared(s, mask), w))
    {
      SatisfiedMeans(was[t], s);
      if Matches(was, t, s) {
        ClearMaskCovers(waiting, was, s, t);
        ClearedBits(s, mask, ClearedOnExit(was[t]));
      }
    }
    forall b | Within(b, s) && SparedBy(was, waiting, Kept(waiting, was, s), b)
      ensures Within(b, Cleared(s, mask))
    {
      SparedStay(waiting, was, s, b);
    }
  }

  class EventGroup {
    var eventBits: EventBits
    /** xTasksWaitingForBits, and the event list item values of all tasks. */
    var waiting: seq<Task>
    var items: Items

    /** No task is left waiting whose condition the bits already meet. */
    ghost predicate Valid()
      reads this
    {
      && UserBits(eventBits) && NoDuplicates(waiting)
      && (forall t :: t in waiting ==> Waits(t))
    }

    ghost predicate Waits(t: Task)
      reads this
    {
      t in items && items[t] & UNBLOCKED_DUE_TO_BIT_SET == 0 && !Satisfied(items[t], eventBits)
    }

    constructor (items: Items)
      ensures Valid() && eventBits == 0 && waiting == [] && this.items == items
    {
      eventBits, waiting, this.items := 0, [], items;
    }

    /** The walk over the waiters in xEventGroupSetBits; returns the bits to clear. */
    method ReleaseSatisfied() returns (bitsToClear: EventBits)
      requires NoDuplicates(waiting) && forall t :: t in waiting ==> t in items
      modifies `waiting, `items
      ensures waiting == Kept(old(waiting), old(items), eventBits)
      ensures bitsToClear == ClearMask(old(waiting), old(items), eventBits)
      ensures Delivered(old(items), items, old(waiting), eventBits)
    {
      hide Satisfied, ClearedOnExit, Stamped, Union, Kept, ClearMask, Delivered, Drop;
      ghost var all, was := waiting, items;
      ghost var done := 0;
      var k := 0;
      bitsToClear := 0;
      NothingWalked(all, was, eventBits);
      while k < |waiting|
        invariant done <= |all| && k == |Kept(all[..done], was, eventBits)|
        invariant waiting == Kept(all[..done], was, eventBits) + all[done..]
        invariant bitsToClear == ClearMask(all[..done], was, eventBits)
        invariant Delivered(was, items, all[..done], eventBits)
        decreases |all| - done
      {
        var t := waiting[k];
        assert t == all[done];
        WalkStep(all, was, items, eventBits, done, waiting);
        var value := items[t];
        if Satisfied(value, eventBits) {
          bitsToClear := Union(bitsToClear, ClearedOnExit(value));
          items := items[t := Stamped(eventBits)];
          waiting := Drop(waiting, k);
        } else {
          k := k + 1;
        }
        done := done + 1;
      }
      assert all[..done] == all;
    }

    /**
      xEventGroupSetBits.  Exactly the waiters met by old | set are released, all of them are
      told old | set, and what is left is old | set without what they asked to have cleared.
     */
    method SetBits(bitsToSet: EventBits)
      requires Valid() && UserBits(bitsToSet)
      modifies this
      ensures Valid()
      ensures var s := Union(old(eventBits), bitsToSet);
              && waiting == Kept(old(waiting), old(items), s) && Delivered(old(items), items, old(waiting), s)
              && eventBits == Cleared(s, ClearMask(old(waiting), old(items), s))
      // By the bits: who is released, what they find, and what is left.
      ensures var s := Union(old(eventBits), bitsToSet);
              forall t :: t in old(waiting) ==>
                t in old(items) && t in items &&
                var v, w := old(items)[t], WaitedFor(old(items)[t]);
                var met := if Common(v, WAIT_FOR_ALL_BITS) then Within(w, s) else Common(s, w);
                && (t in waiting <==> !met)
                && (!met ==> items[t] == v)
                && (met ==> WaitedFor(items[t]) == s && Common(items[t], UNBLOCKED_DUE_TO_BIT_SET))
                && (met && Common(v, CLEAR_EVENTS_ON_EXIT_BIT) ==> !Common(eventBits, w))
      ensures Within(eventBits, Union(old(eventBits), bitsToSet))
      ensures forall b :: Within(b, Union(old(eventBits), bitsToSet)) && SparedBy(old(items), old(waiting), waiting, b) ==>
                Within(b, eventBits)
    {
      hide Satisfied, ClearedOnExit, Stamped, Union, Cleared, Kept, ClearMask, Delivered, UserBits, Within, Common, SparedBy;
      hide WaitedFor;
      ghost var was, before := items, waiting;
      UserBitsClosed(eventBits, bitsToSet);
      eventBits := Union(eventBits, bitsToSet);
      ghost var s := eventBits;
      var bitsToClear := ReleaseSatisfied();
      UserBitsClosed(s, bitsToClear);
      eventBits := Cleared(eventBits, bitsToClear);
      KeptWaits(before, was, items, s, bitsToClear);
      SettingMeans(before, was, items, s);
    }

    /**
      xEventGroupSetBits to its end.  Resuming the scheduler may let other tasks set and clear
      bits before the value is read: what it returns is what is left then, and meets no waiter.
     */
    method SetBitsAndRead(bitsToSet: EventBits, meanwhile: seq<Call>) returns (r: EventBits)
      requires Valid() && UserBits(bitsToSet) && forall c :: c in meanwhile ==> UserBits(c.bits)
      modifies this
      ensures Valid() && r == eventBits && UserBits(r)
      ensures forall t :: t in waiting ==> t in items && !Satisfied(items[t], r)
      ensures var s := Union(old(eventBits), bitsToSet);
              var left := Cleared(s, ClearMask(old(waiting), old(items), s));
              && (meanwhile == [] ==> r == left)
              && ((forall c :: c in meanwhile ==> c.Clearing?) ==>
                    Within(r, left) && waiting == Kept(old(waiting), old(items), s))
    {
      hide Satisfied, Union, Cleared, Kept, ClearMask, Delivered, Within, UserBits, Common, SparedBy, WaitedFor;
      SetBits(bitsToSet);
      ghost var left, kept := eventBits, waiting;
      WithinItself(left);
      var i := 0;
      while i < |meanwhile|
        invariant i <= |meanwhile| && Valid()
        invariant i == 0 ==> eventBits == left
        invariant (forall c :: c in meanwhile ==> c.Clearing?) ==> Within(eventBits, left) && waiting == kept
      {
        assert meanwhile[i] in meanwhile;
        match meanwhile[i] {
          case Setting(bits) => SetBits(bits);
          case Clearing(bits) =>
            ClearedWithin(eventBits, bits, left);
            var _ := ClearBits(bits);
        }
        i := i + 1;
      }
      r := eventBits;
    }

    /** The first half of xEventGroupWaitBits: the value returned, or None if the task now waits. */
    method WaitBits(t: Task, waitFor: EventBits, clear: bool, all: bool, canBlock: bool) returns (r: Option<EventBits>)
      requires Valid() && UserBits(waitFor) && waitFor != 0 && t !in waiting
      modifies this
      ensures Valid()
      ensures var met := TestWaitCondition(old(eventBits), waitFor, all);
              && (met || !canBlock ==> r == Some(old(eventBits)) && waiting == old(waiting) && items == old(items))
              && (!met && canBlock ==> r == None && waiting == old(waiting) + [t]
                                       && items == old(items)[t := Packed(waitFor, clear, all)])
              && eventBits == if met && clear then Cleared(old(eventBits), waitFor) else old(eventBits)
      // By the bits.
      ensures r.Some? ==> r.value == old(eventBits)
      ensures canBlock ==> (r.Some? <==> if all then Within(waitFor, old(eventBits)) else Common(old(eventBits), waitFor))
      ensures eventBits == if clear && (if all then Within(waitFor, old(eventBits)) else Common(old(eventBits), waitFor))
                           then Cleared(old(eventBits), waitFor) else old(eventBits)
      ensures r.None? ==>
                && t in items && WaitedFor(items[t]) == waitFor
                && (Common(items[t], WAIT_FOR_ALL_BITS) <==> all) && (Common(items[t], CLEAR_EVENTS_ON_EXIT_BIT) <==> clear)
                && !Common(items[t], UNBLOCKED_DUE_TO_BIT_SET)
    {
      hide Satisfied, Cleared, Packed, UserBits, TestWaitCondition, Within, Common, WaitedFor;
      ConditionMeans(eventBits, waitFor, clear, all);
      var current := eventBits;
      if TestWaitCondition(current, waitFor, all) {
        r := Some(current);
        if clear {
          ClearedStaysValid(waitFor);
          eventBits := Cleared(eventBits, waitFor);
        }
      } else if !canBlock {
        r := Some(current);
      } else {
        PackedRoundTrip(waitFor, clear, all, eventBits);
        items := items[t := Packed(waitFor, clear, all)];
        waiting := waiting + [t];
        r := None;
      }
    }

    /** Clearing bits while nobody's condition is met leaves nobody's condition met. */
    lemma ClearedStaysValid(mask: EventBits)
      requires Valid()
      ensures UserBits(Cleared(eventBits, mask))
      ensures forall t :: t in waiting ==> t in items && !Satisfied(items[t], Cleared(eventBits, mask))
    {
      hide Satisfied, Cleared, UserBits;
      UserBitsClosed(eventBits, mask);
      forall t | t in waiting
        ensures t in items && !Satisfied(items[t], Cleared(eventBits, mask))
      {
        assert Waits(t);
        if Satisfied(items[t], Cleared(eventBits, mask)) {
          ClearingSatisfiesNone(items[t], eventBits, mask);
          assert false;
        }
      }
    }

    /** The second half of xEventGroupWaitBits, when the task runs again: released, or timed out. */
    method AfterWait(t: Task, waitFor: EventBits, clear: bool, all: bool, ordinary: EventBits) returns (r: EventBits)
      requires Valid() && t !in waiting && t in items
      modifies this
      ensures Valid() && waiting == old(waiting) && items == old(items)[t := ordinary]
      ensures forall s :: UserBits(s) && old(items[t]) == Stamped(s) ==> r == s && eventBits == old(eventBits)
      ensures old(items[t]) & UNBLOCKED_DUE_TO_BIT_SET == 0 ==>
                && r == old(eventBits)
                && eventBits == if TestWaitCondition(r, waitFor, all) && clear then Cleared(r, waitFor) else r
      ensures UserBits(waitFor) && old(items[t]) & UNBLOCKED_DUE_TO_BIT_SET == 0 ==>
                eventBits == if clear && (if all then Within(waitFor, r) else Common(r, waitFor)) then Cleared(r, waitFor) else r
    {
      hide Satisfied, Cleared, UserBits, Stamped, TestWaitCondition, Within, Common;
      if UserBits(waitFor) {
        ConditionMeans(eventBits, waitFor, clear, all);
      }
      var value := items[t];
      items := items[t := ordinary];
      ghost var before := eventBits;
      if value & UNBLOCKED_DUE_TO_BIT_SET == 0 {
        r := eventBits;
        if TestWaitCondition(r, waitFor, all) {
          if clear {
            ClearedStaysValid(waitFor);
            eventBits := Cleared(eventBits, waitFor);
          }
        }
        UserBitsAlone(r);
      } else {
        r := value;
      }
      StampedBits(value, before);
      r := WaitedFor(r);
    }

    /** The first half of xEventGroupSync. */
    method Sync(t: Task, bitsToSet: EventBits, waitFor: EventBits, canBlock: bool) returns (r: Option<EventBits>)
      requires Valid() && UserBits(bitsToSet) && UserBits(waitFor) && waitFor != 0 && t !in waiting
      modifies this
      ensures Valid()
      ensures var s := Union(old(eventBits), bitsToSet);
              var kept, left := Kept(old(waiting), old(items), s), Cleared(s, ClearMask(old(waiting), old(items), s));
              if TestWaitCondition(s, waitFor, true) then
                && r == Some(s) && waiting == kept && Delivered(old(items), items, old(waiting), s)
                && eventBits == Cleared(left, waitFor)
              else if canBlock then
                && r == None && waiting == kept + [t] && eventBits == left
                && t in items && items[t] == Packed(waitFor, true, true)
                && (forall u :: u in old(items) && u != t ==> u in items && Told(old(items), items, old(waiting), s, u))
              else
                r == Some(left) && waiting == kept && Delivered(old(items), items, old(waiting), s) && eventBits == left
      // By the bits.
      ensures canBlock ==> (r.Some? <==> Within(waitFor, Union(old(eventBits), bitsToSet)))
      ensures Within(waitFor, Union(old(eventBits), bitsToSet)) ==>
                r == Some(Union(old(eventBits), bitsToSet)) && !Common(eventBits, waitFor)
      ensures r.Some? && !Within(waitFor, Union(old(eventBits), bitsToSet)) ==> r == Some(eventBits)
      ensures r.None? ==>
                && t in items && WaitedFor(items[t]) == waitFor && Common(items[t], WAIT_FOR_ALL_BITS)
                && Common(items[t], CLEAR_EVENTS_ON_EXIT_BIT) && !Common(items[t], UNBLOCKED_DUE_TO_BIT_SET)
    {
      hide Within, Common, WaitedFor, SparedBy;
      hide Satisfied, Union, Cleared, Packed, UserBits, TestWaitCondition, Kept, ClearMask, Delivered;
      var original := eventBits;
      ghost var before, was := waiting, items;
      ConditionMeans(Union(eventBits, bitsToSet), waitFor, true, true);
      WithinItself(waitFor);
      SetBits(bitsToSet);
      ClearedBits(eventBits, waitFor, waitFor);
      KeptOnly(before, was, Union(original, bitsToSet), t);
      if TestWaitCondition(Union(original, bitsToSet), waitFor, true) {
        r := Some(Union(original, bitsToSet));
        ClearedStaysValid(waitFor);
        eventBits := Cleared(eventBits, waitFor);
      } else if canBlock {
        StillUnmet(Union(original, bitsToSet), ClearMask(before, was, Union(original, bitsToSet)), waitFor);
        PackedRoundTrip(waitFor, true, true, eventBits);
        ToldAll(was, items, before, Union(original, bitsToSet));
        items := items[t := Packed(waitFor, true, true)];
        waiting := waiting + [t];
        r := None;
      } else {
        r := Some(eventBits);
      }
    }

    /** The second half of xEventGroupSync: a rendezvous completed after the time-out still clears. */
    method AfterSync(t: Task, waitFor: EventBits, ordinary: EventBits) returns (r: EventBits)
      requires Valid() && t !in waiting && t in items
      modifies this
      ensures Valid() && waiting == old(waiting) && items == old(items)[t := ordinary]
      ensures forall s :: UserBits(s) && old(items[t]) == Stamped(s) ==> r == s && eventBits == old(eventBits)
      ensures old(items[t]) & UNBLOCKED_DUE_TO_BIT_SET == 0 ==>
                && r == old(eventBits)
                && eventBits == if TestWaitCondition(r, waitFor, true) then Cleared(r, waitFor) else r
    {
      r := AfterWait(t, waitFor, true, true, ordinary);
    }

    /** xEventGroupClearBits */
    method ClearBits(bitsToClear: EventBits) returns (was: EventBits)
      requires Valid() && UserBits(bitsToClear)
      modifies `eventBits
      ensures Valid() && was == old(eventBits) && eventBits == Cleared(old(eventBits), bitsToClear)
      ensures Within(eventBits, was) && !Common(eventBits, bitsToClear)
      ensures forall b :: Within(b, was) && !Common(b, bitsToClear) ==> Within(b, eventBits)
    {
      hide Satisfied, Cleared, UserBits, Within, Common;
      WithinItself(bitsToClear);
      ClearedBits(eventBits, bitsToClear, bitsToClear);
      forall b | Within(b, eventBits) && !Common(b, bitsToClear)
        ensures Within(b, Cleared(eventBits, bitsToClear))
      {
        SparedBits(b, eventBits, bitsToClear);
      }
      was := eventBits;
      ClearedStaysValid(bitsToClear);
      eventBits := Cleared(eventBits, bitsToClear);
    }

    /** A tick, or a suspension, takes a task off the list; its item value stays as it is. */
    method StopWaiting(t: Task)
      requires Valid()
      modifies `waiting
      ensures Valid() && waiting == Without(old(waiting), t)
    {
      hide Satisfied, UserBits;
      if t in waiting {
        DropNoDuplicates(waiting, PositionOf(waiting, t));
      }
      waiting := Without(waiting, t);
    }

    /** vEventGroupDelete: every waiter is released and told that no bit is set. */
    method ReleaseAll()
      requires Valid()
      modifies `waiting, `items
      ensures waiting == [] && items.Keys == old(items.Keys)
      ensures forall t :: t in items ==> items[t] == if t in old(waiting) then Stamped(0) else old(items[t])
    {
      hide Satisfied, UserBits, Stamped;
      ghost var all, was := waiting, items;
      ghost var done := 0;
      while |waiting| > 0
        invariant done <= |all| && waiting == Tail(all, done) && items.Keys == was.Keys
        invariant forall t :: t in items ==> items[t] == if t in all[..done] then Stamped(0) else was[t]
        decreases |waiting|
      {
        var t := waiting[0];
        assert t == all[done] && t in all;
        items := items[t := Stamped(0)];
        TailTwice(all, done);
        assert Drop(waiting, 0) == Tail(waiting, 1);
        waiting := Drop(waiting, 0);
        assert forall u :: u in all[..done + 1] <==> u in all[..done] || u == t;
        done := done + 1;
      }
      assert all[..done] == all;
    }
  }

  /** What task u finds in its item after the walk. */
  ghost predicate Told(was: Items, now: Items, waiting: seq<Task>, bits: EventBits, u: Task)
    requires u in was && u in now
  {
    now[u] == if u in waiting && Matches(was, u, bits) then Stamped(bits) else was[u]
  }

  lemma ToldAll(was: Items, now: Items, waiting: seq<Task>, bits: EventBits)
    requires Delivered(was, now, waiting, bits)
    ensures forall u :: u in was ==> u in now && Told(was, now, waiting, bits, u)
  {
    hide Satisfied, Stamped;
  }

  lemma UserBitsAlone(bits: EventBits)
    requires UserBits(bits)
    ensures WaitedFor(bits) == bits
  {
  }

  lemma StampedBits(value: EventBits, now: EventBits)
    ensures forall s :: UserBits(s) && value == Stamped(s) ==>
              WaitedFor(value) == s && value & UNBLOCKED_DUE_TO_BIT_SET != 0
  {
    forall s | UserBits(s) && value == Stamped(s)
      ensures WaitedFor(value) == s && value & UNBLOCKED_DUE_TO_BIT_SET != 0
    {
      StampedRoundTrip(s);
    }
  }

  lemma KeptOnly(waiting: seq<Task>, items: Items, bits: EventBits, t: Task)
    requires t !in waiting
    ensures t !in Kept(waiting, items, bits)
  {
  }

  /** Bits that do not meet a condition do not meet it with some of them cleared either. */
  lemma StillUnmet(bits: EventBits, mask: EventBits, waitFor: EventBits)
    requires !TestWaitCondition(bits, waitFor, true)
    ensures !TestWaitCondition(Cleared(bits, mask), waitFor, true)
  {
  }

  /** The waiters left on the list are unmet by the bits left. */
  lemma KeptWaits(before: seq<Task>, was: Items, now: Items, s: EventBits, mask: EventBits)
    requires NoDuplicates(before) && Delivered(was, now, before, s)
    requires forall t :: t in before ==> t in was && was[t] & UNBLOCKED_DUE_TO_BIT_SET == 0
    ensures NoDuplicates(Kept(before, was, s))
    ensures forall t :: t in Kept(before, was, s) ==>
              t in now && now[t] & UNBLOCKED_DUE_TO_BIT_SET == 0 && !Satisfied(now[t], Cleared(s, mask))
  {
    hide Satisfied, Stamped, Cleared, UserBits;
    KeptDistinct(before, was, s);
    forall t | t in Kept(before, was, s)
      ensures t in now && now[t] & UNBLOCKED_DUE_TO_BIT_SET == 0 && !Satisfied(now[t], Cleared(s, mask))
    {
      assert t in was && now[t] == was[t];
      if Satisfied(now[t], Cleared(s, mask)) {
        ClearingSatisfiesNone(now[t], s, mask);
        assert false;
      }
    }
  }

  /** A released task finds bits that meet the condition it waited for. */
  lemma ReleasedMeetsCondition(was: Items, now: Items, waiting: seq<Task>, s: EventBits, t: Task,
                               waitFor: EventBits, clear: bool, all: bool)
    requires Delivered(was, now, waiting, s) && t in was && was[t] == Packed(waitFor, clear, all)
    requires UserBits(s) && UserBits(waitFor)
    ensures t in waiting && TestWaitCondition(s, waitFor, all) <==> now[t] & UNBLOCKED_DUE_TO_BIT_SET != 0
    ensures now[t] & UNBLOCKED_DUE_TO_BIT_SET != 0 ==> WaitedFor(now[t]) == s
  {
    PackedRoundTrip(waitFor, clear, all, s);
    StampedRoundTrip(s);
    hide Satisfied, Stamped, Packed, TestWaitCondition, UserBits, WaitedFor;
  }

  /** Completing a rendezvous releases each sync waiter it covers, tells it everything, and clears its bits. */
  lemma RendezvousCompletes(was: Items, now: Items, waiting: seq<Task>, s: EventBits, u: Task, waitFor: EventBits)
    requires Delivered(was, now, waiting, s) && UserBits(s) && UserBits(waitFor)
    requires u in waiting && u in was && was[u] == Packed(waitFor, true, true) && TestWaitCondition(s, waitFor, true)
    ensures u !in Kept(waiting, was, s) && now[u] == Stamped(s)
    ensures Cleared(s, ClearMask(waiting, was, s)) & waitFor == 0
  {
    PackedRoundTrip(waitFor, true, true, s);
    hide Satisfied, Stamped, Packed, TestWaitCondition, UserBits, WaitedFor, Within, ClearMask, ClearedOnExit, Cleared;
    ClearMaskCovers(waiting, was, s, u);
    WithinIsCleared(s, waitFor, ClearMask(waiting, was, s));
  }

  lemma WithinIsCleared(bits: EventBits, waitFor: EventBits, mask: EventBits)
    requires Within(waitFor, mask)
    ensures Cleared(bits, mask) & waitFor == 0
  {
  }
}
