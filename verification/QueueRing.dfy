/**
  The storage of a queue (queue.c): a byte array cut into slots of uxItemSize bytes,
  a write pointer and a read pointer that stands one slot before the oldest item.
  The ring is proved to be a deque of items that holds at most uxLength of them.
  A semaphore is the queue whose items have size zero.
 */
module QueueRing {
  import opened KernelConfig
  import opened Rings

  type Item = seq<Byte>

  /** queueSEND_TO_BACK, queueSEND_TO_FRONT and queueOVERWRITE */
  datatype Position = Back | Front | Overwrite

  // ---------------------------------------------------------------- slots

  lemma {:induction false} SlotBounds(k: nat, n: nat, size: nat)
    requires k < n
    ensures k * size + size <= n * size
  {
    if k + 1 < n {
      SlotBounds(k, n - 1, size);
    }
  }

  function SlotOf(bytes: seq<Byte>, n: nat, size: nat, k: nat): (r: Item)
    requires |bytes| == n * size && k < n
    ensures |r| == size
  {
    SlotBounds(k, n, size);
    bytes[k * size..k * size + size]
  }

  /** The storage read as a table of n items. */
  function Slots(bytes: seq<Byte>, n: nat, size: nat): (r: seq<Item>)
    requires |bytes| == n * size
    ensures |r| == n
  {
    seq(n, k requires 0 <= k < n => SlotOf(bytes, n, size, k))
  }

  ghost predicate Overwrites(was: seq<Byte>, now: seq<Byte>, from: nat, item: Item) {
    && |now| == |was| && from + |item| <= |was|
    && (forall b :: 0 <= b < |was| ==> now[b] == if from <= b < from + |item| then item[b - from] else was[b])
  }

  /** The bytes at an offset either are the ones just written, or stay clear of them. */
  lemma CopyAtOffset(was: seq<Byte>, now: seq<Byte>, from: nat, item: Item, at: nat)
    requires Overwrites(was, now, from, item) && at + |item| <= |was|
    requires at == from || at + |item| <= from || from + |item| <= at
    ensures now[at..at + |item|] == if at == from then item else was[at..at + |item|]
  {
  }

  lemma SlotsApart(j: nat, k: nat, size: nat)
    requires j != k
    ensures j * size + size <= k * size || k * size + size <= j * size
  {
    if j < k {
      SlotBounds(j, k, size);
    } else {
      SlotBounds(k, j, size);
    }
  }

  lemma CopyOneSlot(was: seq<Byte>, now: seq<Byte>, n: nat, k: nat, item: Item, j: nat)
    requires |was| == n * |item| && k < n && j < n
    requires Overwrites(was, now, k * |item|, item)
    ensures SlotOf(now, n, |item|, j) == if j == k then item else SlotOf(was, n, |item|, j)
  {
    SlotBounds(j, n, |item|);
    if j != k {
      SlotsApart(j, k, |item|);
    }
    CopyAtOffset(was, now, k * |item|, item, j * |item|);
    if j != k && j * |item| == k * |item| {
      assert |item| == 0;
    }
  }

  /** Copying an item to a slot's offset changes that slot and no other. */
  lemma CopyToSlot(was: seq<Byte>, now: seq<Byte>, n: nat, k: nat, item: Item)
    requires |was| == n * |item| && k < n
    requires Overwrites(was, now, k * |item|, item)
    ensures Slots(now, n, |item|) == Slots(was, n, |item|)[k := item]
  {
    assert |now| == |was|;
    hide Overwrites, SlotOf;
    forall j | 0 <= j < n
      ensures SlotOf(now, n, |item|, j) == if j == k then item else SlotOf(was, n, |item|, j)
    {
      CopyOneSlot(was, now, n, k, item, j);
    }
  }

  // ---------------------------------------------------------------- the ring of slots

  lemma RingPushBack(slots: seq<Item>, first: nat, count: nat, item: Item)
    requires first < |slots| && count < |slots|
    ensures Around(slots[Wrap(|slots|, first + count) := item], first, count + 1)
         == Around(slots, first, count) + [item]
  {
    var n := |slots|;
    var r, was := Around(slots[Wrap(n, first + count) := item], first, count + 1), Around(slots, first, count);
    forall i | 0 <= i < count
      ensures r[i] == was[i]
    {
      assert Wrap(n, first + i) != Wrap(n, first + count);
    }
    assert r[count] == item;
    assert r == was + [item];
  }

  lemma RingPushFront(slots: seq<Item>, first: nat, count: nat, item: Item)
    requires first < |slots| && count < |slots|
    ensures var p := if first == 0 then |slots| - 1 else first - 1;
            Around(slots[p := item], p, count + 1) == [item] + Around(slots, first, count)
  {
    var p := if first == 0 then |slots| - 1 else first - 1;
    var r, was := Around(slots[p := item], p, count + 1), Around(slots, first, count);
    forall i | 0 < i <= count
      ensures r[i] == was[i - 1]
    {
      assert Wrap(|slots|, p + i) == Wrap(|slots|, first + (i - 1)) != p;
    }
    assert Wrap(|slots|, p + 0) == p;
    assert r == [item] + was;
  }

  lemma RingPopFront(slots: seq<Item>, first: nat, count: nat)
    requires first < |slots| && 0 < count <= |slots|
    ensures [slots[first]] + Around(slots, Wrap(|slots|, first + 1), count - 1) == Around(slots, first, count)
  {
    var second := Wrap(|slots|, first + 1);
    var r, was := Around(slots, second, count - 1), Around(slots, first, count);
    forall i | 0 < i < count
      ensures r[i - 1] == was[i]
    {
      assert Wrap(|slots|, second + (i - 1)) == Wrap(|slots|, first + i);
    }
    assert Wrap(|slots|, first + 0) == first;
    assert [slots[first]] + r == was;
  }

  /** A ring of one slot, which is full: what is written replaces the only item. */
  lemma RingOfOne(slots: seq<Item>, count: nat, item: Item)
    requires |slots| == 1 == count
    ensures Around(slots[0 := item], 0, 1) == Sent(Around(slots, 0, 1), item, Overwrite) == [item]
  {
    assert Wrap(1, 0 + 0) == 0;
  }

  // ---------------------------------------------------------------- the deque

  /** What a successful send does to the items, oldest first. */
  function Sent(items: seq<Item>, item: Item, position: Position): seq<Item> {
    match position
    case Back => items + [item]
    case Front => [item] + items
    case Overwrite => [item] + if items == [] then [] else items[1..]
  }

  /** A send is accepted if there is room, and an overwrite always. */
  predicate Accepts(items: seq<Item>, length: nat, position: Position) {
    |items| < length || position.Overwrite?
  }

  datatype Step = Send(item: Item, position: Position) | Receive | Peek

  /** What one call leaves in the queue, and what it handed out. */
  function After(items: seq<Item>, length: nat, step: Step): seq<Item> {
    match step
    case Send(item, position) => if Accepts(items, length, position) then Sent(items, item, position) else items
    case Receive => if items == [] then [] else items[1..]
    case Peek => items
  }

  function Taken(items: seq<Item>, step: Step): seq<Item> {
    if step.Receive? && items != [] then [items[0]] else []
  }

  function Given(items: seq<Item>, length: nat, step: Step): seq<Item> {
    if step.Send? && Accepts(items, length, step.position) then [step.item] else []
  }

  function RunItems(items: seq<Item>, length: nat, steps: seq<Step>): seq<Item>
    decreases |steps|
  {
    if steps == [] then items else RunItems(After(items, length, steps[0]), length, steps[1..])
  }

  function RunTaken(items: seq<Item>, length: nat, steps: seq<Step>): seq<Item>
    decreases |steps|
  {
    if steps == [] then [] else Taken(items, steps[0]) + RunTaken(After(items, length, steps[0]), length, steps[1..])
  }

  function RunGiven(items: seq<Item>, length: nat, steps: seq<Step>): seq<Item>
    decreases |steps|
  {
    if steps == [] then []
    else Given(items, length, steps[0]) + RunGiven(After(items, length, steps[0]), length, steps[1..])
  }

  lemma Chain<T>(a: seq<T>, out1: seq<T>, b: seq<T>, in1: seq<T>, out2: seq<T>, c: seq<T>, in2: seq<T>)
    requires out1 + b == a + in1 && out2 + c == b + in2
    ensures (out1 + out2) + c == a + (in1 + in2)
  {
    calc {
      (out1 + out2) + c;
      out1 + (out2 + c);
      (out1 + b) + in2;
      a + (in1 + in2);
    }
  }

  /** First in, first out: with sends to the back only, nothing is lost, invented or reordered. */
  lemma {:induction false} FirstInFirstOut(items: seq<Item>, length: nat, steps: seq<Step>)
    requires OnlyBack(steps)
    ensures RunTaken(items, length, steps) + RunItems(items, length, steps)
         == items + RunGiven(items, length, steps)
    decreases |steps|
  {
    if steps == [] {
      assert [] + items == items + [];
    } else {
      var s, next := steps[0], After(items, length, steps[0]);
      FirstInFirstOut(next, length, steps[1..]);
      assert s in steps;
      assert Taken(items, s) + next == items + Given(items, length, s);
      hide After, Taken, Given;
      Chain(items, Taken(items, s), next, Given(items, length, s), RunTaken(next, length, steps[1..]),
            RunItems(next, length, steps[1..]), RunGiven(next, length, steps[1..]));
    }
  }

  lemma OneStepLosesNothing(items: seq<Item>, length: nat, s: Step)
    requires |items| <= length && (s.Send? ==> !s.position.Overwrite?)
    ensures |After(items, length, s)| <= length
    ensures multiset(Taken(items, s)) + multiset(After(items, length, s))
         == multiset(items) + multiset(Given(items, length, s))
  {
    if s.Receive? && items != [] {
      assert items == [items[0]] + items[1..];
    }
  }

  lemma Balance<T>(a: seq<T>, out1: seq<T>, b: seq<T>, in1: seq<T>, out2: seq<T>, c: seq<T>, in2: seq<T>)
    requires multiset(out1) + multiset(b) == multiset(a) + multiset(in1)
    requires multiset(out2) + multiset(c) == multiset(b) + multiset(in2)
    ensures multiset(out1 + out2) + multiset(c) == multiset(a) + multiset(in1 + in2)
  {
    assert multiset(out1 + out2) == multiset(out1) + multiset(out2);
    assert multiset(in1 + in2) == multiset(in1) + multiset(in2);
    calc {
      multiset(out1) + multiset(out2) + multiset(c);
      multiset(out1) + (multiset(out2) + multiset(c));
      multiset(out1) + (multiset(b) + multiset(in2));
      (multiset(out1) + multiset(b)) + multiset(in2);
      (multiset(a) + multiset(in1)) + multiset(in2);
    }
  }

  /** With sends to either end no item is lost or duplicated, and the length is never exceeded. */
  lemma {:induction false} NothingLost(items: seq<Item>, length: nat, steps: seq<Step>)
    requires |items| <= length
    requires NoOverwrite(steps)
    ensures multiset(RunTaken(items, length, steps)) + multiset(RunItems(items, length, steps))
         == multiset(items) + multiset(RunGiven(items, length, steps))
    ensures |RunItems(items, length, steps)| <= length
    decreases |steps|
  {
    if steps == [] {
    } else {
      assert steps[0] in steps;
      hide After, Taken, Given;
      var s := steps[0];
      var next := After(items, length, s);
      OneStepLosesNothing(items, length, s);
      NothingLost(next, length, steps[1..]);
      Balance(items, Taken(items, s), next, Given(items, length, s), RunTaken(next, length, steps[1..]),
              RunItems(next, length, steps[1..]), RunGiven(next, length, steps[1..]));
    }
  }

  ghost predicate OnlyBack(steps: seq<Step>) {
    forall s :: s in steps && s.Send? ==> s.position.Back?
  }

  ghost predicate NoOverwrite(steps: seq<Step>) {
    forall s :: s in steps && s.Send? ==> !s.position.Overwrite?
  }

  /** A call the queue takes: the item has its size, and only a queue of one, which is no semaphore, is overwritten. */
  predicate Fits(step: Step, length: nat, itemSize: nat) {
    step.Send? ==> |step.item| == itemSize && (step.position.Overwrite? ==> length == 1 && itemSize > 0)
  }

  lemma RunStep(items: seq<Item>, length: nat, steps: seq<Step>, i: nat)
    requires i < |steps|
    ensures var next := After(items, length, steps[i]);
            && RunItems(items, length, steps[i..]) == RunItems(next, length, steps[i + 1..])
            && RunTaken(items, length, steps[i..]) == Taken(items, steps[i]) + RunTaken(next, length, steps[i + 1..])
            && RunGiven(items, length, steps[i..]) == Given(items, length, steps[i]) + RunGiven(next, length, steps[i + 1..])
  {
    assert steps[i..][0] == steps[i] && steps[i..][1..] == steps[i + 1..];
  }

  lemma RunNothing(items: seq<Item>, length: nat, steps: seq<Step>)
    requires steps == []
    ensures RunItems(items, length, steps) == items && RunTaken(items, length, steps) == [] == RunGiven(items, length, steps)
  {
  }

  lemma Append<T>(a: seq<T>, b: seq<T>, c: seq<T>)
    ensures a + (b + c) == (a + b) + c
  {
  }

  // ---------------------------------------------------------------- the queue

  class Queue {
    const length: nat
    const itemSize: nat
    const storage: array<Byte>
    var messagesWaiting: nat
    /** pcWriteTo and pcReadFrom, as offsets from pcHead. */
    var writeTo: int
    var readFrom: int
    /** The slot of the oldest item. */
    ghost var first: nat

    ghost predicate Valid()
      reads this, storage
    {
      && length >= 1 && storage.Length == length * itemSize && first < length
      && (itemSize == 0 ==> writeTo == 0 && readFrom == 0)
      && (itemSize > 0 ==>
            && messagesWaiting <= length
            && writeTo == Wrap(length, first + messagesWaiting) * itemSize
            && readFrom == (if first == 0 then length - 1 else first - 1) * itemSize)
    }

    /** The items in the queue, oldest first. */
    ghost function Contents(): (r: seq<Item>)
      requires Valid()
      reads this, storage
      ensures |r| == messagesWaiting
    {
      if itemSize == 0 then seq(messagesWaiting, _ => [])
      else Around(Slots(storage[..], length, itemSize), first, messagesWaiting)
    }

    constructor (length: nat, itemSize: nat)
      requires length >= 1
      ensures Valid() && fresh(storage) && Contents() == []
      ensures this.length == length && this.itemSize == itemSize
    {
      this.length, this.itemSize := length, itemSize;
      storage := new Byte[length * itemSize];
      messagesWaiting, writeTo, first := 0, 0, 0;
      readFrom := (length - 1) * itemSize;
      new;
      Empties();
    }

    lemma Empties()
      requires itemSize == 0 ==> readFrom == (length - 1) * itemSize
      ensures itemSize == 0 ==> readFrom == 0
    {
    }

    /** xQueueGenericReset, as far as the items are concerned. */
    method Reset()
      requires Valid()
      modifies this
      ensures Valid() && Contents() == []
    {
      messagesWaiting, writeTo, first := 0, 0, 0;
      readFrom := (length - 1) * itemSize;
      Empties();
    }

    /** memcpy into the storage */
    method CopyIn(from: nat, item: Item)
      requires from + |item| <= storage.Length
      modifies storage
      ensures Overwrites(old(storage[..]), storage[..], from, item)
    {
      forall b | 0 <= b < |item| {
        storage[from + b] := item[b];
      }
    }

    /** The first data branch of prvCopyDataToQueue. */
    method WriteBehind(item: Item)
      requires Valid() && |item| == itemSize > 0 && messagesWaiting < length
      modifies this`writeTo, storage
      ensures Slots(storage[..], length, itemSize)
           == old(Slots(storage[..], length, itemSize))[Wrap(length, first + messagesWaiting) := item]
      ensures writeTo == Wrap(length, Wrap(length, first + messagesWaiting) + 1) * itemSize
    {
      ghost var was, k := storage[..], Wrap(length, first + messagesWaiting);
      SlotBounds(k, length, itemSize);
      CopyIn(writeTo, item);
      CopyToSlot(was, storage[..], length, k, item);
      writeTo := writeTo + itemSize;
      SlotStep(k, length, itemSize);
      if writeTo >= length * itemSize {
        writeTo := 0;
      }
    }

    /** The second data branch: write where the read pointer stands, and move it back. */
    method WriteAhead(item: Item)
      requires Valid() && |item| == itemSize > 0
      modifies this`readFrom, this`first, storage
      ensures first == if old(first) == 0 then length - 1 else old(first) - 1
      ensures Slots(storage[..], length, itemSize) == old(Slots(storage[..], length, itemSize))[first := item]
      ensures readFrom == (if first == 0 then length - 1 else first - 1) * itemSize
    {
      ghost var was := storage[..];
      first := if first == 0 then length - 1 else first - 1;
      SlotBounds(first, length, itemSize);
      CopyIn(readFrom, item);
      CopyToSlot(was, storage[..], length, first, item);
      readFrom := readFrom - itemSize;
      SlotBack(first, length, itemSize);
      if readFrom < 0 {
        readFrom := length * itemSize - itemSize;
      }
    }

    /** prvCopyDataToQueue; a mutex holder is the business of module Mutexes. */
    method CopyDataToQueue(item: Item, position: Position)
      requires Valid() && |item| == itemSize
      requires messagesWaiting < length || position.Overwrite?
      requires position.Overwrite? ==> length == 1
      modifies this, storage
      ensures Valid()
      ensures itemSize > 0 ==> Contents() == Sent(old(Contents()), item, position)
      ensures itemSize == 0 ==> Contents() == old(Contents()) + [item]
      ensures itemSize > 0 && position.Back? ==> Contents() == old(Contents()) + [item]
      ensures itemSize > 0 && position.Front? ==> Contents() == [item] + old(Contents())
      ensures itemSize > 0 && position.Overwrite? ==> Contents() == [item]
    {
      var messages := messagesWaiting;
      ghost var slots := Slots(storage[..], length, itemSize);
      if itemSize == 0 {
      } else if position.Back? {
        RingPushBack(slots, first, messages, item);
        WriteBehind(item);
      } else {
        if messages < length {
          RingPushFront(slots, first, messages, item);
        } else {
          RingOfOne(slots, messages, item);
        }
        WriteAhead(item);
        if position.Overwrite? {
          if messages > 0 {
            messages := messages - 1;
          }
        }
      }
      messagesWaiting := messages + 1;
    }

    /** prvCopyDataFromQueue */
    method CopyDataFromQueue() returns (item: Item)
      requires Valid() && messagesWaiting > 0
      modifies this`readFrom
      ensures item == old(Contents())[0]
      ensures itemSize == 0 ==> readFrom == old(readFrom)
      ensures itemSize > 0 ==> readFrom == first * itemSize
    {
      item := [];
      if itemSize != 0 {
        ghost var p := if first == 0 then length - 1 else first - 1;
        readFrom := readFrom + itemSize;
        SlotStep(p, length, itemSize);
        if readFrom >= length * itemSize {
          readFrom := 0;
        }
        SlotBounds(first, length, itemSize);
        item := storage[readFrom..readFrom + itemSize];
        assert readFrom == first * itemSize;
        assert item == SlotOf(storage[..], length, itemSize, first);
        assert Wrap(length, first + 0) == first;
      }
    }

    /** The data path of xQueueGenericSend: the item goes in, or errQUEUE_FULL and no change. */
    method TrySend(item: Item, position: Position) returns (sent: bool)
      requires Valid() && |item| == itemSize
      requires position.Overwrite? ==> length == 1
      modifies this, storage
      ensures Valid()
      ensures sent == Accepts(old(Contents()), length, position)
      ensures sent <==> |old(Contents())| < length || position.Overwrite?
      ensures !sent ==> Contents() == old(Contents())
      // Behind the items, before them, or in place of the only one.
      ensures sent && position.Back? ==> Contents() == old(Contents()) + [item]
      ensures sent && position.Front? ==> Contents() == [item] + old(Contents())
      ensures sent && position.Overwrite? && itemSize > 0 ==> Contents() == [item]
      ensures itemSize > 0 ==> Contents() == After(old(Contents()), length, Send(item, position))
      ensures itemSize == 0 && !position.Overwrite? ==> Contents() == After(old(Contents()), length, Send(item, position))
      ensures sent && itemSize == 0 ==> Contents() == old(Contents()) + [item]
      // The count exceeds the length exactly when a full semaphore is overwritten.
      ensures old(messagesWaiting) <= length ==>
                (messagesWaiting > length <==> position.Overwrite? && itemSize == 0 && old(messagesWaiting) == length)
    {
      sent := messagesWaiting < length || position.Overwrite?;
      if sent {
        CopyDataToQueue(item, position);
        if itemSize == 0 {
          assert old(Contents()) + [item] == [item] + old(Contents());
        }
      }
    }

    /** The data path of xQueueReceive and, with items of size zero, xQueueSemaphoreTake. */
    method TryReceive() returns (item: Option<Item>)
      requires Valid()
      modifies this
      ensures Valid()
      ensures item == if old(Contents()) == [] then None else Some(old(Contents())[0])
      ensures Contents() == After(old(Contents()), length, Receive)
      ensures Contents() == if old(Contents()) == [] then [] else old(Contents())[1..]
    {
      hide SlotOf, Slots, Around;
      item := None;
      if messagesWaiting > 0 {
        var bytes := CopyDataFromQueue();
        item := Some(bytes);
        if itemSize > 0 {
          RingPopFront(Slots(storage[..], length, itemSize), first, messagesWaiting);
          ghost var second := Wrap(length, first + 1);
          assert Wrap(length, second + (messagesWaiting - 1)) == Wrap(length, first + messagesWaiting);
          assert first == if second == 0 then length - 1 else second - 1;
          first := second;
        }
        messagesWaiting := messagesWaiting - 1;
      }
    }

    /**
      Any run of sends, receives and peeks on the byte ring: taken is what the receives
      handed out, given what the sends put in, and both are those of the deque.
     */
    method Run(steps: seq<Step>) returns (taken: seq<Item>, given: seq<Item>)
      requires Valid() && forall i :: 0 <= i < |steps| ==> Fits(steps[i], length, itemSize)
      modifies this, storage
      ensures Valid()
      ensures Contents() == RunItems(old(Contents()), length, steps)
      ensures taken == RunTaken(old(Contents()), length, steps) && given == RunGiven(old(Contents()), length, steps)
      ensures OnlyBack(steps) ==> taken + Contents() == old(Contents()) + given
      ensures NoOverwrite(steps) && |old(Contents())| <= length ==>
                && multiset(taken) + multiset(Contents()) == multiset(old(Contents())) + multiset(given)
                && |Contents()| <= length
    {
      hide RunItems, RunTaken, RunGiven, After, Taken, Given, Contents, Valid, Sent, Accepts;
      ghost var start := Contents();
      taken, given := [], [];
      var i := 0;
      assert steps[0..] == steps;
      while i < |steps|
        invariant i <= |steps| && Valid()
        invariant RunItems(start, length, steps) == RunItems(Contents(), length, steps[i..])
        invariant RunTaken(start, length, steps) == taken + RunTaken(Contents(), length, steps[i..])
        invariant RunGiven(start, length, steps) == given + RunGiven(Contents(), length, steps[i..])
      {
        ghost var before := Contents();
        var out, into := OneStep(steps[i]);
        RunStep(before, length, steps, i);
        Append(taken, out, RunTaken(Contents(), length, steps[i + 1..]));
        Append(given, into, RunGiven(Contents(), length, steps[i + 1..]));
        taken, given := taken + out, given + into;
        i := i + 1;
      }
      RunNothing(Contents(), length, steps[i..]);
      if OnlyBack(steps) {
        FirstInFirstOut(start, length, steps);
      }
      if NoOverwrite(steps) && |start| <= length {
        NothingLost(start, length, steps);
      }
    }

    method OneStep(step: Step) returns (out: seq<Item>, into: seq<Item>)
      requires Valid() && Fits(step, length, itemSize)
      modifies this, storage
      ensures Valid() && Contents() == After(old(Contents()), length, step)
      ensures out == Taken(old(Contents()), step) && into == Given(old(Contents()), length, step)
    {
      out, into := [], [];
      match step {
        case Send(item, position) =>
          var sent := TrySend(item, position);
          if sent {
            into := [item];
          }
        case Receive =>
          var received := TryReceive();
          if received.Some? {
            out := [received.value];
          }
        case Peek =>
          var _ := TryPeek();
      }
    }

    /** The data path of xQueuePeek: the read pointer is put back. */
    method TryPeek() returns (item: Option<Item>)
      requires Valid()
      modifies this`readFrom
      ensures Valid() && readFrom == old(readFrom)
      ensures item == if Contents() == [] then None else Some(Contents()[0])
      ensures Contents() == old(Contents())
    {
      item := None;
      if messagesWaiting > 0 {
        var original := readFrom;
        var bytes := CopyDataFromQueue();
        item := Some(bytes);
        readFrom := original;
      }
    }
  }

  /**
    Last in, first out: over any series of sends to the front for which there is room, and as
    many receives, the items come out in reverse order and the older ones keep theirs.
   */
  method LastInFirstOut(q: Queue, items: seq<Item>) returns (taken: seq<Item>)
    requires q.Valid() && forall i :: 0 <= i < |items| ==> |items[i]| == q.itemSize
    requires |q.Contents()| + |items| <= q.length
    modifies q, q.storage
    ensures q.Valid() && q.Contents() == old(q.Contents())
    ensures |taken| == |items| && forall i :: 0 <= i < |items| ==> taken[i] == items[|items| - 1 - i]
  {
    hide Queue.Valid, Queue.Contents, Sent, After, Accepts;
    ghost var start := q.Contents();
    var n := 0;
    while n < |items|
      invariant n <= |items| && q.Valid() && |q.Contents()| == n + |start|
      invariant forall i :: 0 <= i < n ==> q.Contents()[i] == items[n - 1 - i]
      invariant q.Contents()[n..] == start
    {
      ghost var before := q.Contents();
      var _ := q.TrySend(items[n], Front);
      assert q.Contents()[n + 1..] == before[n..];
      n := n + 1;
    }
    taken := [];
    while n > 0
      invariant 0 <= n <= |items| && |taken| == |items| - n && q.Valid() && |q.Contents()| == n + |start|
      invariant forall i :: 0 <= i < |taken| ==> taken[i] == items[|items| - 1 - i]
      invariant forall i :: 0 <= i < n ==> q.Contents()[i] == items[n - 1 - i]
      invariant q.Contents()[n..] == start
    {
      ghost var before := q.Contents();
      var item := q.TryReceive();
      taken := taken + [item.value];
      assert q.Contents()[n - 1..] == before[n..];
      n := n - 1;
    }
  }

  /** What overwrites the only item is what the next receive hands out. */
  method OverwriteThenReceive(q: Queue, item: Item) returns (received: Option<Item>)
    requires q.Valid() && q.length == 1 && |item| == q.itemSize > 0
    modifies q, q.storage
    ensures q.Valid() && received == Some(item) && q.Contents() == []
  {
    hide Queue.Valid, Queue.Contents, Sent, After, Accepts;
    var _ := q.TrySend(item, Overwrite);
    received := q.TryReceive();
  }

  // ---------------------------------------------------------------- sends to the front, on runs

  lemma {:induction false} RunTwice(items: seq<Item>, length: nat, a: seq<Step>, b: seq<Step>)
    ensures RunItems(items, length, a + b) == RunItems(RunItems(items, length, a), length, b)
    ensures RunTaken(items, length, a + b) == RunTaken(items, length, a) + RunTaken(RunItems(items, length, a), length, b)
    decreases |a|
  {
    if a == [] {
      assert [] + b == b;
    } else {
      var next := After(items, length, a[0]);
      RunTwice(next, length, a[1..], b);
      assert (a + b)[1..] == a[1..] + b && (a + b)[0] == a[0];
      Append(Taken(items, a[0]), RunTaken(next, length, a[1..]), RunTaken(RunItems(items, length, a), length, b));
    }
  }

  /** A send to the front, any calls that leave the queue as that send did, and a receive: last out comes that item. */
  lemma FrontComesOutNext(items: seq<Item>, length: nat, item: Item, between: seq<Step>)
    requires |items| < length && RunItems([item] + items, length, between) == [item] + items
    ensures var steps := [Send(item, Front)] + between + [Receive];
            && RunTaken(items, length, steps) == RunTaken([item] + items, length, between) + [item]
            && RunItems(items, length, steps) == items
  {
    var sent := [item] + items;
    OneRun(items, length, Send(item, Front));
    OneRun(sent, length, Receive);
    RunTwice(items, length, [Send(item, Front)], between);
    RunTwice(items, length, [Send(item, Front)] + between, [Receive]);
    assert sent[1..] == items && sent[0] == item;
    hide RunItems, RunTaken;
  }

  lemma OneRun(items: seq<Item>, length: nat, step: Step)
    ensures RunItems(items, length, [step]) == After(items, length, step)
    ensures RunTaken(items, length, [step]) == Taken(items, step)
  {
    RunNothing(After(items, length, step), length, [step][1..]);
  }

  /** On runs: sends to the front and then as many receives hand the items out in reverse order. */
  lemma {:induction false} FrontsReversed(items: seq<Item>, length: nat, xs: seq<Item>)
    requires |items| + |xs| <= length
    ensures var steps := Fronts(xs) + Receives(|xs|);
            && RunItems(items, length, steps) == items
            && |RunTaken(items, length, steps)| == |xs|
            && forall i :: 0 <= i < |xs| ==> RunTaken(items, length, steps)[i] == xs[|xs| - 1 - i]
    decreases |xs|
  {
    hide RunItems, RunTaken, Fronts, Receives;
    if xs == [] {
      RunNothing(items, length, Fronts(xs) + Receives(|xs|));
    } else {
      FrontsReversed([xs[0]] + items, length, xs[1..]);
      FrontsUnfold(xs);
      FrontComesOutNext(items, length, xs[0], Fronts(xs[1..]) + Receives(|xs| - 1));
    }
  }

  function Fronts(xs: seq<Item>): (r: seq<Step>)
    ensures |r| == |xs|
  {
    seq(|xs|, i requires 0 <= i < |xs| => Send(xs[i], Front))
  }

  function Receives(n: nat): (r: seq<Step>)
    ensures |r| == n
  {
    seq(n, _ => Receive)
  }

  lemma FrontsUnfold(xs: seq<Item>)
    requires xs != []
    ensures Fronts(xs) + Receives(|xs|) == [Send(xs[0], Front)] + (Fronts(xs[1..]) + Receives(|xs| - 1)) + [Receive]
  {
  }

  /** A binary semaphore that is full and is overwritten counts two. */
  method FullSemaphoreOverwritten() returns (count: nat)
    ensures count == 2
  {
    var semaphore := new Queue(1, 0);
    var _ := semaphore.TrySend([], Back);
    var _ := semaphore.TrySend([], Overwrite);
    count := semaphore.messagesWaiting;
  }

  lemma SlotStep(k: nat, n: nat, size: nat)
    requires k < n && size > 0
    ensures k * size + size == (k + 1) * size
    ensures k * size + size >= n * size <==> k + 1 == n
  {
    if k + 1 < n {
      SlotBounds(k + 1, n, size);
    }
  }

  lemma SlotBack(k: nat, n: nat, size: nat)
    requires k < n && size > 0
    ensures k * size - size < 0 <==> k == 0
    ensures k > 0 ==> k * size - size == (k - 1) * size
    ensures n * size - size == (n - 1) * size
  {
    if k > 0 {
      SlotBounds(0, k, size);
    }
  }
}
