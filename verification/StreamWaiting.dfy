/**
  Waiting on a stream or message buffer (stream_buffer.c): one sender and one receiver that
  register with the buffer, sleep in xTaskNotifyWait, and are notified by each other.  Every
  critical section, publication and notification is one step; a run is any sequence of them.
 */
module StreamWaiting {
  import opened StreamBuffer

  /** n is the data length; space the free bytes last seen, 0 meaning that they are still to be read. */
  datatype Sender =
    | SenderIdle
    | CheckingSpace(n: nat)
    | SenderWaiting(n: nat, space: nat)
    | SenderRoused(n: nat, space: nat)
    | Deciding(n: nat, space: nat)
    | Writing(n: nat, room: nat)
    | Published
    | NotifyingReceiver

  datatype Receiver =
    | ReceiverIdle
    | CheckingData(maximum: nat)
    | ReceiverWaiting(maximum: nat)
    | ReceiverRoused(maximum: nat)
    | LookingAgain(maximum: nat)
    | Reading(maximum: nat, available: nat)
    | Freed

  /** The registered flags are xTaskWaitingToSend and xTaskWaitingToReceive, the notes the two notification states. */
  datatype State = State(
    framed: bool,
    capacity: nat,
    trigger: nat,
    bytes: nat,
    frames: seq<nat>,
    sender: Sender,
    receiver: Receiver,
    senderRegistered: bool,
    receiverRegistered: bool,
    senderNote: bool,
    receiverNote: bool)

  datatype Step =
    | BeginSend(n: nat, waits: bool)
    | CheckSpace
    | SenderWakes
    | SenderTimesOut
    | SenderReturns(expired: bool)
    | ReadSpace
    | Publish
    | CheckTrigger
    | NotifyReceiver
    | BeginReceive(maximum: nat, waits: bool)
    | CheckData
    | ReceiverWakes
    | ReceiverTimesOut
    | ReceiverReturns
    | ReadAvailable
    | Consume
    | NotifySender
    | OtherNotification(toSender: bool)

  function Start(framed: bool, capacity: nat, trigger: nat): State {
    State(framed, capacity, trigger, 0, [], SenderIdle, ReceiverIdle, false, false, false, false)
  }

  // ---------------------------------------------------------------- the buffer

  function Total(frames: seq<nat>): nat {
    if frames == [] then 0 else frames[0] + Total(frames[1..])
  }

  lemma {:induction false} TotalAppend(frames: seq<nat>, f: nat)
    ensures Total(frames + [f]) == Total(frames) + f
  {
    if frames == [] {
      assert [f][1..] == [];
      assert frames + [f] == [f];
    } else {
      assert (frames + [f])[1..] == frames[1..] + [f];
      TotalAppend(frames[1..], f);
    }
  }

  function Used(s: State): nat {
    if s.framed then Total(s.frames) else s.bytes
  }

  function Free(s: State): nat {
    if Used(s) <= s.capacity then s.capacity - Used(s) else 0
  }

  /** xRequiredSpace: a stream buffer is content with its whole capacity. */
  function Required(s: State, n: nat): nat {
    if s.framed then n + PREFIX else if n < s.capacity then n else s.capacity
  }

  /** Up to this many bytes there is nothing to read. */
  function Nothing(s: State): nat {
    if s.framed then PREFIX else 0
  }

  // ---------------------------------------------------------------- the steps

  predicate Enabled(s: State, step: Step) {
    match step
    case BeginSend(n, waits) => s.sender.SenderIdle?
    case CheckSpace => s.sender.CheckingSpace?
    case SenderWakes => s.sender.SenderWaiting? && s.senderNote
    case SenderTimesOut => s.sender.SenderWaiting?
    case SenderReturns(expired) => s.sender.SenderRoused?
    case ReadSpace => s.sender.Deciding?
    case Publish => s.sender.Writing?
    case CheckTrigger => s.sender.Published?
    case NotifyReceiver => s.sender.NotifyingReceiver?
    case BeginReceive(maximum, waits) => s.receiver.ReceiverIdle?
    case CheckData => s.receiver.CheckingData?
    case ReceiverWakes => s.receiver.ReceiverWaiting? && s.receiverNote
    case ReceiverTimesOut => s.receiver.ReceiverWaiting?
    case ReceiverReturns => s.receiver.ReceiverRoused?
    case ReadAvailable => s.receiver.LookingAgain?
    case Consume => s.receiver.Reading?
    case NotifySender => s.receiver.Freed?
    case OtherNotification(toSender) => true
  }

  /** prvWriteMessageToBuffer, seen from outside: what becomes readable at once. */
  function Write(s: State, n: nat, room: nat): State {
    if s.framed then
      if room >= n + PREFIX && n > 0 then s.(frames := s.frames + [n + PREFIX], sender := Published)
      else s.(sender := SenderIdle)
    else
      var written := if n < room then n else room;
      if written > 0 then s.(bytes := s.bytes + written, sender := Published) else s.(sender := SenderIdle)
  }

  /** prvReadMessageFromBuffer: a message that is too long stays. */
  function Read(s: State, maximum: nat, available: nat): State {
    if s.framed then
      if s.frames != [] && s.frames[0] <= maximum + PREFIX then s.(frames := s.frames[1..], receiver := Freed)
      else s.(receiver := ReceiverIdle)
    else
      var count := if maximum < available then maximum else available;
      if 0 < count <= s.bytes then s.(bytes := s.bytes - count, receiver := Freed) else s.(receiver := ReceiverIdle)
  }

  function Apply(s: State, step: Step): (t: State)
    requires Enabled(s, step)
    ensures t.framed == s.framed && t.capacity == s.capacity && t.trigger == s.trigger
  {
    match step
    case BeginSend(n, waits) =>
      s.(sender := if waits && !(s.framed && n + PREFIX > s.capacity) then CheckingSpace(n) else Deciding(n, 0))
    case CheckSpace =>
      if Free(s) < Required(s, s.sender.n)
      then s.(sender := SenderWaiting(s.sender.n, Free(s)), senderNote := false, senderRegistered := true)
      else s.(sender := Deciding(s.sender.n, Free(s)))
    case SenderWakes => s.(sender := SenderRoused(s.sender.n, s.sender.space), senderNote := false)
    case SenderTimesOut => s.(sender := SenderRoused(s.sender.n, s.sender.space))
    case SenderReturns(expired) =>
      s.(senderRegistered := false,
         sender := if expired then Deciding(s.sender.n, s.sender.space) else CheckingSpace(s.sender.n))
    case ReadSpace => s.(sender := Writing(s.sender.n, if s.sender.space == 0 then Free(s) else s.sender.space))
    case Publish => Write(s, s.sender.n, s.sender.room)
    case CheckTrigger => s.(sender := if Used(s) >= s.trigger then NotifyingReceiver else SenderIdle)
    case NotifyReceiver =>
      s.(sender := SenderIdle, receiverRegistered := false, receiverNote := s.receiverNote || s.receiverRegistered)
    case BeginReceive(maximum, waits) =>
      s.(receiver := if waits then CheckingData(maximum) else LookingAgain(maximum))
    case CheckData =>
      if Used(s) <= Nothing(s)
      then s.(receiver := ReceiverWaiting(s.receiver.maximum), receiverNote := false, receiverRegistered := true)
      else s.(receiver := Reading(s.receiver.maximum, Used(s)))
    case ReceiverWakes => s.(receiver := ReceiverRoused(s.receiver.maximum), receiverNote := false)
    case ReceiverTimesOut => s.(receiver := ReceiverRoused(s.receiver.maximum))
    case ReceiverReturns => s.(receiverRegistered := false, receiver := LookingAgain(s.receiver.maximum))
    case ReadAvailable =>
      s.(receiver := if Used(s) > Nothing(s) then Reading(s.receiver.maximum, Used(s)) else ReceiverIdle)
    case Consume => Read(s, s.receiver.maximum, s.receiver.available)
    case NotifySender =>
      s.(receiver := ReceiverIdle, senderRegistered := false, senderNote := s.senderNote || s.senderRegistered)
    case OtherNotification(toSender) =>
      if toSender then s.(senderNote := true) else s.(receiverNote := true)
  }

  // ---------------------------------------------------------------- the invariant

  predicate SenderAsleep(s: State) {
    s.sender.SenderWaiting? && !s.senderNote
  }

  predicate ReceiverAsleep(s: State) {
    s.receiver.ReceiverWaiting? && !s.receiverNote
  }

  ghost predicate Counts(s: State) {
    && 0 < s.trigger && Used(s) <= s.capacity
    && (s.framed ==> forall f :: f in s.frames ==> f > PREFIX)
    && (s.sender.SenderWaiting? || s.sender.SenderRoused? || s.sender.Deciding? ==> s.sender.space <= Free(s))
    && (s.sender.Writing? ==> s.sender.room <= Free(s))
    && (s.receiver.Reading? ==> Nothing(s) < s.receiver.available <= Used(s))
  }

  /** Whoever sleeps without a notification is registered, and has reason to sleep or is about to be notified. */
  ghost predicate Wakeups(s: State) {
    && (s.senderRegistered ==> s.sender.SenderWaiting? || s.sender.SenderRoused?)
    && (s.receiverRegistered ==> s.receiver.ReceiverWaiting? || s.receiver.ReceiverRoused?)
    && (s.sender.SenderWaiting? || s.sender.SenderRoused? || s.sender.CheckingSpace? ==>
          s.framed ==> s.sender.n + PREFIX <= s.capacity)
    && (SenderAsleep(s) ==> s.senderRegistered && (Free(s) < Required(s, s.sender.n) || s.receiver.Freed?))
    && (ReceiverAsleep(s) ==>
          && s.receiverRegistered
          && (Used(s) <= Nothing(s) || Used(s) < s.trigger || s.sender.Published? || s.sender.NotifyingReceiver?))
  }

  ghost predicate Kept(s: State) {
    Counts(s) && Wakeups(s)
  }

  lemma PublishKeeps(s: State)
    requires Kept(s) && Enabled(s, Publish)
    ensures Kept(Apply(s, Publish))
  {
    hide Total;
    TotalAppend(s.frames, s.sender.n + PREFIX);
  }

  /** A send that may wait looks for space first, unless its message could never fit; any other writes what it can at once. */
  lemma SendWaits(s: State, n: nat, waits: bool)
    requires Enabled(s, BeginSend(n, waits))
    ensures var looks := Apply(s, BeginSend(n, waits)).sender == CheckingSpace(n);
            && (looks <==> waits && (s.framed ==> n + PREFIX <= s.capacity))
            && (!looks ==> Apply(s, BeginSend(n, waits)).sender == Deciding(n, 0))
  {
  }

  /**
    What a send adds: of a stream what there was room for, of messages the whole frame or
    nothing.  Whoever has added anything goes on to the notification.
   */
  lemma PublishAdds(s: State)
    requires Kept(s) && Enabled(s, Publish)
    ensures var t, n, room := Apply(s, Publish), s.sender.n, s.sender.room;
            && Used(t) == Used(s) + (if s.framed then if 0 < n && n + PREFIX <= room then n + PREFIX else 0
                                     else if n < room then n else room)
            && Used(t) <= s.capacity && (t.sender.Published? <==> Used(t) > Used(s))
  {
    hide Total;
    TotalAppend(s.frames, s.sender.n + PREFIX);
  }

  /** What a receive frees: of a stream what the caller has room for, of messages the oldest, if it fits. */
  lemma ConsumeFrees(s: State)
    requires Kept(s) && Enabled(s, Consume)
    ensures var t, maximum, available := Apply(s, Consume), s.receiver.maximum, s.receiver.available;
            && (!s.framed ==> Used(t) == Used(s) - if maximum < available then maximum else available)
            && (s.framed ==> s.frames != [] && t.frames == if s.frames[0] <= maximum + PREFIX then s.frames[1..] else s.frames)
            && (t.receiver.Freed? <==> Used(t) < Used(s))
  {
    if s.framed && s.frames != [] {
      assert s.frames[0] in s.frames;
    }
  }

  lemma ConsumeKeeps(s: State)
    requires Kept(s) && Enabled(s, Consume)
    ensures Kept(Apply(s, Consume))
  {
    if s.framed {
      assert forall f :: f in s.frames[1..] ==> f in s.frames;
    }
  }

  lemma SenderKeeps(s: State, step: Step)
    requires Kept(s) && Enabled(s, step)
    requires step.BeginSend? || step.CheckSpace? || step.SenderWakes? || step.SenderTimesOut? || step.SenderReturns?
          || step.ReadSpace? || step.CheckTrigger? || step.NotifyReceiver?
    ensures Kept(Apply(s, step))
  {
    hide Total;
  }

  lemma ReceiverKeeps(s: State, step: Step)
    requires Kept(s) && Enabled(s, step)
    requires step.BeginReceive? || step.CheckData? || step.ReceiverWakes? || step.ReceiverTimesOut?
          || step.ReceiverReturns? || step.ReadAvailable? || step.NotifySender? || step.OtherNotification?
    ensures Kept(Apply(s, step))
  {
    hide Total;
  }

  lemma StepKeeps(s: State, step: Step)
    requires Kept(s) && Enabled(s, step)
    ensures Kept(Apply(s, step))
  {
    hide Kept, Enabled, Apply;
    match step
    case Publish => PublishKeeps(s);
    case Consume => ConsumeKeeps(s);
    case BeginReceive(_, _) => ReceiverKeeps(s, step);
    case CheckData => ReceiverKeeps(s, step);
    case ReceiverWakes => ReceiverKeeps(s, step);
    case ReceiverTimesOut => ReceiverKeeps(s, step);
    case ReceiverReturns => ReceiverKeeps(s, step);
    case ReadAvailable => ReceiverKeeps(s, step);
    case NotifySender => ReceiverKeeps(s, step);
    case OtherNotification(_) => ReceiverKeeps(s, step);
    case _ => SenderKeeps(s, step);
  }

  // ---------------------------------------------------------------- runs

  predicate Legal(s: State, steps: seq<Step>)
    decreases |steps|
  {
    steps != [] ==> Enabled(s, steps[0]) && Legal(Apply(s, steps[0]), steps[1..])
  }

  function Run(s: State, steps: seq<Step>): State
    requires Legal(s, steps)
    decreases |steps|
  {
    if steps == [] then s else Run(Apply(s, steps[0]), steps[1..])
  }

  lemma {:induction false} RunKeeps(s: State, steps: seq<Step>)
    requires Kept(s) && Legal(s, steps)
    ensures var t := Run(s, steps);
            Kept(t) && t.framed == s.framed && t.capacity == s.capacity && t.trigger == s.trigger
    decreases |steps|
  {
    hide Kept, Apply, Enabled;
    if steps != [] {
      StepKeeps(s, steps[0]);
      RunKeeps(Apply(s, steps[0]), steps[1..]);
    }
  }

  /**
    No wake-up is lost, whatever the interleaving: a sender sleeps on only for want of space and
    a receiver only for want of data, unless the other is just about to notify it.
    A task that registers finds the place free, as the assertions demand.
   */
  lemma NoWakeupLost(framed: bool, capacity: nat, trigger: nat, steps: seq<Step>)
    requires 0 < trigger && Legal(Start(framed, capacity, trigger), steps)
    ensures var t := Run(Start(framed, capacity, trigger), steps);
            && (t.sender.SenderWaiting? && !t.senderNote && !t.receiver.Freed? ==>
                  capacity - Used(t) < if framed then t.sender.n + PREFIX
                                       else if t.sender.n < capacity then t.sender.n else capacity)
            && (t.receiver.ReceiverWaiting? && !t.receiverNote && !t.sender.Published? && !t.sender.NotifyingReceiver? ==>
                  Used(t) <= (if framed then PREFIX else 0) || Used(t) < trigger)
            && (t.sender.CheckingSpace? ==> !t.senderRegistered)
            && (t.receiver.CheckingData? ==> !t.receiverRegistered)
            && Used(t) <= capacity
  {
    RunKeeps(Start(framed, capacity, trigger), steps);
  }

  // ---------------------------------------------------------------- both asleep

  predicate BothAsleep(s: State, n: nat) {
    SenderAsleep(s) && ReceiverAsleep(s) && s.sender.n == n
  }

  /** Then nobody moves until a time-out, or a notification that is none of the buffer's. */
  lemma OnlyTimeOutsHelp(s: State, n: nat, step: Step)
    requires BothAsleep(s, n) && Enabled(s, step)
    ensures step.SenderTimesOut? || step.ReceiverTimesOut? || step.OtherNotification?
  {
  }

  /** The messages of a message buffer are read whole, so what the receiver sleeps on is an empty buffer. */
  lemma MessageBuffersNeverBothSleep(capacity: nat, trigger: nat, n: nat, steps: seq<Step>)
    requires 0 < trigger <= PREFIX + 1 && Legal(Start(true, capacity, trigger), steps)
    ensures !BothAsleep(Run(Start(true, capacity, trigger), steps), n)
  {
    RunKeeps(Start(true, capacity, trigger), steps);
    var t := Run(Start(true, capacity, trigger), steps);
    if t.frames != [] {
      assert t.frames[0] in t.frames;
    }
  }

  /** Below the trigger level the receiver sleeps on; the sender may then lack space for n bytes. */
  ghost predicate CanBothSleep(capacity: nat, trigger: nat, n: nat) {
    exists steps :: Legal(Start(false, capacity, trigger), steps)
                    && BothAsleep(Run(Start(false, capacity, trigger), steps), n)
  }

  /** A stream buffer can put both to sleep exactly when n bytes and the trigger level do not fit side by side. */
  lemma BothSleepIff(capacity: nat, trigger: nat, n: nat)
    requires 0 < trigger <= capacity
    ensures CanBothSleep(capacity, trigger, n) <==> (if n < capacity then n else capacity) + trigger > capacity + 1
  {
    var s := Start(false, capacity, trigger);
    if CanBothSleep(capacity, trigger, n) {
      var steps :| Legal(s, steps) && BothAsleep(Run(s, steps), n);
      RunKeeps(s, steps);
    }
    if (if n < capacity then n else capacity) + trigger > capacity + 1 {
      PutToSleep(capacity, trigger, n);
    }
  }

  /** Nine bytes, a trigger level of 8, and 6 bytes to send behind 7 that do not wake the receiver. */
  lemma NineBytesBothSleep()
    ensures CanBothSleep(9, 8, 6)
  {
    BothSleepIff(9, 8, 6);
  }

  /** The receiver waits on an empty buffer, trigger - 1 bytes do not wake it, and n more do not fit. */
  lemma PutToSleep(capacity: nat, trigger: nat, n: nat)
    requires 0 < trigger <= capacity && (if n < capacity then n else capacity) + trigger > capacity + 1
    ensures CanBothSleep(capacity, trigger, n)
  {
    hide Legal, Run;
    var a := Start(false, capacity, trigger);
    var b := a.(receiver := ReceiverWaiting(1), receiverRegistered := true);
    var c := b.(bytes := trigger - 1);
    var rest := [BeginSend(n, true), CheckSpace];
    var middle := [BeginSend(trigger - 1, false), ReadSpace, Publish, CheckTrigger] + rest;
    NoSteps(Apply(Apply(c, BeginSend(n, true)), CheckSpace));
    TwoSteps(c, BeginSend(n, true), CheckSpace, []);
    assert rest + [] == rest;
    assert BothAsleep(Run(c, rest), n);
    TwoSteps(b.(sender := Writing(trigger - 1, capacity)), Publish, CheckTrigger, rest);
    TwoSteps(b, BeginSend(trigger - 1, false), ReadSpace, [Publish, CheckTrigger] + rest);
    assert middle == [BeginSend(trigger - 1, false), ReadSpace] + ([Publish, CheckTrigger] + rest);
    TwoSteps(a, BeginReceive(1, true), CheckData, middle);
  }

  lemma NoSteps(s: State)
    ensures Legal(s, []) && Run(s, []) == s
  {
  }

  lemma TwoSteps(s: State, x: Step, y: Step, rest: seq<Step>)
    requires Enabled(s, x) && Enabled(Apply(s, x), y) && Legal(Apply(Apply(s, x), y), rest)
    ensures Legal(s, [x, y] + rest) && Run(s, [x, y] + rest) == Run(Apply(Apply(s, x), y), rest)
  {
    assert ([x, y] + rest)[1..] == [y] + rest;
    assert ([y] + rest)[1..] == rest;
  }
}
