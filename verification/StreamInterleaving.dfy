/**
  One writer and one reader of a stream or message buffer, interrupting each other
  anywhere.  Each takes a snapshot of the other's index, copies byte by byte, and only
  then publishes its own index.  A run is any sequence of such steps.
 */
module StreamInterleaving {
  import opened KernelConfig
  import opened Rings
  import opened StreamBuffer

  /** publish is false only for an empty message, whose prefix is written but never published. */
  datatype Writer =
    | WriterIdle
    | Writing(bytes: Bytes, done: nat, message: Bytes, publish: bool)

  /** available is the snapshot taken at the start, got what has been copied out so far. */
  datatype Reader =
    | ReaderIdle
    | Reading(maximum: nat, available: nat, got: Bytes)

  /** The buffer, the two programs, and the history of what was published and consumed. */
  datatype State = State(
    framed: bool,
    buffer: Bytes,
    head: nat,
    tail: nat,
    writer: Writer,
    reader: Reader,
    sent: Bytes,
    received: Bytes,
    sentMessages: seq<Bytes>,
    receivedMessages: seq<Bytes>)

  datatype Step =
    | StartSend(data: Bytes)
    | CopyIn
    | Publish
    | StartReceive(maximum: nat)
    | CopyOut
    | Consume

  function Start(framed: bool, buffer: Bytes): State {
    State(framed, buffer, 0, 0, WriterIdle, ReaderIdle, [], [], [], [])
  }

  // ---------------------------------------------------------------- the programs

  /** What the writer decides from its snapshot of the free space. */
  function Plan(framed: bool, data: Bytes, space: nat): Writer {
    if framed then
      if |data| + PREFIX < SIZE_RANGE && space >= |data| + PREFIX
      then Writing(Frame(data), 0, data, data != [])
      else WriterIdle
    else
      var n := if |data| < space then |data| else space;
      if n == 0 then WriterIdle else Writing(data[..n], 0, [], true)
  }

  /** How many bytes the reader copies: the prefix, then, if it fits, the message it announces. */
  function Wanted(framed: bool, r: Reader): nat
    requires r.Reading?
  {
    if framed then
      if |r.got| < PREFIX || r.available < PREFIX then PREFIX
      else
        var n := DecodeLength(r.got[..PREFIX]);
        if n > r.maximum then PREFIX
        else PREFIX + if n < r.available - PREFIX then n else r.available - PREFIX
    else if r.maximum < r.available then r.maximum else r.available
  }

  /** How many bytes the reader then frees: none if the message does not fit its buffer. */
  function Consumed(framed: bool, r: Reader): nat
    requires r.Reading?
  {
    if framed && |r.got| <= PREFIX then 0 else |r.got|
  }

  predicate Enabled(s: State, step: Step)
    requires s.head < |s.buffer| && s.tail < |s.buffer|
  {
    match step
    case StartSend(data) => s.writer.WriterIdle?
    case CopyIn => s.writer.Writing? && s.writer.done < |s.writer.bytes|
    case Publish => s.writer.Writing? && s.writer.done == |s.writer.bytes|
    case StartReceive(maximum) => s.reader.ReaderIdle?
    case CopyOut => s.reader.Reading? && |s.reader.got| < Wanted(s.framed, s.reader)
    case Consume => s.reader.Reading? && |s.reader.got| == Wanted(s.framed, s.reader)
  }

  /** The index n cells on; in every reachable state one conditional subtraction computes it. */
  function Ahead(s: State, from: nat, n: nat): nat
    requires |s.buffer| > 0
  {
    (from + n) % |s.buffer|
  }

  lemma AheadIsWrap(s: State, from: nat, n: nat)
    requires from < |s.buffer| && n <= |s.buffer|
    ensures Ahead(s, from, n) == Wrap(|s.buffer|, from + n)
  {
  }

  function Apply(s: State, step: Step): (t: State)
    requires s.head < |s.buffer| && s.tail < |s.buffer| && Enabled(s, step)
    ensures t.framed == s.framed && |t.buffer| == |s.buffer| && t.head < |t.buffer| && t.tail < |t.buffer|
  {
    match step
    case StartSend(data) =>
      s.(writer := Plan(s.framed, data, SpacesAvailable(|s.buffer|, s.head, s.tail)))
    case CopyIn =>
      s.(buffer := s.buffer[Ahead(s, s.head, s.writer.done) := s.writer.bytes[s.writer.done]],
         writer := s.writer.(done := s.writer.done + 1))
    case Publish =>
      if s.writer.publish
      then s.(writer := WriterIdle, head := Ahead(s, s.head, s.writer.done), sent := s.sent + s.writer.bytes,
              sentMessages := s.sentMessages + if s.framed then [s.writer.message] else [])
      else s.(writer := WriterIdle)
    case StartReceive(maximum) =>
      var available := BytesInBuffer(|s.buffer|, s.head, s.tail);
      if available > if s.framed then PREFIX else 0
      then s.(reader := Reading(maximum, available, []))
      else s
    case CopyOut =>
      s.(reader := s.reader.(got := s.reader.got + [s.buffer[Ahead(s, s.tail, |s.reader.got|)]]))
    case Consume =>
      var n := Consumed(s.framed, s.reader);
      s.(reader := ReaderIdle, tail := Ahead(s, s.tail, n), received := s.received + s.reader.got[..n],
         receivedMessages := s.receivedMessages + if s.framed && n > 0 then [s.reader.got[PREFIX..]] else [])
  }

  // ---------------------------------------------------------------- the invariant

  function Used(s: State): nat
    requires s.head < |s.buffer| && s.tail < |s.buffer|
  {
    BytesInBuffer(|s.buffer|, s.head, s.tail)
  }

  function Contents(s: State): Bytes
    requires s.head < |s.buffer| && s.tail < |s.buffer|
  {
    Unread(s.buffer, s.head, s.tail)
  }

  /** Conservation: what was sent is what was received and then what is in the buffer. */
  ghost predicate Conserved(s: State) {
    && s.head < |s.buffer| && s.tail < |s.buffer|
    && s.sent == s.received + Contents(s)
  }

  /** The writer's copies are all in cells that were free when it looked, and still are. */
  ghost predicate WriterSafe(s: State)
    requires s.head < |s.buffer| && s.tail < |s.buffer|
  {
    s.writer.Writing? ==>
      && 0 < |s.writer.bytes| && s.writer.done <= |s.writer.bytes|
      && Used(s) + |s.writer.bytes| < |s.buffer|
      && (forall i :: 0 <= i < s.writer.done ==>
            s.buffer[Wrap(|s.buffer|, s.head + i)] == s.writer.bytes[i])
  }

  /** The reader's copies are the oldest published bytes. */
  ghost predicate ReaderSafe(s: State)
    requires s.head < |s.buffer| && s.tail < |s.buffer|
  {
    s.reader.Reading? ==>
      && |s.reader.got| <= s.reader.available <= Used(s)
      && s.reader.available > (if s.framed then PREFIX else 0)
      && s.reader.got == Contents(s)[..|s.reader.got|]
  }

  ghost predicate Safe(s: State) {
    Conserved(s) && WriterSafe(s) && ReaderSafe(s)
  }

  // ---------------------------------------------------------------- every step keeps it

  lemma StartSendSafe(s: State, data: Bytes)
    requires Safe(s) && Enabled(s, StartSend(data))
    ensures Safe(Apply(s, StartSend(data)))
  {
  }

  lemma CopyInContents(s: State)
    requires s.head < |s.buffer| && s.tail < |s.buffer| && WriterSafe(s) && Enabled(s, CopyIn)
    ensures var t, c := Apply(s, CopyIn), Ahead(s, s.head, s.writer.done);
            && Contents(t) == Contents(s) && Used(s) <= Distance(|s.buffer|, s.tail, c)
  {
    var t, n, c := Apply(s, CopyIn), |s.buffer|, Ahead(s, s.head, s.writer.done);
    AheadIsWrap(s, s.head, s.writer.done);
    assert Distance(n, s.tail, c) == Used(s) + s.writer.done;
    forall i | 0 <= i < Used(s)
      ensures Contents(t)[i] == Contents(s)[i]
    {
      assert Distance(n, s.tail, Wrap(n, s.tail + i)) == i;
    }
  }

  lemma CopyInWriter(s: State)
    requires s.head < |s.buffer| && s.tail < |s.buffer| && WriterSafe(s) && Enabled(s, CopyIn)
    ensures WriterSafe(Apply(s, CopyIn))
  {
    var t, n, c := Apply(s, CopyIn), |s.buffer|, Ahead(s, s.head, s.writer.done);
    AheadIsWrap(s, s.head, s.writer.done);
    forall i | 0 <= i < s.writer.done
      ensures t.buffer[Wrap(n, s.head + i)] == s.writer.bytes[i]
    {
      assert Wrap(n, s.head + i) != c;
    }
  }

  /** The byte goes into a cell that holds no unread byte, and no unread byte changes. */
  lemma CopyInSafe(s: State)
    requires Safe(s) && Enabled(s, CopyIn)
    ensures var t, c := Apply(s, CopyIn), Ahead(s, s.head, s.writer.done);
            && Safe(t) && Contents(t) == Contents(s)
            && Used(s) <= Distance(|s.buffer|, s.tail, c)
  {
    CopyInContents(s);
    CopyInWriter(s);
    hide Contents, WriterSafe, Ahead;
  }

  lemma PublishContents(s: State)
    requires s.head < |s.buffer| && s.tail < |s.buffer| && WriterSafe(s) && Enabled(s, Publish) && s.writer.publish
    ensures var t := Apply(s, Publish);
            && Used(t) == Used(s) + |s.writer.bytes| < |s.buffer|
            && Contents(t) == Contents(s) + s.writer.bytes
  {
    var t, n, used := Apply(s, Publish), |s.buffer|, Used(s);
    AheadIsWrap(s, s.head, s.writer.done);
    forall i | used <= i < Used(t)
      ensures Contents(t)[i] == s.writer.bytes[i - used]
    {
      assert Wrap(n, s.tail + i) == Wrap(n, s.head + (i - used));
    }
  }

  /** Everything the writer copied becomes readable at once, behind what was readable. */
  lemma PublishSafe(s: State)
    requires Safe(s) && Enabled(s, Publish)
    ensures Safe(Apply(s, Publish))
    ensures Contents(Apply(s, Publish)) == Contents(s) + if s.writer.publish then s.writer.bytes else []
  {
    if s.writer.publish {
      PublishContents(s);
      hide Contents, Used;
      assert s.received + (Contents(s) + s.writer.bytes) == (s.received + Contents(s)) + s.writer.bytes;
    } else {
      assert Contents(s) + [] == Contents(s);
    }
  }

  lemma StartReceiveSafe(s: State, maximum: nat)
    requires Safe(s) && Enabled(s, StartReceive(maximum))
    ensures Safe(Apply(s, StartReceive(maximum)))
  {
    assert Contents(s)[..0] == [];
  }

  /** The byte read is the published byte that comes next in the stream. */
  lemma CopyOutSafe(s: State)
    requires Safe(s) && Enabled(s, CopyOut)
    ensures Safe(Apply(s, CopyOut))
    ensures var k := |s.received| + |s.reader.got|;
            && k < |s.sent| && Apply(s, CopyOut).reader.got == s.reader.got + [s.sent[k]]
  {
    var t, i := Apply(s, CopyOut), |s.reader.got|;
    AheadIsWrap(s, s.tail, i);
    assert t.reader.got == Contents(s)[..i + 1];
  }

  lemma ConsumeSafe(s: State)
    requires Safe(s) && Enabled(s, Consume)
    ensures Safe(Apply(s, Consume))
    ensures Contents(Apply(s, Consume)) == Contents(s)[Consumed(s.framed, s.reader)..]
  {
    var t, n := Apply(s, Consume), Consumed(s.framed, s.reader);
    AheadIsWrap(s, s.tail, n);
    ConsumeOldest(s.buffer, s.head, s.tail, n);
    assert Used(t) == Used(s) - n;
    assert s.reader.got[..n] == Contents(s)[..n];
    Regroup(s.sent, s.received, Contents(s), n);
  }

  lemma Regroup(sent: Bytes, received: Bytes, contents: Bytes, n: nat)
    requires sent == received + contents && n <= |contents|
    ensures sent == (received + contents[..n]) + contents[n..]
  {
  }

  lemma StepSafe(s: State, step: Step)
    requires Safe(s) && Enabled(s, step)
    ensures Safe(Apply(s, step))
  {
    match step
    case StartSend(data) => StartSendSafe(s, data);
    case CopyIn => CopyInSafe(s);
    case Publish => PublishSafe(s);
    case StartReceive(maximum) => StartReceiveSafe(s, maximum);
    case CopyOut => CopyOutSafe(s);
    case Consume => ConsumeSafe(s);
  }

  // ---------------------------------------------------------------- runs

  predicate Legal(s: State, steps: seq<Step>)
    requires s.head < |s.buffer| && s.tail < |s.buffer|
    decreases |steps|
  {
    steps != [] ==> Enabled(s, steps[0]) && Legal(Apply(s, steps[0]), steps[1..])
  }

  function Run(s: State, steps: seq<Step>): (t: State)
    requires s.head < |s.buffer| && s.tail < |s.buffer| && Legal(s, steps)
    ensures |t.buffer| == |s.buffer| && t.head < |t.buffer| && t.tail < |t.buffer| && t.framed == s.framed
    decreases |steps|
  {
    if steps == [] then s else Run(Apply(s, steps[0]), steps[1..])
  }

  lemma {:induction false} RunSafe(s: State, steps: seq<Step>)
    requires Safe(s) && Legal(s, steps)
    ensures Safe(Run(s, steps))
    decreases |steps|
  {
    if steps == [] {
    } else {
      StepSafe(s, steps[0]);
      RunSafe(Apply(s, steps[0]), steps[1..]);
    }
  }

  /** Whatever the interleaving, the reader gets a prefix of what was sent, and the ring never overfills. */
  lemma ReceivedIsPrefix(framed: bool, buffer: Bytes, steps: seq<Step>)
    requires |buffer| > 0 && Legal(Start(framed, buffer), steps)
    ensures var t := Run(Start(framed, buffer), steps);
            && t.received <= t.sent
            && |t.sent| == |t.received| + Used(t) <= |t.received| + |buffer| - 1
  {
    RunSafe(Start(framed, buffer), steps);
  }

  // ---------------------------------------------------------------- messages

  /** The messages published and not yet consumed. */
  function Pending(s: State): seq<Bytes>
    requires |s.receivedMessages| <= |s.sentMessages|
  {
    s.sentMessages[|s.receivedMessages|..]
  }

  ghost predicate Framed(s: State)
    requires s.head < |s.buffer| && s.tail < |s.buffer|
  {
    && s.framed && s.receivedMessages <= s.sentMessages
    && AllMessages(Pending(s)) && Contents(s) == Frames(Pending(s))
    && (s.writer.Writing? ==>
          && |s.writer.message| < SIZE_RANGE && s.writer.bytes == Frame(s.writer.message)
          && (s.writer.publish <==> s.writer.message != []))
    && (s.reader.Reading? ==> Pending(s) != [] && s.reader.available >= PREFIX + |Pending(s)[0]|)
  }

  lemma PublishFramed(s: State)
    requires Safe(s) && Enabled(s, Publish) && Framed(s)
    ensures Framed(Apply(s, Publish))
  {
    var t := Apply(s, Publish);
    PublishSafe(s);
    if s.writer.publish {
      FramesAppend(Pending(s), s.writer.message);
      assert Pending(t) == Pending(s) + [s.writer.message];
    } else {
      assert Contents(t) == Contents(s);
    }
  }

  lemma StartReceiveFramed(s: State, maximum: nat)
    requires Safe(s) && Enabled(s, StartReceive(maximum)) && Framed(s)
    ensures Framed(Apply(s, StartReceive(maximum)))
  {
    if Used(s) > PREFIX {
      FirstFrame(Pending(s));
    }
  }

  /** A message that fits is handed over whole; one that does not is left as it is. */
  lemma ConsumeFramed(s: State)
    requires Safe(s) && Enabled(s, Consume) && Framed(s)
    ensures Framed(Apply(s, Consume))
    ensures var t, m := Apply(s, Consume), Pending(s)[0];
            if |m| <= s.reader.maximum
            then t.receivedMessages == s.receivedMessages + [m]
            else t.receivedMessages == s.receivedMessages && Contents(t) == Contents(s) && t.tail == s.tail
  {
    var t, m, got := Apply(s, Consume), Pending(s)[0], s.reader.got;
    FirstFrame(Pending(s));
    ConsumeSafe(s);
    assert PREFIX <= |got|;
    assert got[..PREFIX] == Contents(s)[..PREFIX];
    if |m| <= s.reader.maximum {
      assert |got| == PREFIX + |m|;
      assert got[PREFIX..] == m;
      assert Pending(t) == Pending(s)[1..];
      assert s.sentMessages == s.receivedMessages + Pending(s);
    } else {
      AheadIsWrap(s, s.tail, 0);
      assert t.receivedMessages == s.receivedMessages;
    }
  }

  lemma StepFramed(s: State, step: Step)
    requires Safe(s) && Enabled(s, step) && Framed(s)
    ensures Framed(Apply(s, step))
  {
    match step
    case StartSend(data) =>
    case CopyIn => CopyInSafe(s);
    case Publish => PublishFramed(s);
    case StartReceive(maximum) => StartReceiveFramed(s, maximum);
    case CopyOut =>
    case Consume => ConsumeFramed(s);
  }

  lemma {:induction false} RunFramed(s: State, steps: seq<Step>)
    requires Safe(s) && Framed(s) && Legal(s, steps)
    ensures Framed(Run(s, steps))
    decreases |steps|
  {
    if steps == [] {
    } else {
      StepFramed(s, steps[0]);
      StepSafe(s, steps[0]);
      RunFramed(Apply(s, steps[0]), steps[1..]);
    }
  }

  /** Whatever the interleaving, the messages received are the messages sent, whole and in order. */
  lemma MessagesArriveWhole(buffer: Bytes, steps: seq<Step>)
    requires |buffer| > 0 && Legal(Start(true, buffer), steps)
    ensures var t := Run(Start(true, buffer), steps);
            && t.receivedMessages <= t.sentMessages
            && AllMessages(Pending(t)) && Contents(t) == Frames(Pending(t))
  {
    var s := Start(true, buffer);
    assert Contents(s) == [];
    assert Pending(s) == [];
    RunFramed(s, steps);
  }

  // ---------------------------------------------------------------- undisturbed copying

  /** Left alone, the writer's byte steps do what prvWriteBytesToBuffer does. */
  lemma {:induction false} UndisturbedWrite(s: State)
    requires s.head < |s.buffer| && s.tail < |s.buffer| && s.writer.Writing?
    requires s.writer.done <= |s.writer.bytes| < |s.buffer|
    requires s.buffer == Written(s.buffer, s.head, s.writer.bytes[..s.writer.done])
    ensures var steps := seq(|s.writer.bytes| - s.writer.done, _ => CopyIn);
            Legal(s, steps) && Run(s, steps).buffer == Written(s.buffer, s.head, s.writer.bytes)
    decreases |s.writer.bytes| - s.writer.done
  {
    var bytes, k := s.writer.bytes, s.writer.done;
    var steps := seq(|bytes| - k, _ => CopyIn);
    if k == |bytes| {
      assert bytes[..k] == bytes;
    } else {
      var t := Apply(s, CopyIn);
      AheadIsWrap(s, s.head, k);
      assert t.buffer == Written(s.buffer, s.head, bytes[..k + 1]);
      assert Written(t.buffer, s.head, bytes[..k + 1]) == t.buffer;
      assert Written(t.buffer, s.head, bytes) == Written(s.buffer, s.head, bytes);
      UndisturbedWrite(t);
      assert steps[1..] == seq(|bytes| - (k + 1), _ => CopyIn);
    }
  }
}
