/**
  What the interleaved writer of module StreamInterleaving sends, by what it was asked to
  send: over every run each message, or each stretch of bytes, is traced back to the step
  that asked for it, and what was received to the steps that asked for it.
 */
module StreamRequests {
  import opened KernelConfig
  import opened StreamBuffer
  import opened StreamInterleaving

  // ---------------------------------------------------------------- prefixes of runs

  lemma {:induction false} LegalPrefix(s: State, steps: seq<Step>, n: nat)
    requires s.head < |s.buffer| && s.tail < |s.buffer| && Legal(s, steps) && n <= |steps|
    ensures Legal(s, steps[..n])
    decreases n
  {
    if n > 0 {
      LegalPrefix(Apply(s, steps[0]), steps[1..], n - 1);
      assert steps[..n][1..] == steps[1..][..n - 1];
    }
  }

  /** The state before step i, and after the last. */
  function StateAt(s: State, steps: seq<Step>, i: nat): (t: State)
    requires s.head < |s.buffer| && s.tail < |s.buffer| && Legal(s, steps) && i <= |steps|
    ensures |t.buffer| == |s.buffer| && t.head < |t.buffer| && t.tail < |t.buffer| && t.framed == s.framed
  {
    LegalPrefix(s, steps, i);
    Run(s, steps[..i])
  }

  lemma {:induction false} RunLast(s: State, steps: seq<Step>)
    requires s.head < |s.buffer| && s.tail < |s.buffer| && Legal(s, steps) && steps != []
    ensures var n := |steps| - 1;
            && Legal(s, steps[..n]) && Enabled(Run(s, steps[..n]), steps[n])
            && Run(s, steps) == Apply(Run(s, steps[..n]), steps[n])
    decreases |steps|
  {
    var n := |steps| - 1;
    if n == 0 {
      assert steps[1..] == [] && steps[..0] == [];
    } else {
      RunLast(Apply(s, steps[0]), steps[1..]);
      assert steps[1..][..n - 1] == steps[..n][1..];
    }
  }

  lemma SameStates(s: State, steps: seq<Step>, n: nat)
    requires s.head < |s.buffer| && s.tail < |s.buffer| && Legal(s, steps) && n <= |steps|
    ensures Legal(s, steps[..n]) && StateAt(s, steps, n) == Run(s, steps[..n])
    ensures forall i :: 0 <= i <= n ==> StateAt(s, steps[..n], i) == StateAt(s, steps, i)
  {
    LegalPrefix(s, steps, n);
    forall i | 0 <= i <= n
      ensures StateAt(s, steps[..n], i) == StateAt(s, steps, i)
    {
      assert steps[..n][..i] == steps[..i];
    }
  }

  lemma AllSteps(s: State, steps: seq<Step>)
    requires s.head < |s.buffer| && s.tail < |s.buffer| && Legal(s, steps)
    ensures StateAt(s, steps, |steps|) == Run(s, steps)
  {
    assert steps[..|steps|] == steps;
  }

  // ---------------------------------------------------------------- single requests

  /** A frame is written if and only if the message is not empty and its frame fits; and then it is that message. */
  lemma MessageAccepted(s: State, data: Bytes)
    requires s.head < |s.buffer| && s.tail < |s.buffer| && s.framed && Enabled(s, StartSend(data))
    ensures var w := Apply(s, StartSend(data)).writer;
            && (w.Writing? && w.publish <==>
                  0 < |data| && |data| + PREFIX < SIZE_RANGE && |Contents(s)| + |data| + PREFIX <= |s.buffer| - 1)
            && (w.Writing? ==> w.message == data && w.done == 0)
  {
  }

  /** A stream takes as many of the first bytes as there is space for. */
  lemma BytesAccepted(s: State, data: Bytes)
    requires s.head < |s.buffer| && s.tail < |s.buffer| && !s.framed && Enabled(s, StartSend(data))
    ensures var w, free := Apply(s, StartSend(data)).writer, |s.buffer| - 1 - |Contents(s)|;
            var n := if |data| < free then |data| else free;
            && (w.Writing? <==> n > 0)
            && (w.Writing? ==> w.publish && w.bytes == data[..n] && w.done == 0)
  {
  }

  /** A receive finds all bytes that are published, if there are enough to read. */
  lemma ReceiveStarts(s: State, maximum: nat)
    requires s.head < |s.buffer| && s.tail < |s.buffer| && Enabled(s, StartReceive(maximum))
    ensures var r := Apply(s, StartReceive(maximum)).reader;
            && (r.Reading? <==> |Contents(s)| > if s.framed then PREFIX else 0)
            && (r.Reading? ==> r == Reading(maximum, |Contents(s)|, []))
  {
  }

  /** A stream receive hands over the oldest bytes, as many as it found but never more than the caller has room for. */
  lemma BytesHandedOver(s: State)
    requires Safe(s) && !s.framed && Enabled(s, Consume)
    ensures var n := if s.reader.maximum < s.reader.available then s.reader.maximum else s.reader.available;
            && n <= |Contents(s)| && Apply(s, Consume).received == s.received + Contents(s)[..n]
            && Contents(Apply(s, Consume)) == Contents(s)[n..]
  {
    ConsumeSafe(s);
  }

  // ---------------------------------------------------------------- tracing

  /** What the step asks to send and will be sent. */
  function Granted(b: State, step: Step): Bytes
    requires b.head < |b.buffer| && b.tail < |b.buffer|
  {
    if !step.StartSend? then []
    else
      var data, free := step.data, |b.buffer| - 1 - |Contents(b)|;
      if b.framed then if |data| + PREFIX < SIZE_RANGE && |data| + PREFIX <= free then data else []
      else data[..if |data| < free then |data| else free]
  }

  ghost function AllGranted(s: State, steps: seq<Step>): (r: seq<Bytes>)
    requires s.head < |s.buffer| && s.tail < |s.buffer| && Legal(s, steps)
    ensures |r| == |steps|
  {
    seq(|steps|, i requires 0 <= i < |steps| => Granted(StateAt(s, steps, i), steps[i]))
  }

  lemma SameGranted(s: State, steps: seq<Step>, n: nat)
    requires s.head < |s.buffer| && s.tail < |s.buffer| && Legal(s, steps) && n <= |steps|
    ensures Legal(s, steps[..n]) && AllGranted(s, steps)[..n] == AllGranted(s, steps[..n])
  {
    SameStates(s, steps, n);
    hide StateAt, Granted;
  }

  /** f names the requests the pieces were granted to, in order. */
  ghost predicate Named(granted: seq<Bytes>, pieces: seq<Bytes>, f: seq<nat>) {
    && |f| == |pieces|
    && (forall k :: 0 <= k < |f| ==> f[k] < |granted| && granted[f[k]] == pieces[k])
    && (forall j, k :: 0 <= j < k < |f| ==> f[j] < f[k])
  }

  /** Something is being written that will be published. */
  predicate InWork(t: State) {
    t.writer.Writing? && t.writer.publish
  }

  function PieceOf(t: State): Bytes {
    if t.writer.WriterIdle? then [] else if t.framed then t.writer.message else t.writer.bytes
  }

  ghost predicate NextNamed(granted: seq<Bytes>, busy: bool, piece: Bytes, f: seq<nat>, p: nat) {
    busy ==> p < |granted| && granted[p] == piece && forall k :: 0 <= k < |f| ==> f[k] < p
  }

  /** No request that was granted anything is missing. */
  ghost predicate AllNamed(granted: seq<Bytes>, busy: bool, f: seq<nat>, p: nat) {
    forall i :: 0 <= i < |granted| ==> ((i in f || (busy && i == p)) <==> granted[i] != [])
  }

  lemma NamedStays(granted: seq<Bytes>, n: nat, pieces: seq<Bytes>, f: seq<nat>)
    requires n <= |granted| && Named(granted[..n], pieces, f)
    ensures Named(granted, pieces, f) && forall k :: 0 <= k < |f| ==> f[k] < n
  {
  }

  /** One more step asks for something. */
  lemma AskedNow(granted: seq<Bytes>, pieces: seq<Bytes>, f: seq<nat>, p: nat)
    requires |granted| > 0
    requires var n := |granted| - 1; Named(granted[..n], pieces, f) && AllNamed(granted[..n], false, f, p)
    ensures var n := |granted| - 1;
            && Named(granted, pieces, f) && NextNamed(granted, granted[n] != [], granted[n], f, n)
            && AllNamed(granted, granted[n] != [], f, n)
  {
    var n := |granted| - 1;
    NamedStays(granted, n, pieces, f);
    hide Named;
    forall i | 0 <= i < |granted|
      ensures (i in f || (granted[n] != [] && i == n)) <==> granted[i] != []
    {
      if i < n {
        assert granted[..n][i] == granted[i];
      }
    }
  }

  /** One more step publishes what is in work, if anything is. */
  lemma PublishedNow(granted: seq<Bytes>, pieces: seq<Bytes>, f: seq<nat>, p: nat, busy: bool, piece: Bytes)
    requires |granted| > 0
    requires var n := |granted| - 1;
             && granted[n] == [] && Named(granted[..n], pieces, f) && NextNamed(granted[..n], busy, piece, f, p)
             && AllNamed(granted[..n], busy, f, p)
    ensures var g := if busy then f + [p] else f;
            Named(granted, if busy then pieces + [piece] else pieces, g) && AllNamed(granted, false, g, p)
  {
    var n := |granted| - 1;
    NamedStays(granted, n, pieces, f);
    var g := if busy then f + [p] else f;
    forall i | 0 <= i < |granted|
      ensures i in g <==> granted[i] != []
    {
      assert i in g <==> i in f || (busy && i == p);
      if i < n {
        assert granted[..n][i] == granted[i];
      }
    }
  }

  /** One more step of any other kind. */
  lemma NothingAsked(granted: seq<Bytes>, pieces: seq<Bytes>, f: seq<nat>, p: nat, busy: bool, piece: Bytes)
    requires |granted| > 0
    requires var n := |granted| - 1;
             && granted[n] == [] && Named(granted[..n], pieces, f) && NextNamed(granted[..n], busy, piece, f, p)
             && AllNamed(granted[..n], busy, f, p)
    ensures Named(granted, pieces, f) && NextNamed(granted, busy, piece, f, p) && AllNamed(granted, busy, f, p)
  {
    var n := |granted| - 1;
    NamedStays(granted, n, pieces, f);
    hide Named;
    forall i | 0 <= i < |granted|
      ensures (i in f || (busy && i == p)) <==> granted[i] != []
    {
      if i < n {
        assert granted[..n][i] == granted[i];
      }
    }
  }

  /** The pieces end to end. */
  function Flat(pieces: seq<Bytes>): Bytes {
    if pieces == [] then [] else Flat(pieces[..|pieces| - 1]) + pieces[|pieces| - 1]
  }

  lemma FlatMore(pieces: seq<Bytes>, piece: Bytes)
    ensures Flat(pieces + [piece]) == Flat(pieces) + piece
  {
    assert (pieces + [piece])[..|pieces|] == pieces;
  }

  /** The pieces are what was sent. */
  predicate Sends(t: State, pieces: seq<Bytes>) {
    if t.framed then t.sentMessages == pieces else t.sent == Flat(pieces)
  }

  /** What a step does, in these terms. */
  lemma LastStep(b: State, step: Step, pieces: seq<Bytes>)
    requires b.head < |b.buffer| && b.tail < |b.buffer| && Enabled(b, step) && Sends(b, pieces)
    ensures var t := Apply(b, step);
            && (step.StartSend? ==>
                  && !InWork(b) && Sends(t, pieces) && (InWork(t) <==> Granted(b, step) != [])
                  && (InWork(t) ==> PieceOf(t) == Granted(b, step)))
            && (step.Publish? ==> !InWork(t) && Sends(t, if InWork(b) then pieces + [PieceOf(b)] else pieces))
            && (!step.StartSend? && !step.Publish? ==>
                  Sends(t, pieces) && InWork(t) == InWork(b) && PieceOf(t) == PieceOf(b))
            && (!step.StartSend? ==> Granted(b, step) == [])
  {
    match step
    case StartSend(data) =>
      if b.framed {
        MessageAccepted(b, data);
      } else {
        BytesAccepted(b, data);
      }
    case Publish => FlatMore(pieces, PieceOf(b));
    case _ =>
  }

  lemma Idle(granted: seq<Bytes>, asked: Bytes, piece: Bytes, busy: bool, f: seq<nat>, p: nat)
    requires busy ==> piece == asked
    ensures NextNamed(granted, busy, asked, f, p) ==> NextNamed(granted, busy, piece, f, p)
    ensures !busy ==> NextNamed(granted, busy, piece, f, p)
  {
  }

  /** One more step. */
  lemma OneMore(b: State, step: Step, granted: seq<Bytes>, was: seq<Bytes>, g: seq<nat>, q: nat)
    returns (pieces: seq<Bytes>, f: seq<nat>, p: nat)
    requires b.head < |b.buffer| && b.tail < |b.buffer| && Enabled(b, step) && Sends(b, was)
    requires |granted| > 0 && granted[|granted| - 1] == Granted(b, step)
    requires var before := granted[..|granted| - 1];
             Named(before, was, g) && NextNamed(before, InWork(b), PieceOf(b), g, q) && AllNamed(before, InWork(b), g, q)
    ensures var t := Apply(b, step);
            && Sends(t, pieces) && Named(granted, pieces, f) && NextNamed(granted, InWork(t), PieceOf(t), f, p)
            && AllNamed(granted, InWork(t), f, p)
  {
    LastStep(b, step, was);
    hide Named, NextNamed, AllNamed, Apply, Enabled, Granted, InWork, PieceOf, Sends;
    var n := |granted| - 1;
    pieces, f, p := was, g, q;
    if step.StartSend? {
      AskedNow(granted, pieces, f, p);
      Idle(granted, granted[n], PieceOf(Apply(b, step)), granted[n] != [], f, n);
      p := n;
    } else if step.Publish? {
      PublishedNow(granted, pieces, f, p, InWork(b), PieceOf(b));
      if InWork(b) {
        pieces, f := pieces + [PieceOf(b)], f + [p];
      }
      Idle(granted, [], PieceOf(Apply(b, step)), false, f, p);
    } else {
      NothingAsked(granted, pieces, f, p, InWork(b), PieceOf(b));
    }
  }

  lemma {:induction false} Trace(s: State, steps: seq<Step>) returns (pieces: seq<Bytes>, f: seq<nat>, p: nat)
    requires s.head < |s.buffer| && s.tail < |s.buffer| && Legal(s, steps)
    requires s == Start(s.framed, s.buffer)
    ensures var t, granted := Run(s, steps), AllGranted(s, steps);
            && Sends(t, pieces) && Named(granted, pieces, f) && NextNamed(granted, InWork(t), PieceOf(t), f, p)
            && AllNamed(granted, InWork(t), f, p)
    decreases |steps|
  {
    if steps == [] {
      pieces, f, p := [], [], 0;
    } else {
      var n := |steps| - 1;
      RunLast(s, steps);
      SameStates(s, steps, n);
      SameGranted(s, steps, n);
      var granted := AllGranted(s, steps);
      assert granted[n] == Granted(StateAt(s, steps, n), steps[n]);
      hide Named, NextNamed, AllNamed, Run, Legal, Apply, Enabled, StateAt, AllGranted, Granted, InWork, PieceOf, Sends;
      pieces, f, p := Trace(s, steps[..n]);
      pieces, f, p := OneMore(StateAt(s, steps, n), steps[n], granted, pieces, f, p);
    }
  }

  // ---------------------------------------------------------------- messages

  /**
    Over every run of a message buffer: f names the steps that asked for the messages sent, in
    order, and p the one being written.  They are exactly the requests whose frame fitted.
   */
  lemma MessagesAsked(buffer: Bytes, steps: seq<Step>) returns (f: seq<nat>, p: nat)
    requires |buffer| > 0 && Legal(Start(true, buffer), steps)
    ensures var t := Run(Start(true, buffer), steps);
            && |f| == |t.sentMessages|
            && (forall k :: 0 <= k < |f| ==> f[k] < |steps| && steps[f[k]] == StartSend(t.sentMessages[k]))
            && (forall j, k :: 0 <= j < k < |f| ==> f[j] < f[k])
            && (t.writer.Writing? && t.writer.publish ==>
                  && p < |steps| && steps[p] == StartSend(t.writer.message)
                  && (forall k :: 0 <= k < |f| ==> f[k] < p))
            && (forall i :: 0 <= i < |steps| && steps[i].StartSend? ==>
                  var b, data := StateAt(Start(true, buffer), steps, i), steps[i].data;
                  (i in f || (t.writer.Writing? && t.writer.publish && i == p)) <==>
                    0 < |data| && |data| + PREFIX < SIZE_RANGE && |Contents(b)| + |data| + PREFIX <= |b.buffer| - 1)
  {
    var s, pieces := Start(true, buffer), [];
    pieces, f, p := Trace(s, steps);
    var t, granted := Run(s, steps), AllGranted(s, steps);
    RunFramedFlag(s, steps);
    hide StateAt, Contents, Run, Legal;
    forall i | 0 <= i < |steps|
      ensures granted[i] != [] ==> steps[i] == StartSend(granted[i])
      ensures (i in f || (InWork(t) && i == p)) <==> granted[i] != []
      ensures granted[i] == Granted(StateAt(s, steps, i), steps[i])
    {
    }
  }

  lemma RunFramedFlag(s: State, steps: seq<Step>)
    requires s.head < |s.buffer| && s.tail < |s.buffer| && Legal(s, steps)
    ensures Run(s, steps).framed == s.framed
  {
  }

  /** Over every run the messages received are, in order, arguments of sends: the first ones whose frame fitted. */
  lemma MessagesReceivedAsAsked(buffer: Bytes, steps: seq<Step>)
    requires |buffer| > 0 && Legal(Start(true, buffer), steps)
    ensures var t := Run(Start(true, buffer), steps);
            exists f: seq<nat> ::
              && |f| == |t.receivedMessages|
              && (forall k :: 0 <= k < |f| ==> f[k] < |steps| && steps[f[k]] == StartSend(t.receivedMessages[k]))
              && (forall j, k :: 0 <= j < k < |f| ==> f[j] < f[k])
  {
    var t := Run(Start(true, buffer), steps);
    var f, p := MessagesAsked(buffer, steps);
    MessagesArriveWhole(buffer, steps);
    var g := f[..|t.receivedMessages|];
    hide Legal, Run, Contents;
    forall k | 0 <= k < |g|
      ensures g[k] < |steps| && steps[g[k]] == StartSend(t.receivedMessages[k])
    {
      assert t.receivedMessages[k] == t.sentMessages[k];
    }
  }

  // ---------------------------------------------------------------- bytes

  /**
    Over every run of a stream buffer: what was sent, and so what was received, are the first
    bytes of what was asked for, request by request, each as far as there was space.  No request
    that found space is missing, but p while it is being written.
   */
  lemma BytesAsked(buffer: Bytes, steps: seq<Step>) returns (pieces: seq<Bytes>, f: seq<nat>, p: nat)
    requires |buffer| > 0 && Legal(Start(false, buffer), steps)
    ensures var s, t := Start(false, buffer), Run(Start(false, buffer), steps);
            && t.sent == Flat(pieces) && t.received <= Flat(pieces) && |f| == |pieces|
            && (forall j, k :: 0 <= j < k < |f| ==> f[j] < f[k])
            && (forall k :: 0 <= k < |f| ==>
                  && f[k] < |steps| && steps[f[k]].StartSend?
                  && var data, free := steps[f[k]].data, |buffer| - 1 - |Contents(StateAt(s, steps, f[k]))|;
                     0 < |pieces[k]| && pieces[k] == data[..if |data| < free then |data| else free])
            && (forall i :: 0 <= i < |steps| && steps[i].StartSend? ==>
                  ((i in f || (t.writer.Writing? && t.writer.publish && i == p)) <==>
                     0 < |steps[i].data| && 0 < |buffer| - 1 - |Contents(StateAt(s, steps, i))|))
  {
    var s := Start(false, buffer);
    pieces, f, p := Trace(s, steps);
    RunFramedFlag(s, steps);
    ReceivedIsPrefix(false, buffer, steps);
    var granted := AllGranted(s, steps);
    var t := Run(s, steps);
    hide StateAt, Contents, Run, Legal;
    forall i | 0 <= i < |steps|
      ensures (i in f || (InWork(t) && i == p)) <==> granted[i] != []
      ensures granted[i] == Granted(StateAt(s, steps, i), steps[i])
    {
    }
    forall k | 0 <= k < |f|
      ensures f[k] < |steps| && granted[f[k]] == Granted(StateAt(s, steps, f[k]), steps[f[k]]) == pieces[k] != []
    {
      assert f[k] in f;
    }
  }
}
