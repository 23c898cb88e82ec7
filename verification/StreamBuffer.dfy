/**
  Stream and message buffers (stream_buffer.c): a byte ring of xLength cells that keeps
  one cell free, and the framing that makes a message buffer out of it.  Here the
  functions run undisturbed; module StreamInterleaving runs them against each other.
 */
module StreamBuffer {
  import opened KernelConfig
  import opened Rings

  type Bytes = seq<Byte>

  // ---------------------------------------------------------------- the ring

  /** How many steps after from the ring reaches cell c. */
  function Distance(length: nat, from: nat, c: nat): (d: nat)
    requires from < length && c < length
    ensures d < length && Wrap(length, from + d) == c
  {
    if from <= c then c - from else c + length - from
  }

  /** prvBytesInBuffer, as the unsigned C code computes it. */
  function BytesInBuffer(length: nat, head: nat, tail: nat): (r: nat)
    requires head < length && tail < length
    ensures r < length && Wrap(length, tail + r) == head
  {
    var count := length + head - tail;
    if count >= length then count - length else count
  }

  /** xStreamBufferSpacesAvailable */
  function SpacesAvailable(length: nat, head: nat, tail: nat): (r: nat)
    requires head < length && tail < length
    ensures r == length - 1 - BytesInBuffer(length, head, tail)
  {
    var space := length + tail - head - 1;
    if space >= length then space - length else space
  }

  /** The ring with data copied in from index head on. */
  function Written(buffer: Bytes, head: nat, data: Bytes): (r: Bytes)
    requires head < |buffer| && |data| <= |buffer|
    ensures |r| == |buffer|
  {
    seq(|buffer|, c requires 0 <= c < |buffer| =>
      var d := Distance(|buffer|, head, c);
      if d < |data| then data[d] else buffer[c])
  }

  /** The published and unread bytes. */
  function Unread(buffer: Bytes, head: nat, tail: nat): Bytes
    requires head < |buffer| && tail < |buffer|
  {
    Around(buffer, tail, BytesInBuffer(|buffer|, head, tail))
  }

  /** What is written into free cells stays clear of the unread bytes, and follows them. */
  lemma WriteIntoFree(buffer: Bytes, head: nat, tail: nat, data: Bytes)
    requires head < |buffer| && tail < |buffer|
    requires |data| <= SpacesAvailable(|buffer|, head, tail)
    ensures Unread(Written(buffer, head, data), head, tail) == Unread(buffer, head, tail)
    ensures BytesInBuffer(|buffer|, Wrap(|buffer|, head + |data|), tail)
         == BytesInBuffer(|buffer|, head, tail) + |data|
    ensures Unread(Written(buffer, head, data), Wrap(|buffer|, head + |data|), tail)
         == Unread(buffer, head, tail) + data
  {
    var n, used := |buffer|, BytesInBuffer(|buffer|, head, tail);
    var r := Unread(Written(buffer, head, data), Wrap(n, head + |data|), tail);
    forall i | 0 <= i < used
      ensures r[i] == Unread(buffer, head, tail)[i]
    {
      assert Distance(n, head, Wrap(n, tail + i)) == n - used + i;
    }
    forall i | 0 <= i < |data|
      ensures r[used + i] == data[i]
    {
      assert Distance(n, head, Wrap(n, tail + (used + i))) == i;
    }
    assert r == Unread(buffer, head, tail) + data;
    assert Unread(Written(buffer, head, data), head, tail) == r[..used];
  }

  /** Moving the tail on by n drops the n oldest bytes. */
  lemma ConsumeOldest(buffer: Bytes, head: nat, tail: nat, n: nat)
    requires head < |buffer| && tail < |buffer| && n <= BytesInBuffer(|buffer|, head, tail)
    ensures Around(buffer, tail, n) == Unread(buffer, head, tail)[..n]
    ensures Unread(buffer, head, Wrap(|buffer|, tail + n)) == Unread(buffer, head, tail)[n..]
  {
    var length := |buffer|;
    var t, all := Wrap(length, tail + n), Unread(buffer, head, tail);
    forall i | 0 <= i < |all| - n
      ensures Unread(buffer, head, t)[i] == all[n + i]
    {
      assert Wrap(length, t + i) == Wrap(length, tail + (n + i));
    }
  }

  lemma AroundTwice(buffer: Bytes, tail: nat, a: nat, b: nat)
    requires tail < |buffer| && a + b < |buffer|
    ensures Around(buffer, tail, a) + Around(buffer, Wrap(|buffer|, tail + a), b) == Around(buffer, tail, a + b)
  {
    var n := |buffer|;
    var t, all := Wrap(n, tail + a), Around(buffer, tail, a + b);
    forall i | 0 <= i < b
      ensures Around(buffer, t, b)[i] == all[a + i]
    {
      assert Wrap(n, t + i) == Wrap(n, tail + (a + i));
    }
  }

  lemma WrittenTwice(buffer: Bytes, head: nat, a: Bytes, b: Bytes)
    requires head < |buffer| && |a| + |b| < |buffer|
    ensures Written(Written(buffer, head, a), Wrap(|buffer|, head + |a|), b) == Written(buffer, head, a + b)
  {
    var n := |buffer|;
    var h := Wrap(n, head + |a|);
    var r, s := Written(Written(buffer, head, a), h, b), Written(buffer, head, a + b);
    forall c | 0 <= c < n
      ensures r[c] == s[c]
    {
      var d := Distance(n, head, c);
      assert Distance(n, h, c) == if d >= |a| then d - |a| else d + n - |a|;
    }
  }

  // ---------------------------------------------------------------- framing

  /** sbBYTES_TO_STORE_MESSAGE_LENGTH: a size_t. */
  const PREFIX: nat := 4
  const SIZE_RANGE: nat := 0x1_0000_0000

  /** A size_t in memory, the least significant byte first. */
  function EncodeLength(n: nat): (r: Bytes)
    requires n < SIZE_RANGE
    ensures |r| == PREFIX
  {
    [n % 256, n / 256 % 256, n / 65536 % 256, n / 16777216]
  }

  function DecodeLength(b: seq<nat>): nat
    requires |b| == PREFIX
  {
    b[0] + 256 * b[1] + 65536 * b[2] + 16777216 * b[3]
  }

  lemma LengthRoundTrip(n: nat)
    requires n < SIZE_RANGE
    ensures DecodeLength(EncodeLength(n)) == n
  {
    assert n == 256 * (n / 256) + n % 256;
    assert n / 256 == 256 * (n / 65536) + n / 256 % 256;
    assert n / 65536 == 256 * (n / 16777216) + n / 65536 % 256;
  }

  predicate IsMessage(m: Bytes) {
    0 < |m| < SIZE_RANGE
  }

  function Frame(m: Bytes): (r: Bytes)
    requires |m| < SIZE_RANGE
    ensures |r| == PREFIX + |m|
  {
    EncodeLength(|m|) + m
  }

  ghost predicate AllMessages(ms: seq<Bytes>) {
    forall m :: m in ms ==> IsMessage(m)
  }

  /** The bytes of a message buffer that holds the messages ms. */
  ghost function Frames(ms: seq<Bytes>): (r: Bytes)
    requires AllMessages(ms)
    ensures ms != [] ==> |r| > PREFIX
  {
    if ms == [] then []
    else
      assert ms[0] in ms;
      Frame(ms[0]) + Frames(ms[1..])
  }

  lemma {:induction false} FramesAppend(ms: seq<Bytes>, m: Bytes)
    requires AllMessages(ms) && IsMessage(m)
    ensures AllMessages(ms + [m]) && Frames(ms + [m]) == Frames(ms) + Frame(m)
  {
    assert forall x :: x in ms + [m] ==> x in ms || x == m;
    if ms == [] {
      assert ms + [m] == [m];
      assert Frames([m][1..]) == [];
      assert Frames([m]) == Frame(m);
    } else {
      FramesAppend(ms[1..], m);
      assert (ms + [m])[1..] == ms[1..] + [m];
    }
  }

  /** The first frame of a non-empty buffer decodes to the first message, whole. */
  lemma FirstFrame(ms: seq<Bytes>)
    requires AllMessages(ms) && ms != []
    ensures IsMessage(ms[0]) && AllMessages(ms[1..])
    ensures var b, n := Frames(ms), |ms[0]|;
            && PREFIX + n <= |b| && DecodeLength(b[..PREFIX]) == n
            && b[PREFIX..PREFIX + n] == ms[0] && b[PREFIX + n..] == Frames(ms[1..])
  {
    assert ms[0] in ms;
    LengthRoundTrip(|ms[0]|);
    assert Frames(ms)[..PREFIX] == EncodeLength(|ms[0]|);
  }

  /** Contents determine the messages: two lists of messages with the same bytes are the same. */
  lemma {:induction false} FramesInjective(ms: seq<Bytes>, ns: seq<Bytes>)
    requires AllMessages(ms) && AllMessages(ns) && Frames(ms) == Frames(ns)
    ensures ms == ns
  {
    if ms == [] || ns == [] {
    } else {
      FirstFrame(ms);
      FirstFrame(ns);
      FramesInjective(ms[1..], ns[1..]);
    }
  }

  // ---------------------------------------------------------------- the functions

  class Buffer {
    const isMessageBuffer: bool
    const buffer: array<Byte>
    var head: nat
    var tail: nat
    /** The messages in a message buffer, oldest first. */
    ghost var messages: seq<Bytes>

    ghost predicate Shape()
      reads this
    {
      buffer.Length >= 1 && head < buffer.Length && tail < buffer.Length
    }

    ghost function Contents(): (r: Bytes)
      requires Shape()
      reads this, buffer
    {
      Unread(buffer[..], head, tail)
    }

    ghost predicate Valid()
      reads this, buffer
    {
      && Shape() && AllMessages(messages)
      && (isMessageBuffer ==> Contents() == Frames(messages))
    }

    /** prvInitialiseNewStreamBuffer: one byte more than asked for is allocated. */
    constructor (size: nat, isMessageBuffer: bool)
      requires size > if isMessageBuffer then PREFIX else 0
      ensures Valid() && fresh(buffer) && Contents() == [] && messages == []
      ensures buffer.Length == size + 1 && this.isMessageBuffer == isMessageBuffer
    {
      this.isMessageBuffer := isMessageBuffer;
      buffer := new Byte[size + 1];
      head, tail, messages := 0, 0, [];
    }

    /** prvWriteBytesToBuffer: one copy up to the end of the storage, one from its start. */
    method WriteBytesToBuffer(data: Bytes, from: nat) returns (nextHead: nat)
      requires from < buffer.Length && 0 < |data| < buffer.Length
      modifies buffer
      ensures buffer[..] == Written(old(buffer[..]), from, data)
      ensures nextHead == Wrap(buffer.Length, from + |data|)
    {
      ghost var was := buffer[..];
      var firstLength := if buffer.Length - from < |data| then buffer.Length - from else |data|;
      forall i | 0 <= i < firstLength {
        buffer[from + i] := data[i];
      }
      if |data| > firstLength {
        forall i | 0 <= i < |data| - firstLength {
          buffer[i] := data[firstLength + i];
        }
      }
      nextHead := from + |data|;
      if nextHead >= buffer.Length {
        nextHead := nextHead - buffer.Length;
      }
      forall c | 0 <= c < buffer.Length
        ensures buffer[c] == Written(was, from, data)[c]
      {
        var d := Distance(buffer.Length, from, c);
      }
    }

    /** prvReadBytesFromBuffer */
    method ReadBytesFromBuffer(count: nat, from: nat) returns (data: Bytes, nextTail: nat)
      requires from < buffer.Length && 0 < count < buffer.Length
      ensures data == Around(buffer[..], from, count)
      ensures nextTail == Wrap(buffer.Length, from + count)
    {
      var firstLength := if buffer.Length - from < count then buffer.Length - from else count;
      data := buffer[from..from + firstLength];
      if count > firstLength {
        data := data + buffer[..count - firstLength];
      }
      forall i | 0 <= i < count
        ensures data[i] == Around(buffer[..], from, count)[i]
      {
        assert buffer[..][Wrap(buffer.Length, from + i)] == buffer[Wrap(buffer.Length, from + i)];
      }
      nextTail := from + count;
      if nextTail >= buffer.Length {
        nextTail := nextTail - buffer.Length;
      }
    }

    /** prvWriteMessageToBuffer for a stream buffer: as many bytes as there is space for. */
    method WriteStream(data: Bytes, space: nat) returns (written: nat)
      requires Valid() && !isMessageBuffer && space <= SpacesAvailable(buffer.Length, head, tail)
      modifies this`head, buffer
      ensures Valid() && written == if |data| < space then |data| else space
      ensures Contents() == old(Contents()) + data[..written]
    {
      written := if |data| < space then |data| else space;
      if written != 0 {
        WriteIntoFree(buffer[..], head, tail, data[..written]);
        head := WriteBytesToBuffer(data[..written], head);
      } else {
        assert data[..written] == [];
      }
    }

    /** prvWriteMessageToBuffer for a message buffer: the whole frame or nothing. */
    method WriteMessage(data: Bytes, space: nat) returns (written: nat)
      requires Valid() && isMessageBuffer && space <= SpacesAvailable(buffer.Length, head, tail)
      requires |data| < SIZE_RANGE
      modifies this`head, this`messages, buffer
      ensures Valid() && written == if space >= |data| + PREFIX then |data| else 0
      ensures messages == if written > 0 then old(messages) + [data] else old(messages)
    {
      var nextHead := head;
      written := |data|;
      if space >= |data| + PREFIX {
        WriteIntoFree(buffer[..], head, tail, EncodeLength(|data|));
        ghost var was := buffer[..];
        nextHead := WriteBytesToBuffer(EncodeLength(|data|), nextHead);
        if written != 0 {
          WriteIntoFree(was, head, tail, Frame(data));
          WrittenTwice(was, head, EncodeLength(|data|), data);
          FramesAppend(messages, data);
          head := WriteBytesToBuffer(data, nextHead);
          messages := messages + [data];
        }
      } else {
        written := 0;
      }
    }

    /** xStreamBufferSend without waiting, and xStreamBufferSendFromISR. */
    method Send(data: Bytes) returns (written: nat)
      requires Valid() && |data| + PREFIX < SIZE_RANGE
      modifies this`head, this`messages, buffer
      ensures Valid()
      ensures !isMessageBuffer ==>
                && written == (var free := buffer.Length - 1 - |old(Contents())|; if |data| < free then |data| else free)
                && Contents() == old(Contents()) + data[..written]
      ensures isMessageBuffer && 0 < |data| && |old(Contents())| + PREFIX + |data| <= buffer.Length - 1 ==>
                written == |data| && messages == old(messages) + [data]
      ensures isMessageBuffer && !(0 < |data| && |old(Contents())| + PREFIX + |data| <= buffer.Length - 1) ==>
                written == 0 && messages == old(messages) && Contents() == old(Contents())
    {
      var space := SpacesAvailable(buffer.Length, head, tail);
      if isMessageBuffer {
        written := WriteMessage(data, space);
      } else {
        written := WriteStream(data, space);
      }
    }

    /** The last step of prvReadMessageFromBuffer: copy the data out, then free its cells. */
    method TakeBytes(count: nat, nextTail: nat, ghost skip: nat) returns (data: Bytes)
      requires Shape() && 0 < count && skip + count <= |Contents()|
      requires nextTail == Wrap(buffer.Length, tail + skip)
      modifies this`tail
      ensures Shape()
      ensures data == old(Contents())[skip..skip + count] && Contents() == old(Contents())[skip + count..]
    {
      ConsumeOldest(buffer[..], head, tail, skip + count);
      AroundTwice(buffer[..], tail, skip, count);
      assert Wrap(buffer.Length, nextTail + count) == Wrap(buffer.Length, tail + (skip + count));
      data, tail := ReadBytesFromBuffer(count, nextTail);
    }

    /** prvReadMessageFromBuffer */
    method ReadMessageFromBuffer(maximum: nat, bytesAvailable: nat) returns (data: Bytes)
      requires Valid() && bytesAvailable == |Contents()|
      requires bytesAvailable > if isMessageBuffer then PREFIX else 0
      modifies this`tail, this`messages
      ensures Valid()
      ensures !isMessageBuffer ==>
                var n := if maximum < bytesAvailable then maximum else bytesAvailable;
                data == old(Contents())[..n] && Contents() == old(Contents())[n..]
      ensures isMessageBuffer ==> old(messages) != []
      ensures isMessageBuffer && |old(messages)[0]| <= maximum ==>
                data == old(messages)[0] && messages == old(messages)[1..]
      ensures isMessageBuffer && |old(messages)[0]| > maximum ==>
                data == [] && messages == old(messages) && tail == old(tail)
    {
      data := [];
      var nextTail, available, wanted := tail, bytesAvailable, maximum;
      ghost var skip := 0;
      if isMessageBuffer {
        FirstFrame(messages);
        ConsumeOldest(buffer[..], head, tail, PREFIX);
        var prefix;
        prefix, nextTail := ReadBytesFromBuffer(PREFIX, tail);
        skip, wanted, available := PREFIX, DecodeLength(prefix), available - PREFIX;
        if wanted > maximum {
          wanted := 0;
        }
      }
      var count := if wanted < available then wanted else available;
      if count != 0 {
        data := TakeBytes(count, nextTail, skip);
        if isMessageBuffer {
          messages := messages[1..];
        }
      }
    }

    /** xStreamBufferReceive without waiting, and xStreamBufferReceiveFromISR. */
    method Receive(maximum: nat) returns (data: Bytes)
      requires Valid()
      modifies this`tail, this`messages
      ensures Valid()
      ensures !isMessageBuffer ==> old(Contents()) == data + Contents()
      ensures !isMessageBuffer ==> |data| == if maximum < |old(Contents())| then maximum else |old(Contents())|
      ensures isMessageBuffer && old(messages) != [] && |old(messages)[0]| <= maximum ==>
                data == old(messages)[0] && messages == old(messages)[1..]
      ensures isMessageBuffer && (old(messages) == [] || |old(messages)[0]| > maximum) ==>
                data == [] && messages == old(messages) && tail == old(tail)
    {
      data := [];
      var available := BytesInBuffer(buffer.Length, head, tail);
      if available > if isMessageBuffer then PREFIX else 0 {
        data := ReadMessageFromBuffer(maximum, available);
      }
    }

    /** xStreamBufferNextMessageLengthBytes; the branch for other counts trips an assertion there. */
    method NextMessageLengthBytes() returns (n: nat)
      requires Valid()
      ensures n == if isMessageBuffer && messages != [] then |messages[0]| else 0
    {
      n := 0;
      if isMessageBuffer {
        var available := BytesInBuffer(buffer.Length, head, tail);
        if available > PREFIX {
          FirstFrame(messages);
          ConsumeOldest(buffer[..], head, tail, PREFIX);
          var prefix, _ := ReadBytesFromBuffer(PREFIX, tail);
          n := DecodeLength(prefix);
        } else {
          assert available == 0;
        }
      }
    }
  }
}
