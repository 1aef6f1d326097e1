/** Length-prefixed message framing and its incremental reader (src/frame.c). */
module Frame {
  import opened Bytes

  const MESSAGE_MAX: nat := 8 * 1024 * 1024

  datatype Message = Message(kind: Byte, payload: seq<Byte>)

  ghost predicate Fits(message: Message) {
    |message.payload| <= MESSAGE_MAX
  }

  /** kmx_frame_encode of a payload within the limit. */
  function FrameBytes(message: Message): (bytes: seq<Byte>)
    ensures |bytes| >= 2
  {
    PutVarint(|message.payload| + 1) + ([message.kind] + message.payload)
  }

  function StreamBytes(messages: seq<Message>): seq<Byte> {
    if messages == [] then [] else FrameBytes(messages[0]) + StreamBytes(messages[1..])
  }

  datatype Next = Wait | Ready(message: Message, size: nat) | Failed(status: Status)

  /** kmx_framer_next; `size` is what consuming the frame will remove. */
  function NextFrame(pending: seq<Byte>): (next: Next)
    ensures next.Ready? ==> 2 <= next.size <= |pending|
  {
    match ReadVarint(pending, 0)
    case Short => Wait
    case Overlong => Failed(Protocol)
    case Scanned(length, offset) =>
      if length == 0 || length > MESSAGE_MAX + 1 then Failed(Limit)
      else if |pending| - offset < length then Wait
      else Ready(Message(pending[offset], pending[offset + 1..offset + length]), offset + length)
  }

  /** Exactly what the reader makes of what it has: a frame of one byte to 8 MiB and a
  kind once it is all there, an error for any other length, and otherwise nothing
  yet. */
  lemma NextIff(pending: seq<Byte>)
    ensures match ReadVarint(pending, 0)
            case Short => NextFrame(pending) == Wait
            case Overlong => NextFrame(pending) == Failed(Protocol)
            case Scanned(length, offset) =>
              if length == 0 || length > 8 * 1024 * 1024 + 1 then NextFrame(pending) == Failed(Limit)
              else if offset + length > |pending| then NextFrame(pending) == Wait
              else NextFrame(pending) ==
                   Ready(Message(pending[offset], pending[offset + 1..offset + length]), offset + length)
  {
    hide ReadVarint;
  }

  /** What the reader has decided more bytes do not change. */
  lemma NextStays(pending: seq<Byte>, more: seq<Byte>)
    requires NextFrame(pending) != Wait
    ensures NextFrame(pending + more) == NextFrame(pending)
  {
    hide ReadVarint;
    if ReadVarint(pending, 0).Scanned? {
      VarintAgree(pending, pending + more, 0);
    } else {
      VarintOverlong(pending, more);
    }
  }

  /** kmx_framer_consume. */
  function Consumed(pending: seq<Byte>): seq<Byte> {
    match ReadVarint(pending, 0)
    case Scanned(length, offset) => if |pending| - offset < length then pending else pending[offset + length..]
    case _ => pending
  }

  /** Consuming removes exactly the frame that was ready, and always something. */
  lemma ConsumeShrinks(pending: seq<Byte>)
    requires NextFrame(pending).Ready?
    ensures Consumed(pending) == pending[NextFrame(pending).size..]
    ensures |Consumed(pending)| < |pending|
  {
  }

  datatype Drained = Drained(messages: seq<Message>, rest: seq<Byte>, status: Status)

  /** The event loops' `next` / handle / `consume` loop. */
  function Drain(pending: seq<Byte>): Drained
    decreases |pending|
  {
    match NextFrame(pending)
    case Wait => Drained([], pending, Ok)
    case Failed(status) => Drained([], pending, status)
    case Ready(message, size) =>
      var after := Drain(pending[size..]);
      Drained([message] + after.messages, after.rest, after.status)
  }

  // ---- prefixes of a stream -------------------------------------------------------------

  lemma SizeFits(message: Message)
    requires Fits(message)
    ensures |FrameBytes(message)| <= MESSAGE_MAX + 5
  {
    Pow128Values();
    assert Pow128(4) == 128 * Pow128(3);
    PutVarintLength(|message.payload| + 1, 4);
  }

  lemma NextWhole(pending: seq<Byte>, message: Message)
    requires Fits(message) && At(pending, 0, FrameBytes(message))
    ensures NextFrame(pending) == Ready(message, |FrameBytes(message)|)
  {
    hide PutVarint, ReadVarint;
    var length := PutVarint(|message.payload| + 1);
    AtSplit(pending, 0, length, [message.kind] + message.payload);
    AtSplit(pending, |length|, [message.kind], message.payload);
    VarintRoundTrip(pending, 0, |message.payload| + 1);
    assert pending[|length|] == pending[|length|..|length| + 1][0];
  }

  /** A frame cut anywhere, even inside its length, only makes the reader wait. */
  lemma NextCut(pending: seq<Byte>, message: Message)
    requires Fits(message) && |pending| < |FrameBytes(message)| && pending == FrameBytes(message)[..|pending|]
    ensures NextFrame(pending) == Wait
  {
    var length := PutVarint(|message.payload| + 1);
    if |pending| < |length| {
      assert pending[0..] == length[..|pending|];
      VarintCut(pending, 0, |message.payload| + 1);
    } else {
      assert pending[..|length|] == length;
      VarintRoundTrip(pending, 0, |message.payload| + 1);
    }
  }

  /** How many of `messages` lie wholly within the first `bytes` of their stream. */
  function Whole(messages: seq<Message>, bytes: nat): (count: nat)
    ensures count <= |messages|
  {
    if messages == [] || bytes < |FrameBytes(messages[0])| then 0
    else 1 + Whole(messages[1..], bytes - |FrameBytes(messages[0])|)
  }

  ghost predicate AllFit(messages: seq<Message>) {
    forall k :: 0 <= k < |messages| ==> Fits(messages[k])
  }

  /** What is left of the first `cut` bytes once whole messages are taken. */
  function Remainder(messages: seq<Message>, cut: nat): seq<Byte>
    requires cut <= |StreamBytes(messages)|
    decreases |messages|
  {
    if messages == [] || cut < |FrameBytes(messages[0])| then StreamBytes(messages)[..cut]
    else Remainder(messages[1..], cut - |FrameBytes(messages[0])|)
  }

  lemma FirstFrame(messages: seq<Message>, cut: nat)
    requires messages != [] && cut <= |StreamBytes(messages)|
    ensures var first, rest := FrameBytes(messages[0]), StreamBytes(messages[1..]);
            if cut < |first| then StreamBytes(messages)[..cut] == first[..cut]
            else cut - |first| <= |rest| && StreamBytes(messages)[..cut][..|first|] == first &&
                 StreamBytes(messages)[..cut][|first|..] == rest[..cut - |first|]
  {
    hide FrameBytes;
  }

  /** Draining any prefix of a stream, cut at any byte, gives exactly the messages
  wholly inside it and keeps the rest for later. */
  lemma {:induction false} DrainPrefix(messages: seq<Message>, cut: nat)
    requires AllFit(messages) && cut <= |StreamBytes(messages)|
    ensures Drain(StreamBytes(messages)[..cut]) ==
            Drained(messages[..Whole(messages, cut)], Remainder(messages, cut), Ok)
    decreases |messages|
  {
    hide FrameBytes, NextFrame;
    var pending := StreamBytes(messages)[..cut];
    if messages == [] {
      NextEmpty();
    } else {
      hide StreamBytes;
      var size := |FrameBytes(messages[0])|;
      FirstFrame(messages, cut);
      if cut < size {
        NextCut(pending, messages[0]);
      } else {
        NextWhole(pending, messages[0]);
        DrainPrefix(messages[1..], cut - size);
        TakeFirst(messages, Whole(messages[1..], cut - size));
      }
    }
  }

  lemma TakeFirst(messages: seq<Message>, count: nat)
    requires messages != [] && count <= |messages| - 1
    ensures messages[..count + 1] == [messages[0]] + messages[1..][..count]
  {
  }

  /** The remainder is the cut-off start of the first message not yet whole. */
  lemma {:induction false} RemainderIsProperPrefix(messages: seq<Message>, cut: nat)
    requires AllFit(messages) && cut <= |StreamBytes(messages)|
    ensures var rest, whole := Remainder(messages, cut), Whole(messages, cut);
            if whole == |messages| then rest == []
            else |rest| < |FrameBytes(messages[whole])| && |rest| <= MESSAGE_MAX + 4 &&
                 rest == FrameBytes(messages[whole])[..|rest|]
    decreases |messages|
  {
    hide FrameBytes;
    if messages != [] {
      SizeFits(messages[0]);
      FirstFrame(messages, cut);
      if cut >= |FrameBytes(messages[0])| {
        RemainderIsProperPrefix(messages[1..], cut - |FrameBytes(messages[0])|);
      }
    }
  }

  /** Cutting later only adds to what is left. */
  lemma {:induction false} DrainMore(messages: seq<Message>, cut: nat, more: nat)
    requires AllFit(messages) && cut + more <= |StreamBytes(messages)|
    ensures var whole, rest := Whole(messages, cut), Remainder(messages, cut);
            var left := messages[whole..];
            && |rest| + more <= |StreamBytes(left)|
            && StreamBytes(left)[..|rest| + more] == rest + StreamBytes(messages)[cut..cut + more]
            && Whole(messages, cut + more) == whole + Whole(left, |rest| + more)
            && Remainder(messages, cut + more) == Remainder(left, |rest| + more)
    decreases |messages|
  {
    hide FrameBytes, StreamBytes, Whole, Remainder;
    if messages == [] || cut < |FrameBytes(messages[0])| {
      assert messages[0..] == messages;
      NoneWhole(messages, cut);
    } else {
      var size := |FrameBytes(messages[0])|;
      OneWhole(messages, cut);
      OneWhole(messages, cut + more);
      LaterBytes(messages, cut, more);
      DrainMore(messages[1..], cut - size, more);
      assert messages[1..][Whole(messages[1..], cut - size)..] == messages[Whole(messages, cut)..];
    }
  }

  lemma NoneWhole(messages: seq<Message>, cut: nat)
    requires cut <= |StreamBytes(messages)| && (messages == [] || cut < |FrameBytes(messages[0])|)
    ensures Whole(messages, cut) == 0 && Remainder(messages, cut) == StreamBytes(messages)[..cut]
  {
    hide FrameBytes, StreamBytes;
  }

  lemma OneWhole(messages: seq<Message>, cut: nat)
    requires messages != [] && |FrameBytes(messages[0])| <= cut <= |StreamBytes(messages)|
    ensures var size := |FrameBytes(messages[0])|;
            && cut - size <= |StreamBytes(messages[1..])|
            && Whole(messages, cut) == 1 + Whole(messages[1..], cut - size)
            && Remainder(messages, cut) == Remainder(messages[1..], cut - size)
  {
    hide FrameBytes;
    FirstFrame(messages, cut);
  }

  lemma LaterBytes(messages: seq<Message>, cut: nat, more: nat)
    requires messages != [] && |FrameBytes(messages[0])| <= cut && cut + more <= |StreamBytes(messages)|
    ensures var size := |FrameBytes(messages[0])|;
            && cut + more - size <= |StreamBytes(messages[1..])|
            && StreamBytes(messages)[cut..cut + more] == StreamBytes(messages[1..])[cut - size..cut + more - size]
  {
    hide FrameBytes;
  }

  lemma NextEmpty()
    ensures NextFrame([]) == Wait
  {
  }

  lemma {:induction false} WholeOfAll(messages: seq<Message>)
    ensures Whole(messages, |StreamBytes(messages)|) == |messages|
  {
    hide FrameBytes;
    if messages != [] { WholeOfAll(messages[1..]); }
  }

  // ---- chunking ----------------------------------------------------------------------------

  function Joined(chunks: seq<seq<Byte>>): seq<Byte> {
    if chunks == [] then [] else chunks[0] + Joined(chunks[1..])
  }

  datatype Fed = Fed(messages: seq<Message>, pending: seq<Byte>, status: Status)

  /** Push each chunk, draining after each; stop at the first failure. */
  function Feed(pending: seq<Byte>, chunks: seq<seq<Byte>>): Fed
    decreases |chunks|
  {
    if chunks == [] then Fed([], pending, Ok)
    else if |pending| + |chunks[0]| > MESSAGE_MAX * 2 then Fed([], pending, Limit)
    else
      var d := Drain(pending + chunks[0]);
      if d.status != Ok then Fed(d.messages, d.rest, d.status)
      else
        var after := Feed(d.rest, chunks[1..]);
        Fed(d.messages + after.messages, after.pending, after.status)
  }

  ghost predicate SocketSized(chunks: seq<seq<Byte>>) {
    forall k :: 0 <= k < |chunks| ==> |chunks[k]| <= MESSAGE_MAX - 4
  }

  lemma RestFits(messages: seq<Message>, from: nat)
    requires AllFit(messages) && from <= |messages|
    ensures AllFit(messages[from..])
  {
  }

  lemma FeedNone(messages: seq<Message>, cut: nat)
    requires cut <= |StreamBytes(messages)|
    ensures Feed(Remainder(messages, cut), []) == Fed([], Remainder(messages, cut), Ok)
  {
  }

  lemma {:induction false} FeedFrom(messages: seq<Message>, cut: nat, chunks: seq<seq<Byte>>)
    requires AllFit(messages) && SocketSized(chunks) && cut + |Joined(chunks)| <= |StreamBytes(messages)|
    requires Joined(chunks) == StreamBytes(messages)[cut..cut + |Joined(chunks)|]
    ensures var whole, upto := Whole(messages, cut), cut + |Joined(chunks)|;
            && whole <= Whole(messages, upto)
            && Feed(Remainder(messages, cut), chunks) ==
                 Fed(messages[whole..Whole(messages, upto)], Remainder(messages, upto), Ok)
    decreases |chunks|
  {
    hide FrameBytes, Drain, Whole, Remainder, StreamBytes, AllFit, Feed;
    if chunks == [] {
      FeedNone(messages, cut);
      assert messages[Whole(messages, cut)..Whole(messages, cut)] == [];
    } else {
      var whole, rest, more := Whole(messages, cut), Remainder(messages, cut), |chunks[0]|;
      RemainderIsProperPrefix(messages, cut);
      DrainMore(messages, cut, more);
      assert chunks[0] == StreamBytes(messages)[cut..cut + more] by {
        assert Joined(chunks)[..more] == chunks[0];
      }
      RestFits(messages, whole);
      DrainPrefix(messages[whole..], |rest| + more);
      assert Joined(chunks[1..]) == Joined(chunks)[more..];
      FeedFrom(messages, cut + more, chunks[1..]);
      hide Joined;
      var then_, last := Whole(messages, cut + more), Whole(messages, cut + |Joined(chunks)|);
      FeedNext(rest, chunks, messages[whole..then_], Remainder(messages, cut + more));
      assert messages[whole..][..then_ - whole] == messages[whole..then_];
      assert messages[whole..then_] + messages[then_..last] == messages[whole..last];
    }
  }

  /** One chunk that is read without an error. */
  lemma FeedNext(pending: seq<Byte>, chunks: seq<seq<Byte>>, messages: seq<Message>, rest: seq<Byte>)
    requires chunks != [] && |pending| + |chunks[0]| <= MESSAGE_MAX * 2
    requires Drain(pending + chunks[0]) == Drained(messages, rest, Ok)
    ensures var after := Feed(rest, chunks[1..]);
            Feed(pending, chunks) == Fed(messages + after.messages, after.pending, after.status)
  {
    hide Drain;
  }

  /** Chunking independence: however any prefix of a stream of messages is cut
  into socket-sized pieces, draining after each push yields exactly the messages
  wholly received, in order, the push limit is never met, and what is left over
  is the cut-off start of the next message - nothing, when all has arrived. */
  lemma ChunkingIndependence(messages: seq<Message>, chunks: seq<seq<Byte>>)
    requires AllFit(messages) && SocketSized(chunks)
    requires |Joined(chunks)| <= |StreamBytes(messages)| && Joined(chunks) == StreamBytes(messages)[..|Joined(chunks)|]
    ensures var upto := |Joined(chunks)|;
            Feed([], chunks) == Fed(messages[..Whole(messages, upto)], Remainder(messages, upto), Ok)
    ensures Joined(chunks) == StreamBytes(messages) ==> Feed([], chunks) == Fed(messages, [], Ok)
  {
    hide Feed, Joined, FrameBytes;
    var upto := |Joined(chunks)|;
    assert Whole(messages, 0) == 0 && Remainder(messages, 0) == [];
    FeedFrom(messages, 0, chunks);
    assert messages[0..Whole(messages, upto)] == messages[..Whole(messages, upto)];
    WholeOfAll(messages);
    RemainderIsProperPrefix(messages, |StreamBytes(messages)|);
  }

  // ---- as the source runs it ------------------------------------------------------------------

  method EncodeFrame(kind: Byte, payload: seq<Byte>) returns (status: Status, out: seq<Byte>)
    ensures status == (if |payload| > 8 * 1024 * 1024 then Limit else Ok)
    ensures status == Ok ==> out == FrameBytes(Message(kind, payload))
  {
    if |payload| > MESSAGE_MAX { return Limit, []; }
    var length := WriteVarint(|payload| + 1);
    out := length + ([kind] + payload);
    status := Ok;
  }

  class Framer {
    var pending: seq<Byte>

    constructor ()
      ensures pending == []
    {
      pending := [];
    }

    method Push(data: seq<Byte>) returns (status: Status)
      modifies this
      ensures status == (if |old(pending)| + |data| > 16 * 1024 * 1024 then Limit else Ok)
      ensures pending == if status == Ok then old(pending) + data else old(pending)
    {
      if |pending| + |data| > MESSAGE_MAX * 2 { return Limit; }
      pending := pending + data;
      return Ok;
    }

    method NextMessage() returns (next: Next)
      ensures next == NextFrame(pending)
    {
      var scan := GetVarint(pending, 0);
      if scan.Short? { return Wait; }
      if scan.Overlong? { return Failed(Protocol); }
      if scan.value == 0 || scan.value > MESSAGE_MAX + 1 { return Failed(Limit); }
      if |pending| - scan.next < scan.value { return Wait; }
      var end := scan.next + scan.value;
      return Ready(Message(pending[scan.next], pending[scan.next + 1..end]), end);
    }

    method Consume()
      modifies this
      ensures pending == Consumed(old(pending))
    {
      var scan := GetVarint(pending, 0);
      if !scan.Scanned? || |pending| - scan.next < scan.value { return; }
      pending := pending[scan.next + scan.value..];
    }

    /** The reading loop of both event loops. */
    method DrainAll() returns (messages: seq<Message>, status: Status)
      modifies this
      ensures Drained(messages, pending, status) == Drain(old(pending))
    {
      hide NextFrame, Consumed, ReadVarint;
      messages, status := [], Ok;
      while true
        invariant Drain(old(pending)) ==
                  Drained(messages + Drain(pending).messages, Drain(pending).rest, Drain(pending).status)
        decreases |pending|
      {
        var next := NextMessage();
        if next.Wait? { break; }
        if next.Failed? { status := next.status; break; }
        ConsumeShrinks(pending);
        ghost var after := Drain(Consumed(pending));
        assert messages + ([next.message] + after.messages) == (messages + [next.message]) + after.messages;
        messages := messages + [next.message];
        Consume();
      }
    }
  }
}
