/** The client's outgoing byte queue (tools/kmx_attach.c): frames are appended,
the transport takes prefixes, and consumed bytes are reclaimed lazily. */
module Outgoing {
  import opened Bytes
  import opened Frame

  const SOFT_LIMIT: nat := 256 * 1024
  const CONTROL_RESERVE: nat := 64 * 1024
  const HARD_LIMIT: nat := SOFT_LIMIT + MESSAGE_MAX + CONTROL_RESERVE
  const WRITE_BUDGET: nat := 64 * 1024

  /** `attempt` is the length of an unfinished TLS write, zero when there is none. */
  datatype Queue = Queue(bytes: seq<Byte>, offset: nat, attempt: nat, queued: nat, written: nat, failed: bool)

  const EMPTY_QUEUE := Queue([], 0, 0, 0, 0, false)

  function Pending(q: Queue): int {
    |q.bytes| - q.offset
  }

  function Compacted(q: Queue): Queue {
    if 0 < q.offset <= |q.bytes| && (q.offset >= |q.bytes| / 2 || q.offset >= WRITE_BUDGET)
    then q.(bytes := q.bytes[q.offset..], offset := 0) else q
  }

  /** send_message for a framed message. */
  function Append(q: Queue, framed: seq<Byte>): Queue {
    if q.failed then q
    else
      var c := Compacted(q);
      if |c.bytes| > HARD_LIMIT || |framed| > HARD_LIMIT - |c.bytes| || |framed| > TWO64 - 1 - c.queued
      then c.(failed := true)
      else c.(bytes := c.bytes + framed, queued := c.queued + |framed|)
  }

  function Post(q: Queue, message: Message): Queue {
    if q.failed then q
    else if |message.payload| > MESSAGE_MAX then Compacted(q).(failed := true)
    else Append(q, FrameBytes(message))
  }

  /** What the transport did with the bytes it was offered. */
  datatype Wrote = Took(count: nat) | Busy | Broken

  function Attempt(q: Queue): nat
    requires q.offset <= |q.bytes|
  {
    if q.attempt != 0 then q.attempt else if Pending(q) < WRITE_BUDGET then Pending(q) else WRITE_BUDGET
  }

  function Offered(q: Queue): seq<Byte>
    requires q.offset <= |q.bytes| && q.offset + Attempt(q) <= |q.bytes|
  {
    q.bytes[q.offset..q.offset + Attempt(q)]
  }

  /** outgoing_flush: the queue afterwards, and whether the connection survives. */
  function Flush(q: Queue, tls: bool, wrote: Wrote): (Queue, bool)
    requires q.offset <= |q.bytes|
  {
    if Pending(q) == 0 then (q, true)
    else
      var attempt := Attempt(q);
      var tried := if tls then q.(attempt := attempt) else q;
      match wrote
      case Busy => (tried, true)
      case Broken => (tried, false)
      case Took(count) =>
        if count == 0 || count > attempt then (tried, false)
        else
          var taken := tried.(offset := tried.offset + count, written := tried.written + count, attempt := 0);
          (if taken.offset == |taken.bytes| then taken.(bytes := [], offset := 0) else taken, true)
  }

  function Discard(q: Queue): Queue {
    q.(bytes := [], offset := 0, attempt := 0, queued := 0, written := 0)
  }

  // ---- what the queue is for ------------------------------------------------------------

  /** `stream` is every byte queued in this transport generation. */
  ghost predicate Carries(q: Queue, stream: seq<Byte>) {
    && q.offset <= |q.bytes| && q.offset + q.attempt <= |q.bytes|
    && q.queued == |stream| && q.written <= |stream|
    && q.queued - q.written == Pending(q)
    && q.bytes[q.offset..] == stream[q.written..]
  }

  lemma CompactedCarries(q: Queue, stream: seq<Byte>)
    requires Carries(q, stream)
    ensures Carries(Compacted(q), stream)
  {
  }

  /** A message is queued whole or the queue fails and keeps what it had. */
  lemma PostCarries(q: Queue, stream: seq<Byte>, message: Message)
    requires Carries(q, stream)
    ensures var after := Post(q, message);
            && Carries(after, if after.failed then stream else stream + FrameBytes(message))
            && after.written == q.written && after.attempt == q.attempt
            && (!after.failed ==> !q.failed && after.queued == q.queued + |FrameBytes(message)|)
            && (after.failed ==> after.queued == q.queued)
  {
    hide FrameBytes;
    CompactedCarries(q, stream);
    var c, framed := Compacted(q), FrameBytes(message);
    assert (c.bytes + framed)[c.offset..] == c.bytes[c.offset..] + framed;
    assert (stream + framed)[q.written..] == stream[q.written..] + framed;
  }

  /** Whatever the transport takes is the next piece of the stream. */
  lemma FlushCarries(q: Queue, stream: seq<Byte>, tls: bool, wrote: Wrote)
    requires Carries(q, stream)
    ensures var (after, ok) := Flush(q, tls, wrote);
            && Carries(after, stream) && after.failed == q.failed
            && q.written <= after.written <= q.written + Attempt(q) <= |stream|
            && (after.written > q.written ==> after.attempt == 0)
            && Offered(q)[..after.written - q.written] == stream[q.written..after.written]
            && (tls && ok && Pending(q) > 0 && wrote == Busy ==> after.attempt == Attempt(q) > 0)
  {
    if Pending(q) > 0 && wrote.Took? && 0 < wrote.count <= Attempt(q) {
      TakenCarries(q, stream, tls, wrote.count);
    } else {
      assert stream[q.written..q.written] == [];
    }
  }

  lemma TakenCarries(q: Queue, stream: seq<Byte>, tls: bool, taken: nat)
    requires Carries(q, stream) && Pending(q) > 0 && 0 < taken <= Attempt(q)
    ensures var after := Flush(q, tls, Took(taken)).0;
            && Carries(after, stream) && after.failed == q.failed && after.attempt == 0 &&
               after.written == q.written + taken
            && q.written + Attempt(q) <= |stream|
            && Offered(q)[..taken] == stream[q.written..after.written]
  {
    var after := Flush(q, tls, Took(taken)).0;
    assert Offered(q)[..taken] == q.bytes[q.offset..][..taken];
    assert stream[q.written..after.written] == stream[q.written..][..taken];
    assert stream[after.written..] == stream[q.written..][taken..];
    assert q.bytes[q.offset..][taken..] == q.bytes[q.offset + taken..];
    assert after.bytes[after.offset..] == q.bytes[q.offset + taken..];
  }

  /** Exactly when a message is taken: a queue that works takes whatever leaves it
  within 256 KiB, 8 MiB and 64 KiB, the consumed front included where it is too
  small to be reclaimed. */
  lemma PostTakesIff(q: Queue, message: Message)
    requires q.offset <= |q.bytes|
    ensures var kept := if q.offset < |q.bytes| / 2 && q.offset < 64 * 1024 then q.offset else 0;
            var size := |FrameBytes(message)|;
            !Post(q, message).failed <==>
              && !q.failed && |message.payload| <= 8 * 1024 * 1024
              && kept + Pending(q) + size <= 256 * 1024 + 8 * 1024 * 1024 + 64 * 1024
              && q.queued + size < TWO64
  {
    hide FrameBytes;
  }

  /** So while less than 256 KiB are pending, a message of up to 7 MiB always is, as
  long as the bytes ever queued can be counted. */
  lemma RoomBelowSoftLimit(q: Queue, message: Message)
    requires q.offset <= |q.bytes| && !q.failed && Pending(q) < 256 * 1024
    requires |message.payload| <= 7 * 1024 * 1024 && q.queued + |message.payload| + 6 < TWO64
    ensures !Post(q, message).failed
  {
    PostTakesIff(q, message);
    SizeAtMost(message);
    hide FrameBytes;
  }

  lemma SizeAtMost(message: Message)
    requires Fits(message)
    ensures |FrameBytes(message)| <= |message.payload| + 6
  {
    Pow128Values();
    assert Pow128(4) == 128 * Pow128(3);
    PutVarintLength(|message.payload| + 1, 4);
  }

  /** A write that is not a TLS retry offers all that is pending, up to 64 KiB; what
  the transport takes of it is gone from the queue, and only a transport that
  breaks or takes nothing ends the connection. */
  lemma FlushTakes(q: Queue, tls: bool, wrote: Wrote)
    requires q.offset + q.attempt <= |q.bytes|
    ensures var offered := if q.attempt != 0 then q.attempt else Min(Pending(q), 64 * 1024);
            var (after, ok) := Flush(q, tls, wrote);
            && |Offered(q)| == offered
            && (ok <==> Pending(q) == 0 || wrote == Busy || (wrote.Took? && 0 < wrote.count <= offered))
            && (if Pending(q) > 0 && wrote.Took? && 0 < wrote.count <= offered
                then Pending(after) == Pending(q) - wrote.count && after.written == q.written + wrote.count
                else Pending(after) == Pending(q) && after.written == q.written)
  {
  }

  // ---- whole generations -------------------------------------------------------------------

  datatype Op = Send(message: Message) | Write(tls: bool, wrote: Wrote)

  function Apply(q: Queue, op: Op): Queue
    requires q.offset <= |q.bytes|
  {
    match op
    case Send(message) => Post(q, message)
    case Write(tls, wrote) => Flush(q, tls, wrote).0
  }

  /** The bytes the transport took during the step. */
  function TakenBy(q: Queue, op: Op): seq<Byte>
    requires q.offset + q.attempt <= |q.bytes|
  {
    match op
    case Send(_) => []
    case Write(tls, wrote) =>
      if Pending(q) > 0 && wrote.Took? && wrote.count <= Attempt(q) then Offered(q)[..wrote.count] else []
  }

  datatype Generation = Generation(q: Queue, queuedBytes: seq<Byte>, takenBytes: seq<Byte>)

  ghost function AfterOps(g: Generation, ops: seq<Op>): Generation
    requires Carries(g.q, g.queuedBytes)
    decreases |ops|
  {
    if ops == [] then g
    else
      var op, next := ops[0], Apply(g.q, ops[0]);
      var queuedBytes := if op.Send? && !next.failed then g.queuedBytes + FrameBytes(op.message) else g.queuedBytes;
      ApplyCarries(g.q, g.queuedBytes, op);
      AfterOps(Generation(next, queuedBytes, g.takenBytes + TakenBy(g.q, op)), ops[1..])
  }

  lemma ApplyCarries(q: Queue, stream: seq<Byte>, op: Op)
    requires Carries(q, stream)
    ensures Carries(Apply(q, op), if op.Send? && !Apply(q, op).failed then stream + FrameBytes(op.message) else stream)
  {
    match op
    case Send(message) => PostCarries(q, stream, message);
    case Write(tls, wrote) => FlushCarries(q, stream, tls, wrote);
  }

  lemma TakenIsNext(q: Queue, stream: seq<Byte>, op: Op)
    requires Carries(q, stream)
    ensures q.written <= Apply(q, op).written <= |stream|
    ensures TakenBy(q, op) == stream[q.written..Apply(q, op).written]
  {
    match op
    case Send(message) => PostCarries(q, stream, message);
    case Write(tls, wrote) => FlushCarries(q, stream, tls, wrote);
  }

  /** Over any sequence of sends and writes in one generation, what the transport
  took is a prefix of what was queued, and the counters say how long each is. */
  lemma {:induction false} TakenIsPrefix(g: Generation, ops: seq<Op>)
    requires Carries(g.q, g.queuedBytes) && g.takenBytes == g.queuedBytes[..g.q.written]
    ensures var after := AfterOps(g, ops);
            && Carries(after.q, after.queuedBytes)
            && after.takenBytes == after.queuedBytes[..after.q.written]
            && g.queuedBytes <= after.queuedBytes
    decreases |ops|
  {
    hide FrameBytes;
    if ops != [] {
      var op, next := ops[0], Apply(g.q, ops[0]);
      ApplyCarries(g.q, g.queuedBytes, op);
      TakenIsNext(g.q, g.queuedBytes, op);
      hide Apply, TakenBy;
      var queuedBytes := if op.Send? && !next.failed then g.queuedBytes + FrameBytes(op.message) else g.queuedBytes;
      assert g.takenBytes + TakenBy(g.q, op) == queuedBytes[..next.written];
      TakenIsPrefix(Generation(next, queuedBytes, g.takenBytes + TakenBy(g.q, op)), ops[1..]);
    }
  }

  function PostAll(q: Queue, messages: seq<Message>): Queue
    decreases |messages|
  {
    if messages == [] then q else PostAll(Post(q, messages[0]), messages[1..])
  }

  /** A TLS retry offers the same bytes and the same length as the attempt that
  was interrupted, whatever was appended, moved or compacted in between. */
  lemma {:induction false} RetryOffersTheSame(q: Queue, stream: seq<Byte>, messages: seq<Message>)
    requires Carries(q, stream) && q.attempt > 0
    ensures var later := PostAll(q, messages);
            && later.offset <= |later.bytes| && later.offset + Attempt(later) <= |later.bytes|
            && Attempt(later) == Attempt(q) && Offered(later) == Offered(q)
    decreases |messages|
  {
    hide FrameBytes, Post, Offered;
    if messages != [] {
      var next := Post(q, messages[0]);
      var stream' := if next.failed then stream else stream + FrameBytes(messages[0]);
      PostCarries(q, stream, messages[0]);
      RetryOffersTheSame(next, stream', messages[1..]);
      OfferedIs(next, stream');
      OfferedIs(q, stream);
      assert stream'[q.written..q.written + q.attempt] == stream[q.written..q.written + q.attempt];
    }
  }

  /** An interrupted attempt is the stream from what was written. */
  lemma OfferedIs(q: Queue, stream: seq<Byte>)
    requires Carries(q, stream) && q.attempt > 0
    ensures Attempt(q) == q.attempt && q.written + q.attempt <= |stream|
    ensures Offered(q) == stream[q.written..q.written + q.attempt]
  {
    assert Offered(q) == q.bytes[q.offset..][..q.attempt];
    assert stream[q.written..q.written + q.attempt] == stream[q.written..][..q.attempt];
  }

  // ---- the queue as the source keeps it ----------------------------------------------------

  /** A byte array grown by doubling, of which `size` bytes are in use. */
  class SendQueue {
    var data: array<Byte>
    var size: nat
    var offset: nat
    var attempt: nat
    var queued: nat
    var written: nat
    var failed: bool

    ghost predicate Valid()
      reads this
    {
      size <= data.Length && offset + attempt <= size
    }

    ghost function View(): Queue
      requires Valid()
      reads this, data
    {
      Queue(data[..size], offset, attempt, queued, written, failed)
    }

    constructor ()
      ensures Valid() && fresh(data) && View() == EMPTY_QUEUE
    {
      data, size, offset := new Byte[0], 0, 0;
      attempt, queued, written, failed := 0, 0, 0, false;
    }

    function PendingBytes(): (pending: nat)
      requires Valid()
      reads this, data
      ensures pending == Pending(View())
    {
      size - offset
    }

    /** Room for `needed` bytes; those in use move with the array. */
    method Reserve(needed: nat)
      requires Valid()
      modifies this`data
      ensures Valid() && View() == old(View()) && needed <= data.Length
      ensures data == old(data) || fresh(data)
    {
      if needed <= data.Length { return; }
      var capacity := if data.Length != 0 then data.Length else 256;
      while capacity < needed
        invariant 0 < capacity && data.Length <= capacity
        decreases needed - capacity
      {
        capacity := capacity * 2;
      }
      var replacement := new Byte[capacity];
      for k := 0 to size
        modifies replacement
        invariant replacement[..k] == data[..k]
      {
        replacement[k] := data[k];
      }
      data := replacement;
      assert data[..size] == old(View().bytes);
    }

    method AppendBytes(piece: seq<Byte>)
      requires Valid()
      modifies this`data, this`size, data
      ensures Valid() && View() == old(View()).(bytes := old(View().bytes) + piece)
      ensures data == old(data) || fresh(data)
    {
      Reserve(size + |piece|);
      for k := 0 to |piece|
        modifies data
        invariant data[..size] == old(View().bytes) && data[size..size + k] == piece[..k]
      {
        data[size + k] := piece[k];
      }
      assert data[size..size + |piece|] == piece;
      assert data[..size + |piece|] == data[..size] + data[size..size + |piece|];
      size := size + |piece|;
    }

    method MoveToFront()
      requires Valid()
      modifies data
      ensures data[..size - offset] == old(data[offset..size])
    {
      for k := 0 to size - offset
        invariant forall j :: 0 <= j < k ==> data[j] == old(data[offset + j])
        invariant forall j :: k <= j < size ==> data[j] == old(data[j])
      {
        data[k] := data[offset + k];
      }
    }

    /** Reclaims what was consumed once it is half the bytes, or a write's worth. */
    method Compact()
      requires Valid()
      modifies this`size, this`offset, data
      ensures Valid() && View() == Compacted(old(View()))
    {
      if offset == 0 || (offset < size / 2 && offset < WRITE_BUDGET) { return; }
      assert old(View().bytes)[offset..] == data[offset..size];
      MoveToFront();
      size, offset := size - offset, 0;
    }

    method Send(message: Message) returns (ok: bool)
      requires Valid()
      modifies this`data, this`size, this`offset, this`queued, this`failed, data
      ensures Valid() && View() == Post(old(View()), message) && ok == !failed
      ensures data == old(data) || fresh(data)
    {
      if failed { return false; }
      var status, framed := EncodeFrame(message.kind, message.payload);
      Compact();
      if status != Ok || size > HARD_LIMIT || |framed| > HARD_LIMIT - size || |framed| > TWO64 - 1 - queued {
        failed := true;
        return false;
      }
      AppendBytes(framed);
      queued := queued + |framed|;
      ok := true;
    }

    /** `wrote` is what the transport did with the bytes it was offered. */
    method FlushOnce(tls: bool, wrote: Wrote) returns (ok: bool)
      requires Valid()
      modifies this`size, this`offset, this`attempt, this`written
      ensures Valid() && (View(), ok) == Flush(old(View()), tls, wrote)
    {
      var pending := size - offset;
      if pending == 0 { return true; }
      var length := if attempt != 0 then attempt else if pending < WRITE_BUDGET then pending else WRITE_BUDGET;
      if tls { attempt := length; }
      match wrote {
        case Busy => return true;
        case Broken => return false;
        case Took(count) =>
          if count == 0 || count > length { return false; }
          offset, written, attempt := offset + count, written + count, 0;
          if offset == size { offset, size := 0, 0; }
      }
      ok := true;
    }

    method DiscardAll()
      requires Valid()
      modifies this`size, this`offset, this`attempt, this`queued, this`written
      ensures Valid() && View() == Discard(old(View())) && Carries(View(), [])
    {
      offset, size, attempt := 0, 0, 0;
      queued, written := 0, 0;
    }
  }
}
