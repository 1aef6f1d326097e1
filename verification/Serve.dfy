/** The server side of acknowledged input (tools/kmx_serve.c): the pane's bounded
FIFO with its three writers, and the INPUT_OPEN, INPUT_DATA and INPUT_CLOSE arms of the event loop. */
module Serve {
  import opened Bytes
  import opened Frame
  import opened InputSession
  import opened InputWire

  const PANE_INPUT_LIMIT: nat := 256 * 1024
  const PANE_INPUT_HARD_LIMIT: nat := PANE_INPUT_LIMIT + MESSAGE_MAX + 64 * 1024
  const GRACE_MS: nat := 60000

  // ---- the pane FIFO ---------------------------------------------------------------------

  datatype Fifo = Fifo(bytes: seq<Byte>, offset: nat)

  function CompactFifo(f: Fifo): Fifo {
    if f.offset == 0 || f.offset > |f.bytes| || (f.offset < |f.bytes| / 2 && f.offset < 64 * 1024) then f
    else Fifo(f.bytes[f.offset..], 0)
  }

  datatype Admission = Taken | Full | Refused

  /** pane_input_admit: the limit bounds what is waiting, not what arrives. */
  function Admit(f: Fifo, data: seq<Byte>): (Fifo, Admission) {
    var c := CompactFifo(f);
    if |c.bytes| - c.offset > PANE_INPUT_LIMIT then (c, Full) else (c.(bytes := c.bytes + data), Taken)
  }

  /** pane_terminal_reply up to its flush: an answer of the emulator goes whole
  behind what waits, or not at all. */
  function Answer(f: Fifo, data: seq<Byte>): (Fifo, bool) {
    var c := CompactFifo(f);
    if |c.bytes| > PANE_INPUT_HARD_LIMIT || |data| > PANE_INPUT_HARD_LIMIT - |c.bytes| then (c, false)
    else (c.(bytes := c.bytes + data), true)
  }

  function Waiting(f: Fifo): seq<Byte>
    requires f.offset <= |f.bytes|
  {
    f.bytes[f.offset..]
  }

  lemma AdmitWaiting(f: Fifo, data: seq<Byte>)
    requires f.offset <= |f.bytes|
    ensures var (after, admission) := Admit(f, data);
            && after.offset <= |after.bytes|
            && Waiting(after) == Waiting(f) + if admission == Taken then data else []
  {
    var c := CompactFifo(f);
    assert Waiting(c) == Waiting(f);
    assert (c.bytes + data)[c.offset..] == c.bytes[c.offset..] + data;
  }

  lemma AnswerWaiting(f: Fifo, data: seq<Byte>)
    requires f.offset <= |f.bytes|
    ensures var (after, ok) := Answer(f, data);
            after.offset <= |after.bytes| && Waiting(after) == Waiting(f) + if ok then data else []
  {
    var c := CompactFifo(f);
    assert Waiting(c) == Waiting(f);
    assert (c.bytes + data)[c.offset..] == c.bytes[c.offset..] + data;
  }

  /** Exactly when a payload is taken: when at most 256 KiB wait before it, however
  large it is itself. */
  lemma AdmitIff(f: Fifo, data: seq<Byte>)
    requires f.offset <= |f.bytes|
    ensures Admit(f, data).1 == if |Waiting(f)| <= 256 * 1024 then Taken else Full
  {
  }

  /** Exactly when an answer is queued: when with it the queue, its consumed front
  included where that is small, stays within the hard limit. */
  lemma AnswerIff(f: Fifo, data: seq<Byte>)
    requires f.offset <= |f.bytes|
    ensures var kept := if f.offset < |f.bytes| / 2 && f.offset < 64 * 1024 then f.offset else 0;
            Answer(f, data).1 <==> kept + |Waiting(f)| + |data| <= 256 * 1024 + 8 * 1024 * 1024 + 64 * 1024
  {
  }

  /** The queue is bounded: a message taken and an answer queued leave it within the
  hard limit, less than 64 KiB of it consumed. */
  lemma QueueBounded(f: Fifo, data: seq<Byte>)
    requires f.offset <= |f.bytes| <= PANE_INPUT_HARD_LIMIT && |data| <= MESSAGE_MAX
    ensures |Admit(f, data).0.bytes| <= PANE_INPUT_HARD_LIMIT && Admit(f, data).0.offset < 64 * 1024
    ensures |Answer(f, data).0.bytes| <= PANE_INPUT_HARD_LIMIT && Answer(f, data).0.offset < 64 * 1024
  {
  }

  /** What one write to the pty did. */
  datatype PtyWrite = PtyTook(count: nat) | PtyBusy | PtyInterrupted | PtyFailed

  datatype Flushed = Flushed(fifo: Fifo, taken: seq<Byte>, ok: bool)

  /** pane_input_flush: writes until nothing waits or the pty stops taking. */
  function FlushPty(f: Fifo, writes: seq<PtyWrite>): Flushed
    requires f.offset <= |f.bytes|
    decreases |writes|
  {
    if f.offset == |f.bytes| then Flushed(Fifo([], 0), [], true)
    else if writes == [] then Flushed(f, [], true)
    else match writes[0]
      case PtyFailed => Flushed(f, [], false)
      case PtyBusy => Flushed(f, [], true)
      case PtyInterrupted => FlushPty(f, writes[1..])
      case PtyTook(count) =>
        if count == 0 then Flushed(f, [], true)
        else
          var next := f.offset + Min(count, |f.bytes| - f.offset);
          var rest := FlushPty(f.(offset := next), writes[1..]);
          rest.(taken := f.bytes[f.offset..next] + rest.taken)
  }

  /** One turn of the loop. */
  lemma FlushNext(f: Fifo, writes: seq<PtyWrite>)
    requires f.offset < |f.bytes| && writes != []
    ensures var all := FlushPty(f, writes);
            match writes[0]
            case PtyFailed => all == Flushed(f, [], false)
            case PtyBusy => all == Flushed(f, [], true)
            case PtyInterrupted => all == FlushPty(f, writes[1..])
            case PtyTook(count) =>
              var next := f.offset + Min(count, |f.bytes| - f.offset);
              if count == 0 then all == Flushed(f, [], true)
              else
                var rest := FlushPty(f.(offset := next), writes[1..]);
                all == rest.(taken := f.bytes[f.offset..next] + rest.taken)
  {
  }

  lemma FlushEnds(f: Fifo, writes: seq<PtyWrite>)
    requires f.offset <= |f.bytes|
    ensures f.offset == |f.bytes| ==> FlushPty(f, writes) == Flushed(Fifo([], 0), [], true)
    ensures f.offset < |f.bytes| && writes == [] ==> FlushPty(f, writes) == Flushed(f, [], true)
  {
  }

  /** What the pty took, and then what still waits, is what waited. */
  lemma {:induction false} FlushTakesFront(f: Fifo, writes: seq<PtyWrite>)
    requires f.offset <= |f.bytes|
    ensures var d := FlushPty(f, writes); d.fifo.offset <= |d.fifo.bytes| && d.taken + Waiting(d.fifo) == Waiting(f)
    decreases |writes|
  {
    FlushEnds(f, writes);
    hide FlushPty;
    if f.offset < |f.bytes| && writes != [] {
      FlushNext(f, writes);
      match writes[0]
      case PtyInterrupted => FlushTakesFront(f, writes[1..]);
      case PtyTook(count) =>
        if count > 0 {
          var next := f.offset + Min(count, |f.bytes| - f.offset);
          var rest := FlushPty(f.(offset := next), writes[1..]);
          FlushTakesFront(f.(offset := next), writes[1..]);
          assert f.bytes[f.offset..] == f.bytes[f.offset..next] + f.bytes[next..];
          assert f.bytes[f.offset..next] + (rest.taken + Waiting(rest.fifo)) ==
                 f.bytes[f.offset..next] + rest.taken + Waiting(rest.fifo);
        }
      case _ =>
    }
  }

  /** How many bytes a pty that does this takes before it stops. */
  function Appetite(writes: seq<PtyWrite>): nat {
    if writes == [] then 0
    else match writes[0]
      case PtyTook(count) => if count == 0 then 0 else count + Appetite(writes[1..])
      case PtyInterrupted => Appetite(writes[1..])
      case _ => 0
  }

  /** It stops because a write fails. */
  predicate Breaks(writes: seq<PtyWrite>, waiting: nat) {
    waiting > 0 && writes != [] &&
    match writes[0]
    case PtyTook(count) => 0 < count < waiting && Breaks(writes[1..], waiting - count)
    case PtyInterrupted => Breaks(writes[1..], waiting)
    case PtyBusy => false
    case PtyFailed => true
  }

  /** As much is written as the pty takes, and all of it if it takes that much. */
  lemma {:induction false} FlushTakesAll(f: Fifo, writes: seq<PtyWrite>)
    requires f.offset <= |f.bytes|
    ensures var d := FlushPty(f, writes);
            && |d.taken| == Min(|Waiting(f)|, Appetite(writes))
            && (d.ok <==> !Breaks(writes, |Waiting(f)|))
    decreases |writes|
  {
    FlushEnds(f, writes);
    hide FlushPty;
    if f.offset < |f.bytes| && writes != [] {
      FlushNext(f, writes);
      match writes[0]
      case PtyInterrupted => FlushTakesAll(f, writes[1..]);
      case PtyTook(count) =>
        if count > 0 {
          var next := f.offset + Min(count, |f.bytes| - f.offset);
          FlushTakesAll(f.(offset := next), writes[1..]);
          NoAppetite(writes[1..]);
        }
      case _ =>
    }
  }

  lemma NoAppetite(writes: seq<PtyWrite>)
    ensures !Breaks(writes, 0)
  {
  }

  /** Bytes go to the pty in the order they were admitted, each exactly once:
  what was written and what still waits is what was ever admitted. */
  class PaneInput {
    var live: bool
    var answerFailed: bool
    var bytes: seq<Byte>
    var offset: nat
    ghost var admitted: seq<Byte>
    ghost var written: seq<Byte>

    ghost predicate Valid()
      reads this
    {
      offset <= |bytes| && written + bytes[offset..] == admitted
    }

    ghost function View(): Fifo
      reads this
    {
      Fifo(bytes, offset)
    }

    constructor ()
      ensures Valid() && live && !answerFailed && admitted == [] && written == [] && bytes == []
    {
      live, answerFailed, bytes, offset, admitted, written := true, false, [], 0, [], [];
    }

    method Compact()
      requires Valid()
      modifies this`bytes, this`offset
      ensures Valid() && View() == CompactFifo(old(View()))
      ensures bytes[offset..] == old(bytes[offset..])
    {
      if offset == 0 || (offset < |bytes| / 2 && offset < 64 * 1024) { return; }
      bytes, offset := bytes[offset..], 0;
    }

    method AdmitInput(data: seq<Byte>) returns (admission: Admission)
      requires Valid()
      modifies this`bytes, this`offset, this`admitted
      ensures Valid()
      ensures !live ==> admission == Refused && View() == old(View())
      ensures live ==> (View(), admission) == Admit(old(View()), data)
      ensures live ==> admission == if |old(bytes[offset..])| <= 256 * 1024 then Taken else Full
      ensures admitted == old(admitted) + if admission == Taken then data else []
    {
      if !live { return Refused; }
      Compact();
      if |bytes| - offset > PANE_INPUT_LIMIT { return Full; }
      assert (bytes + data)[offset..] == bytes[offset..] + data;
      bytes, admitted := bytes + data, admitted + data;
      return Taken;
    }

    /** pane_input_flush; `writes` is what each write to the pty does. */
    method FlushInput(writes: seq<PtyWrite>) returns (ok: bool)
      requires Valid()
      modifies this`bytes, this`offset, this`written
      ensures Valid() && admitted == old(admitted)
      ensures !live ==> !ok && View() == old(View()) && written == old(written)
      ensures live ==> var d := FlushPty(old(View()), writes);
                       View() == d.fifo && written == old(written) + d.taken && ok == d.ok
    {
      if !live { return false; }
      hide FlushPty;
      var turn := 0;
      ghost var all := FlushPty(View(), writes);
      assert writes[0..] == writes;
      while offset < |bytes|
        invariant Valid() && turn <= |writes| && bytes == old(bytes)
        invariant var rest := FlushPty(View(), writes[turn..]);
                  all.fifo == rest.fifo && all.ok == rest.ok && old(written) + all.taken == written + rest.taken
        decreases |writes| - turn
      {
        FlushEnds(View(), writes[turn..]);
        if turn == |writes| { return true; }
        FlushNext(View(), writes[turn..]);
        assert writes[turn..][1..] == writes[turn + 1..];
        match writes[turn] {
          case PtyFailed => return false;
          case PtyBusy => return true;
          case PtyInterrupted =>
          case PtyTook(count) =>
            if count == 0 { return true; }
            TakeFront(Min(count, |bytes| - offset));
        }
        turn := turn + 1;
      }
      FlushEnds(View(), writes[turn..]);
      bytes, offset := [], 0;
      ok := true;
    }

    /** pane_input_queue, for a controller without a lease. */
    method QueueInput(data: seq<Byte>, writes: seq<PtyWrite>) returns (admission: Admission, drained: bool)
      requires Valid()
      modifies this`bytes, this`offset, this`admitted, this`written
      ensures Valid() && admitted == old(admitted) + if admission == Taken then data else []
      ensures !live ==> admission == Refused && View() == old(View()) && written == old(written)
      ensures live ==> var (after, expected) := Admit(old(View()), data);
                       && admission == expected
                       && (admission != Taken ==> View() == after && written == old(written))
                       && (admission == Taken ==>
                             var d := FlushPty(after, writes);
                             View() == d.fifo && written == old(written) + d.taken && drained == d.ok)
    {
      hide FlushPty, CompactFifo;
      drained := true;
      admission := AdmitInput(data);
      if admission == Taken { drained := FlushInput(writes); }
    }

    /** pane_terminal_reply: an answer of the emulator, behind what was accepted
    before it; once one is lost none follows. */
    method TerminalReply(data: seq<Byte>, writes: seq<PtyWrite>)
      requires Valid()
      modifies this`bytes, this`offset, this`admitted, this`written, this`answerFailed
      ensures Valid()
      ensures old(answerFailed) ==>
                answerFailed && View() == old(View()) && admitted == old(admitted) && written == old(written)
      ensures !old(answerFailed) ==>
                var (after, ok) := Answer(old(View()), data);
                && admitted == old(admitted) + (if ok then data else [])
                && (!ok ==> answerFailed && View() == after && written == old(written))
                && (ok && !live ==> answerFailed && View() == after && written == old(written))
                && (ok && live ==>
                      var d := FlushPty(after, writes);
                      View() == d.fifo && written == old(written) + d.taken && answerFailed == !d.ok)
    {
      hide FlushPty, CompactFifo;
      if answerFailed { return; }
      Compact();
      if |bytes| > PANE_INPUT_HARD_LIMIT || |data| > PANE_INPUT_HARD_LIMIT - |bytes| {
        answerFailed := true;
        return;
      }
      assert (bytes + data)[offset..] == bytes[offset..] + data;
      bytes, admitted := bytes + data, admitted + data;
      var drained := FlushInput(writes);
      if !drained { answerFailed := true; }
    }

    method TakeFront(count: nat)
      requires Valid() && offset + count <= |bytes|
      modifies this`offset, this`written
      ensures Valid() && offset == old(offset) + count && written == old(written) + bytes[old(offset)..offset]
    {
      assert bytes[offset..] == bytes[offset..offset + count] + bytes[offset + count..];
      written := written + bytes[offset..offset + count];
      offset := offset + count;
    }
  }

  // ---- one connection's input messages ------------------------------------------------------

  /** The server's side of one connection: `open` while its socket lives, `session`
  once it was granted the lease. */
  datatype Peer = Peer(conn: nat, open: bool, session: bool, replies: seq<Reply>)

  /** What the environment decides while one message is handled: the clock as it is
  read before an OPEN, inside it and when the connection is released, whether this
  connection may control, a random epoch, whether the FIFO had room, whether
  the pty could be written to, and whether the reply could be queued. */
  datatype Env = Env(now: nat, opening: nat, leaving: nat, greeted: bool, allowed: bool, other: bool,
                     freshEpoch: Option<seq<Byte>>,
                     admission: Admission, drained: bool, queued: bool)

  /** `handled` is false when the message must stay where it is for a retry. */
  datatype Served = Served(lease: Lease, peer: Peer, fenced: nat, admitted: Option<seq<Byte>>, handled: bool)

  /** client_release, as far as the lease is concerned. */
  function Released(lease: Lease, peer: Peer, now: nat): Served {
    Served(Disconnect(lease, peer.conn, now), peer.(open := false), 0, None, true)
  }

  function Replied(lease: Lease, peer: Peer, fenced: nat, admitted: Option<seq<Byte>>, reply: Reply, env: Env): Served {
    if env.queued then Served(lease, peer.(replies := peer.replies + [reply]), fenced, admitted, true)
    else Served(Disconnect(lease, peer.conn, env.leaving), peer.(open := false), fenced, admitted, true)
  }

  /** The session's part of an OPEN. A random epoch is drawn only if the first look
  at the clock finds no lease; the session looks again. */
  function OpenAt(lease: Lease, request: OpenRequest, conn: nat, env: Env): Opened {
    var expired := Expire(lease, env.now);
    Open(expired, request, conn, env.opening, if expired.retained then Some(NO_TOKEN) else env.freshEpoch,
         env.allowed, env.other)
  }

  function ServeOpen(lease: Lease, peer: Peer, payload: seq<Byte>, env: Env): Served {
    var request := ReadOpen(payload);
    if !env.greeted || peer.session || request.None? then Released(lease, peer, env.leaving)
    else
      var expired := Expire(lease, env.now);
      if !expired.retained && env.freshEpoch.None? then Released(expired, peer, env.leaving)
      else
        var r := OpenAt(lease, request.value, peer.conn, env);
        var reply := StateReply(State(r.status, GRACE_MS, r.lease.epoch, request.value.clientId,
                                      if r.status == READY then r.lease.accepted else 0));
        Replied(r.lease, if r.status == READY then peer.(session := true) else peer, r.fenced, None, reply, env)
  }

  function ServeData(lease: Lease, peer: Peer, payload: seq<Byte>, env: Env): Served {
    var input := ReadData(payload);
    if lease.owner != peer.conn || !peer.session || input.None? || input.value.pane != 0 ||
       Classify(lease, peer.conn, input.value.sequence) == Rejected then Released(lease, peer, env.leaving)
    else if Classify(lease, peer.conn, input.value.sequence) == Duplicate then
      Replied(lease, peer, 0, None, AckReply(lease.accepted), env)
    else match env.admission
      case Full => Served(lease, peer, 0, None, false)
      case Refused => Released(lease, peer, env.leaving)
      case Taken =>
        var committed := Commit(lease, peer.conn, input.value.sequence).lease;
        if !env.drained then Released(committed, peer, env.leaving).(admitted := Some(input.value.data))
        else Replied(committed, peer, 0, Some(input.value.data), AckReply(committed.accepted), env)
  }

  function ServeClose(lease: Lease, peer: Peer, payload: seq<Byte>, env: Env): Served {
    var value := ReadAck(payload);
    var closed := if peer.session && value.Some? then Close(lease, peer.conn, value.value).lease else lease;
    Released(closed, peer, env.leaving)
  }

  /** Messages of other kinds touch neither ledger nor lease; some of them end the
  connection, which is the environment's choice here. */
  function Serve(lease: Lease, peer: Peer, message: Message, env: Env): Served {
    if message.kind == MSG_INPUT_OPEN then ServeOpen(lease, peer, message.payload, env)
    else if message.kind == MSG_INPUT_DATA then ServeData(lease, peer, message.payload, env)
    else if message.kind == MSG_INPUT_CLOSE then ServeClose(lease, peer, message.payload, env)
    else if env.queued then Served(lease, peer, 0, None, true)
    else Released(lease, peer, env.leaving)
  }

  /** Nobody types who may not: a session is granted only to a greeted connection that
  may control, asking in order; a payload is admitted only from the lease's owner,
  for this pane and as the next in sequence; and the lease is released for good only
  by its owner's exact counter or an expiry. */
  lemma ServeSafely(lease: Lease, peer: Peer, message: Message, env: Env)
    ensures var r := Serve(lease, peer, message, env);
            && (r.peer.session && !peer.session ==>
                  message.kind == MSG_INPUT_OPEN && env.greeted && env.allowed && ReadOpen(message.payload).Some?)
            && (r.admitted.Some? ==>
                  && message.kind == MSG_INPUT_DATA && peer.session && lease.owner == peer.conn
                  && var input := ReadData(message.payload);
                     && input.Some? && input.value.pane == 0 && input.value.data == r.admitted.value
                     && input.value.sequence == lease.accepted + 1 && r.lease.accepted == lease.accepted + 1)
            && (lease.retained && !r.lease.retained ==>
                  || (message.kind == MSG_INPUT_OPEN && env.greeted)
                  || (message.kind == MSG_INPUT_CLOSE && peer.session && lease.owner == peer.conn &&
                      ReadAck(message.payload) == Some(lease.accepted)))
            && (!r.handled ==> r.lease == lease && r.peer == peer && env.admission == Full)
  {
    hide ReadOpen, ReadData, ReadAck, Nonzero;
  }

  /** A payload that was counted before is acknowledged again and goes nowhere; and a
  connection that cannot be answered is given up. */
  lemma ServeAnswers(lease: Lease, peer: Peer, message: Message, env: Env)
    ensures var r := Serve(lease, peer, message, env);
            && (r.handled && !env.queued ==> !r.peer.open)
            && (message.kind == MSG_INPUT_DATA && ReadData(message.payload).Some? && peer.session &&
                Classify(lease, peer.conn, ReadData(message.payload).value.sequence) == Duplicate &&
                ReadData(message.payload).value.pane == 0 && env.queued ==>
                  r == Served(lease, peer.(replies := peer.replies + [AckReply(lease.accepted)]), 0, None, true))
  {
    hide ReadOpen, ReadData, ReadAck, Nonzero;
  }

  /** Whoever breaks the rules loses the connection, and only the grace starts. */
  lemma ServeRefuses(lease: Lease, peer: Peer, message: Message, env: Env)
    requires || (message.kind == MSG_INPUT_OPEN && (!env.greeted || peer.session || ReadOpen(message.payload).None?))
             || (message.kind == MSG_INPUT_DATA &&
                 (lease.owner != peer.conn || !peer.session || ReadData(message.payload).None? ||
                  ReadData(message.payload).value.pane != 0 ||
                  ReadData(message.payload).value.sequence > lease.accepted + 1))
    ensures var r := Serve(lease, peer, message, env);
            && !r.peer.open && r.peer.replies == peer.replies && r.admitted.None? && r.fenced == 0 && r.handled
            && r.lease == Disconnect(lease, peer.conn, env.leaving)
  {
    hide ReadOpen, ReadData, ReadAck, Nonzero;
  }

  /** The three arms as the source runs them, on the live session and FIFO. */
  class InputServer {
    const session: Session
    const fifo: PaneInput
    const conn: nat
    var open: bool
    var granted: bool
    var blocked: bool
    var stopping: bool
    var replies: seq<Reply>

    ghost function View(): Peer
      reads this
    {
      Peer(conn, open, granted, replies)
    }

    constructor (session: Session, fifo: PaneInput, conn: nat)
      ensures this.session == session && this.fifo == fifo && View() == Peer(conn, true, false, [])
    {
      this.session, this.fifo, this.conn := session, fifo, conn;
      open, granted, blocked, stopping, replies := true, false, false, false, [];
    }

    method Release(now: nat)
      modifies this`open, session
      ensures session.View() == Disconnect(old(session.View()), conn, now)
      ensures View() == old(View()).(open := false)
    {
      session.DisconnectOwner(conn, now);
      open := false;
    }

    method Reply(reply: Reply, queued: bool, now: nat)
      modifies this`open, this`replies, session
      ensures queued ==>
                session.View() == old(session.View()) && View() == old(View()).(replies := old(replies) + [reply])
      ensures !queued ==>
                session.View() == Disconnect(old(session.View()), conn, now) && View() == old(View()).(open := false)
    {
      if queued { replies := replies + [reply]; } else { Release(now); }
    }

    method OnOpen(payload: seq<Byte>, env: Env) returns (fenced: nat)
      modifies this`open, this`replies, this`granted, session
      ensures Served(session.View(), View(), fenced, None, true) ==
              ServeOpen(old(session.View()), old(View()), payload, env)
    {
      fenced := 0;
      var request := ReadOpen(payload);
      if !env.greeted || granted || request.None? { Release(env.leaving); return; }
      session.ExpireAt(env.now);
      if !session.retained && env.freshEpoch.None? { Release(env.leaving); return; }
      var status;
      var epoch := if session.retained then Some(NO_TOKEN) else env.freshEpoch;
      status, fenced := session.OpenLease(request.value, conn, env.opening, epoch, env.allowed, env.other);
      if status == READY { granted := true; }
      var accepted := if status == READY then session.accepted else 0;
      Reply(StateReply(State(status, GRACE_MS, session.epoch, request.value.clientId, accepted)), env.queued,
            env.leaving);
    }

    /** The payload is admitted before its sequence is committed; a full FIFO
    commits nothing and leaves the message for a retry. Bytes that cannot reach
    the pty stop the server, after they were counted and without a reply. */
    method OnData(payload: seq<Byte>, env: Env, writes: seq<PtyWrite>) returns (handled: bool)
      requires session as object != fifo && this as object != fifo && fifo.Valid()
      requires var data := match ReadData(payload) case Some(input) => input.data case None => [];
               var (after, admission) := Admit(fifo.View(), data);
               && env.admission == (if fifo.live then admission else Refused)
               && (fifo.live && admission == Taken ==> env.drained == FlushPty(after, writes).ok)
      modifies this`open, this`replies, this`blocked, this`stopping, session, fifo
      ensures fifo.Valid() && old(fifo.written) <= fifo.written
      ensures var r := ServeData(old(session.View()), old(View()), payload, env);
              && session.View() == r.lease && View() == r.peer && handled == r.handled
              && fifo.admitted == old(fifo.admitted) + (if r.admitted.Some? then r.admitted.value else [])
              && stopping == (old(stopping) || (r.admitted.Some? && !env.drained))
    {
      hide FlushPty, Admit, Disconnect, Classify, Commit, ReadData;
      handled := true;
      var input := ReadData(payload);
      if session.owner != conn || !granted || input.None? || input.value.pane != 0 { Release(env.leaving); return; }
      var verdict := session.ClassifyInput(conn, input.value.sequence);
      if verdict == Rejected { Release(env.leaving); return; }
      if verdict != Duplicate {
        var admission := fifo.AdmitInput(input.value.data);
        if admission == Full { blocked := true; return false; }
        if admission == Refused { Release(env.leaving); return; }
        var _ := session.CommitInput(conn, input.value.sequence);
        var drained := fifo.FlushInput(writes);
        if !drained { stopping := true; Release(env.leaving); return; }
      }
      blocked := false;
      Reply(AckReply(session.accepted), env.queued, env.leaving);
    }

    method OnClose(payload: seq<Byte>, env: Env)
      modifies this`open, session
      ensures Served(session.View(), View(), 0, None, true) ==
              ServeClose(old(session.View()), old(View()), payload, env)
    {
      var value := ReadAck(payload);
      if granted && value.Some? { var _ := session.CloseLease(conn, value.value); }
      Release(env.leaving);
    }
  }
}
