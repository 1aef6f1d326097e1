/** What follows for every run of the acknowledged-input protocol. */
module InputProtocol {
  import opened Bytes
  import opened Frame
  import opened InputSession
  import opened InputWire
  import opened Outgoing
  import opened Attach
  import opened Serve
  import opened InputWorld
  import opened InputLinks
  import opened InputClientSteps
  import opened InputServerSteps

  // ---- every run --------------------------------------------------------------------------------------------------

  lemma StepKeeps(w: World, event: Event)
    requires Inv(w) && Legal(w, event)
    ensures Inv(After(w, event))
  {
    hide Inv, Connected, Typed, Written, Heard, Quitted, Handled, Rivaled, RivalTyped, FlushPty, Admit, Answer,
         Replay, Lose;
    match event
    case Connect(conn, hello) => ConnectKeeps(w, conn, hello);
    case Cut => CutKeeps(w);
    case Type(data) => TypeKeeps(w, data);
    case Resume => ReplayKeeps(w);
    case Post(message) => PostKeeps(w, message);
    case Write(wrote) => WriteKeeps(w, wrote);
    case Hear(size) => HearKeeps(w, size);
    case Quit => QuitKeeps(w);
    case Arrive(link, count) => ArriveKeeps(w, link, count);
    case Handle(link, env) => HandleKeeps(w, link, env);
    case Drop(link, now) => DropKeeps(w, link, now);
    case Other(call) => RivalKeeps(w, call);
    case RivalData(owner, sequence, data) => RivalTypedKeeps(w, owner, sequence, data);
    case PlainInput(_, _) => PaneIgnored(w, After(w, event));
    case TerminalReply(_, _) => PaneIgnored(w, After(w, event));
    case DrainPane(_) => PaneIgnored(w, After(w, event));
  }

  lemma InitialInv(w: World)
    requires Initial(w)
    ensures Inv(w)
  {
  }

  /** `worlds` is what a run of `events` goes through. */
  ghost predicate IsRun(worlds: seq<World>, events: seq<Event>) {
    && |worlds| == |events| + 1 && Initial(worlds[0])
    && forall k :: 0 <= k < |events| ==> Legal(worlds[k], events[k]) && worlds[k + 1] == After(worlds[k], events[k])
  }

  lemma {:induction false} RunKeeps(worlds: seq<World>, events: seq<Event>, k: nat)
    requires IsRun(worlds, events) && k < |worlds|
    ensures Inv(worlds[k])
  {
    hide Inv, After, Legal, Initial;
    if k == 0 {
      InitialInv(worlds[0]);
    } else {
      RunKeeps(worlds, events, k - 1);
      StepKeeps(worlds[k - 1], events[k - 1]);
    }
  }

  /** Exactly once, in order: in every reachable world, whatever was cut, retried,
  fenced or lost, each epoch's admitted payloads are the first ones typed, one
  copy of each; and while the lease is in that epoch its counter is their number. */
  lemma ExactlyOnce(worlds: seq<World>, events: seq<Event>, k: nat, epoch: seq<Byte>)
    requires IsRun(worlds, events) && k < |worlds| && epoch in worlds[k].ledger
    ensures var w := worlds[k];
            && |w.ledger[epoch]| <= |w.submitted| && w.ledger[epoch] == w.submitted[..|w.ledger[epoch]|]
            && (w.lease.epoch == epoch ==> w.lease.accepted == |w.ledger[epoch]|)
            && (w.ledger[epoch] != [] ==> w.client.identified && w.client.epoch == epoch)
  {
    hide Initial, After, Legal, ClientOk, CurrentOk, ConnsOk, LinkOk, Nonzero;
    RunKeeps(worlds, events, k);
  }

  /** The counter sandwich, and the journal is exactly what lies above its floor. */
  lemma CounterSandwich(worlds: seq<World>, events: seq<Event>, k: nat)
    requires IsRun(worlds, events) && k < |worlds|
    ensures var w, c := worlds[k], worlds[k].client;
            && (c.identified ==>
                  c.epoch in w.ledger && c.acknowledged <= |w.ledger[c.epoch]| <= c.eligible <= c.sequence)
            && (!c.identified ==> c.sequence == 0)
            && c.sequence == |w.submitted| && |c.journal| == c.sequence - c.acknowledged
            && forall n :: 0 <= n < |c.journal| ==>
                 c.journal[n].sequence == c.acknowledged + 1 + n && c.journal[n].data == w.submitted[c.acknowledged + n]
  {
    hide Initial, After, Legal, LeaseOk, CurrentOk, ConnsOk, LinkOk, Nonzero;
    RunKeeps(worlds, events, k);
  }

  /** An honest acknowledgement is never refused, and an honest grant only when the
  outgoing queue has failed. */
  lemma HonestReplyNeverRejected(worlds: seq<World>, events: seq<Event>, k: nat, size: seq<Byte>)
    requires IsRun(worlds, events) && k < |worlds| && Legal(worlds[k], Hear(size))
    ensures var (l, c) := (Last(worlds[k]), worlds[k].client);
            match l.peer.replies[l.seen]
            case AckReply(accepted) => HandleAck(c, accepted).ok &&
              HandleAck(c, accepted).client.acknowledged == accepted
            case StateReply(state) =>
              state.Grants() ==> HandleState(c, state, size).ok || HandleState(c, state, size).client.out.failed
  {
    hide Initial, After, LeaseOk, CurrentOk, ConnsOk, LinkOk, Nonzero, ClientOk, LedgerOk, Replay, DropThrough,
         Outgoing.Post, HandleState;
    RunKeeps(worlds, events, k);
    var w, l := worlds[k], Last(worlds[k]);
    InvParts(w);
    ReplyInRange(w);
    match l.peer.replies[l.seen]
    case AckReply(accepted) => AcknowledgeShape(w.client, accepted, w.submitted);
    case StateReply(state) =>
      StateHandled(w, state, size);
      if state.Grants() {
        var posted := PostTo(SelectedClient(w.client, state), Message(MSG_RESIZE, size));
        if posted.ok { ReplayFailsByQueue(posted.client); }
      }
  }

  lemma {:induction false} ReplayFailsByQueue(c: Client)
    requires c.unsent <= |c.journal|
    ensures !Replay(c).ok ==> Replay(c).client.out.failed
    decreases c.unsent
  {
    hide Outgoing.Post, FrameBytes, PutData;
    if c.ready && c.unsent != 0 && Pending(c.out) < SOFT_LIMIT {
      var index := |c.journal| - c.unsent;
      var posted := PostTo(c, DataMessage(c.journal[index]));
      if posted.ok { ReplayFailsByQueue(Stamped(posted.client, index).(unsent := c.unsent - 1)); }
    }
  }

  /** The lease is still this client's, in the epoch the client knows if it knows one. */
  predicate Holds(lease: Lease, c: Client) {
    lease.retained && lease.clientId == c.clientId && (c.identified ==> lease.epoch == c.epoch)
  }

  /** What an OPEN makes of a lease that is its client's. */
  lemma ResumeOpens(lease: Lease, request: OpenRequest, conn: nat, env: Env)
    requires env.allowed && conn != 0 && Nonzero(lease.epoch) && Nonzero(request.clientId)
    requires var held := Expire(Expire(lease, env.now), env.opening);
             && held.retained && request.clientId == held.clientId && request.lastAck <= held.accepted
             && (if Nonzero(request.epoch) then request.epoch == held.epoch
                 else request.lastAck == 0 && held.accepted == 0)
    ensures var held := Expire(Expire(lease, env.now), env.opening);
            OpenAt(lease, request, conn, env) ==
            Opened(held.(owner := conn, expires := 0), READY, if held.owner != conn then held.owner else 0)
  {
    hide Nonzero;
  }

  lemma NotResumed(lease: Lease, request: OpenRequest, conn: nat, env: Env)
    requires Nonzero(request.epoch)
    requires var held := Expire(Expire(lease, env.now), env.opening);
             !held.retained || request.clientId != held.clientId || request.epoch != held.epoch
    ensures OpenAt(lease, request, conn, env).status != READY
    ensures OpenAt(lease, request, conn, env).lease == Expire(lease, env.now)
  {
    hide Nonzero;
  }

  /** A reconnecting client gets its lease back for as long as the server retains
  it: the OPEN of the client's transport, from a connection that may control, is
  then granted, with the epoch and counter the lease has, and fences whoever held
  it; and a client that knows an epoch is refused in every other case. */
  lemma HonestOpenGranted(worlds: seq<World>, events: seq<Event>, k: nat, env: Env)
    requires IsRun(worlds, events) && k < |worlds| && worlds[k].phase == Online && worlds[k].links != []
    requires Legal(worlds[k], Handle(|worlds[k].links| - 1, env)) && env.greeted && env.allowed
    requires NextFrame(Last(worlds[k]).pending).message.kind == MSG_INPUT_OPEN
    ensures var (w, l, c) := (worlds[k], Last(worlds[k]), worlds[k].client);
            var held := Expire(Expire(w.lease, env.now), env.opening);
            var granted := held.(owner := l.peer.conn, expires := 0);
            var r := Serve.Serve(w.lease, l.peer, NextFrame(l.pending).message, env);
            && (Holds(held, c) ==>
                  && r.fenced == held.owner
                  && r.lease == (if env.queued then granted else Disconnect(granted, l.peer.conn, env.leaving))
                  && (env.queued ==>
                        r.peer == Peer(l.peer.conn, true, true,
                                       [StateReply(State(READY, 60000, held.epoch, c.clientId, held.accepted))])))
            && (c.identified && !Holds(held, c) ==>
                  !r.peer.session && r.fenced == 0 && r.lease.owner != l.peer.conn &&
                  forall n :: 0 <= n < |r.peer.replies| ==>
                    r.peer.replies[n].StateReply? && !r.peer.replies[n].state.Grants())
  {
    hide Initial, After, Inv, LeaseOk, CurrentOk, ConnsOk, LinkOk, ClientOk, LedgerOk, NextFrame, Serve.Serve, WireOk,
         ContentOk, ExposureOk, RepliesOk, SessionOk;
    RunKeeps(worlds, events, k);
    var w := worlds[k];
    InvParts(w);
    LinkParts(Last(w), w);
    NextIsSent(Last(w));
    OpenServed(w, env);
  }

  lemma OpenServed(w: World, env: Env)
    requires Inv(w) && w.phase == Online && w.links != [] && AtFrame(w, |w.links| - 1, MSG_INPUT_OPEN)
    requires env.greeted && env.allowed
    ensures var (l, c) := (Last(w), w.client);
            var held := Expire(Expire(w.lease, env.now), env.opening);
            var granted := held.(owner := l.peer.conn, expires := 0);
            var r := Serve.Serve(w.lease, l.peer, l.sent[l.done], env);
            && (Holds(held, c) ==>
                  && r.fenced == held.owner
                  && r.lease == (if env.queued then granted else Disconnect(granted, l.peer.conn, env.leaving))
                  && (env.queued ==>
                        r.peer == Peer(l.peer.conn, true, true,
                                       [StateReply(State(READY, 60000, held.epoch, c.clientId, held.accepted))])))
            && (c.identified && !Holds(held, c) ==>
                  !r.peer.session && r.fenced == 0 && r.lease.owner != l.peer.conn &&
                  forall n :: 0 <= n < |r.peer.replies| ==>
                    r.peer.replies[n].StateReply? && !r.peer.replies[n].state.Grants())
  {
    hide Inv, LeaseOk, CurrentOk, ConnsOk, LinkOk, ClientOk, LedgerOk, NextFrame, Serve.Serve, WireOk, ContentOk,
         ExposureOk, RepliesOk, SessionOk, Nonzero, OpenAt, Expire, ReadOpen, Disconnect;
    var l, c := Last(w), w.client;
    InvParts(w);
    LinkParts(l, w);
    AtOpen(l, w);
    OtherConns(w, |w.links| - 1);
    CurrentRequest(w);
    ServedOpen(w.lease, l.peer, l.sent[l.done].payload, l.request, env);
    ExpireKeeps(w.lease, env.now);
    ExpireKeeps(Expire(w.lease, env.now), env.opening);
    var held := Expire(Expire(w.lease, env.now), env.opening);
    if Holds(held, c) {
      ResumeOpens(w.lease, l.request, l.peer.conn, env);
    } else if c.identified {
      NotResumed(w.lease, l.request, l.peer.conn, env);
      LeaseFactsOf(w);
      OpenOutcome(w.lease, l.request, l.peer.conn, env);
      DisconnectOther(Expire(w.lease, env.now), l.peer.conn, env.leaving);
    }
  }

  lemma DisconnectOther(lease: Lease, conn: nat, now: nat)
    requires lease.owner != conn
    ensures Disconnect(lease, conn, now) == lease
  {
  }

  lemma ExpireKeeps(lease: Lease, now: nat)
    ensures var e := Expire(lease, now); e == lease || e == lease.(retained := false)
  {
  }

  /** The OPEN in flight carries what the client knows, and that fits its lease. */
  lemma CurrentRequest(w: World)
    requires Inv(w) && w.phase == Online && Last(w).seen == 0
    ensures var (l, c) := (Last(w), w.client);
            && l.request == OpenRequest(c.epoch, c.clientId, c.acknowledged) && (c.identified <==> Nonzero(c.epoch))
            && Nonzero(w.lease.epoch) && Nonzero(c.clientId)
            && (w.lease.retained && w.lease.clientId == c.clientId ==>
                  if c.identified then w.lease.epoch == c.epoch ==> c.acknowledged <= w.lease.accepted
                  else c.acknowledged == 0 && w.lease.accepted == 0)
  {
    NoTokenIsZero();
    hide LinkOk, ConnsOk, Nonzero, Carries;
  }

  /** Whatever DATA frame reaches a live server connection is the next payload:
  with room, a pty that can be written to and a reply slot it is admitted, counted
  and acknowledged. */
  lemma HonestDataNeverRejected(worlds: seq<World>, events: seq<Event>, k: nat, index: nat, env: Env)
    requires IsRun(worlds, events) && k < |worlds| && Legal(worlds[k], Handle(index, env))
    requires NextFrame(worlds[k].links[index].pending).message.kind == MSG_INPUT_DATA
    ensures var (w, l) := (worlds[k], worlds[k].links[index]);
            var r := Serve.Serve(w.lease, l.peer, NextFrame(l.pending).message, env);
            && w.lease.accepted < |w.submitted|
            && (env.admission == Full ==> !r.handled && r.lease == w.lease)
            && (env.admission == Taken ==> r.handled && r.admitted == Some(w.submitted[w.lease.accepted]))
            && (env.admission == Taken && env.drained && env.queued ==>
                  r.peer == l.peer.(replies := l.peer.replies + [AckReply(w.lease.accepted + 1)]) &&
                  r.lease == w.lease.(accepted := w.lease.accepted + 1))
  {
    hide Initial, After, Inv, LeaseOk, CurrentOk, ConnsOk, LinkOk, ClientOk, LedgerOk, NextFrame, Serve.Serve, WireOk,
         ContentOk, ExposureOk, RepliesOk, SessionOk;
    RunKeeps(worlds, events, k);
    var w := worlds[k];
    InvParts(w);
    LinkParts(w.links[index], w);
    NextIsSent(w.links[index]);
    HonestDataServed(w, index, env);
  }

  lemma HonestDataServed(w: World, index: nat, env: Env)
    requires Inv(w) && AtFrame(w, index, MSG_INPUT_DATA)
    ensures var l := w.links[index];
            var r := Serve.Serve(w.lease, l.peer, l.sent[l.done], env);
            && w.lease.accepted < |w.submitted|
            && (env.admission == Full ==> !r.handled && r.lease == w.lease)
            && (env.admission == Taken ==> r.handled && r.admitted == Some(w.submitted[w.lease.accepted]))
            && (env.admission == Taken && env.drained && env.queued ==>
                  r.peer == l.peer.(replies := l.peer.replies + [AckReply(w.lease.accepted + 1)]) &&
                  r.lease == w.lease.(accepted := w.lease.accepted + 1))
  {
    hide Inv, LeaseOk, CurrentOk, ConnsOk, LinkOk, Nonzero, ClientOk, LedgerOk, NextFrame, ReadData, Datas;
    InvParts(w);
    HonestData(w, index);
    Submitted(w);
  }

  /** A CLOSE that reaches the lease's owner always matches the server's counter. */
  lemma HonestCloseMatches(worlds: seq<World>, events: seq<Event>, k: nat, index: nat, env: Env)
    requires IsRun(worlds, events) && k < |worlds| && Legal(worlds[k], Handle(index, env))
    requires NextFrame(worlds[k].links[index].pending).message.kind == MSG_INPUT_CLOSE &&
             worlds[k].links[index].peer.session
    ensures var (w, l) := (worlds[k], worlds[k].links[index]);
            var r := Serve.Serve(w.lease, l.peer, NextFrame(l.pending).message, env);
            && w.lease.accepted == w.client.sequence == |w.submitted| && !r.lease.retained && r.lease.owner == 0
  {
    hide Initial, After, LeaseOk, CurrentOk, ConnsOk, LinkOk, Nonzero, LedgerOk, NextFrame, ReadAck, WireOk,
         ContentOk, ExposureOk, RepliesOk, SessionOk;
    RunKeeps(worlds, events, k);
    var w := worlds[k];
    InvParts(w);
    LinkParts(w.links[index], w);
    NextIsSent(w.links[index]);
    CloseMatches(w, index);
  }

  lemma HandledLedger(w: World, index: nat, env: Env, epoch: seq<Byte>)
    requires index < |w.links| && NextFrame(w.links[index].pending).Ready?
    requires Unused(w, env.freshEpoch) && LedgerOk(w.ledger, w.epochs, w.client, w.submitted) && epoch in w.ledger
    ensures var after := Handled(w, index, env);
            epoch in after.ledger && w.ledger[epoch] <= after.ledger[epoch] && after.submitted == w.submitted
  {
    hide Nonzero, NextFrame, Consumed, Serve.Serve, PaneAfter, LogAfter, Fenced;
    var l := w.links[index];
    EpochKeptOrNew(w.lease, l.peer, NextFrame(l.pending).message, env);
  }

  /** What an epoch admitted is never taken back or rewritten. */
  lemma LedgerOnlyGrows(w: World, event: Event, epoch: seq<Byte>)
    requires Inv(w) && Legal(w, event) && epoch in w.ledger
    ensures epoch in After(w, event).ledger && w.ledger[epoch] <= After(w, event).ledger[epoch]
    ensures w.submitted <= After(w, event).submitted
  {
    hide ClientOk, LeaseOk, CurrentOk, ConnsOk, LinkOk, LedgerOk, NextFrame, Replay, ReplayMessages, Connected, Typed,
         Written, Heard, Quitted, Handled, Applied, Admit, Answer, FlushPty, Classify, RivalCall;
    if event.Handle? { HandledLedger(w, event.link, event.env, epoch); }
  }

  lemma EpochKeptOrNew(lease: Lease, peer: Peer, message: Message, env: Env)
    ensures var r := Serve.Serve(lease, peer, message, env);
            r.lease.epoch == lease.epoch || env.freshEpoch == Some(r.lease.epoch)
  {
    NoTokenIsZero();
    hide Nonzero, ReadOpen, ReadData, ReadAck;
  }

  /** Nothing is lost either: once a ready client has replayed and written all, and
  the server has received and handled all, everything typed has been admitted;
  and once the client has heard every reply its journal is empty. */
  lemma EverythingArrives(worlds: seq<World>, events: seq<Event>, k: nat)
    requires IsRun(worlds, events) && k < |worlds|
    requires var w := worlds[k];
             w.phase == Online && w.client.ready && w.client.unsent == 0 && Pending(w.client.out) == 0 &&
             w.links != [] && Last(w).peer.open && Last(w).received == |Last(w).wire| &&
               NextFrame(Last(w).pending) == Wait
    ensures var (w, c) := (worlds[k], worlds[k].client);
            && c.epoch in w.ledger && w.ledger[c.epoch] == w.submitted && w.lease.accepted == c.sequence
            && (Last(w).seen == |Last(w).peer.replies| ==> c.journal == [])
  {
    hide Initial, After, Legal, Inv, NextFrame;
    RunKeeps(worlds, events, k);
    ArrivesWhole(worlds[k]);
  }

  lemma ArrivesWhole(w: World)
    requires Inv(w) && w.phase == Online && w.client.ready && w.client.unsent == 0 && Pending(w.client.out) == 0
    requires w.links != [] && Last(w).peer.open && Last(w).received == |Last(w).wire| &&
             NextFrame(Last(w).pending) == Wait
    ensures var c := w.client;
            && c.epoch in w.ledger && w.ledger[c.epoch] == w.submitted && w.lease.accepted == c.sequence
            && (Last(w).seen == |Last(w).peer.replies| ==> c.journal == [])
  {
    hide ConnsOk, LinkOk, Nonzero, FrameBytes, StreamBytes, NextFrame, Datas, DataEnd, Stamps, WireOk, RequestOk,
         FramesOk, PayloadsOk, PutData, ExposureOk;
    InvParts(w);
    var l := Last(w);
    LinkParts(l, w);
    AllHandled(l, w.client);
    assert l.sent[..l.done] == l.sent;
  }

  lemma AllHandled(l: Link, c: Client)
    requires WireOk(l) && CurrentOk(l, c) && Pending(c.out) == 0 && l.received == |l.wire| &&
             NextFrame(l.pending) == Wait
    ensures l.done == |l.sent|
  {
    hide FrameBytes, StreamBytes, NextFrame, Datas, DataEnd, Stamps;
    StreamUpTo(l.sent, l.done);
    var rest := l.sent[l.done..];
    assert l.pending == StreamBytes(rest);
    if rest != [] {
      FirstFrame(rest, |StreamBytes(rest)|);
      FirstFrameFits(rest);
      assert l.pending[..|FrameBytes(rest[0])|] == FrameBytes(rest[0]);
      NextWhole(l.pending, rest[0]);
    }
  }

  lemma FirstFrameFits(messages: seq<Message>)
    requires messages != []
    ensures |FrameBytes(messages[0])| <= |StreamBytes(messages)|
  {
  }
}
