/** The server's steps keep the acknowledged-input invariant: bytes arriving, the
OPEN, DATA and CLOSE arms, releases, and everything other clients do. */
module InputServerSteps {
  import opened Bytes
  import opened Frame
  import opened InputSession
  import opened InputWire
  import opened Outgoing
  import opened Serve
  import opened InputWorld
  import opened InputLinks

  // ---- the server's steps ---------------------------------------------------------------------------------

  /** Same client; links may have received, been handled or been released. */
  ghost predicate ServerSide(w: World, after: World) {
    && after.client == w.client && after.phase == w.phase && after.submitted == w.submitted &&
       |after.links| == |w.links|
    && (forall e :: e in w.ledger ==> e in after.ledger && |w.ledger[e]| <= |after.ledger[e]|)
    && forall i :: 0 <= i < |w.links| ==> Served(w.links[i], after.links[i])
  }

  ghost predicate Served(l: Link, after: Link) {
    && after.peer.conn == l.peer.conn && after.request == l.request && after.sent == l.sent && after.wire == l.wire
    && after.seen == l.seen && l.peer.replies <= after.peer.replies
  }

  lemma ServerStep(w: World, after: World)
    requires Inv(w) && ServerSide(w, after) && ConnsOk(w.links, after.rivals)
    requires LeaseOk(after.lease, w.links, after.client, after.ledger, after.epochs, after.rivals)
    requires LedgerOk(after.ledger, after.epochs, after.client, after.submitted)
    requires forall i :: 0 <= i < |after.links| ==> LinkOk(after.links[i], after)
    ensures Inv(after)
  {
    hide ClientOk, LedgerOk, LinkOk, CurrentOk, ConnsOk;
    InvParts(w);
    assert forall i :: 0 <= i < |w.links| ==> Served(w.links[i], after.links[i]);
    SameConns(w.links, after.links, after.rivals);
    LeaseLinks(after, w.links);
    if Live(w) {
      assert LinkOk(Last(w), w);
      CurrentServed(Last(w), Last(after), w);
    }
  }

  lemma LeaseLinks(after: World, links: seq<Link>)
    requires LeaseOk(after.lease, links, after.client, after.ledger, after.epochs, after.rivals)
    requires forall conn :: IsConn(after.links, conn) == IsConn(links, conn)
    ensures LeaseOk(after.lease, after.links, after.client, after.ledger, after.epochs, after.rivals)
  {
    hide Nonzero;
  }

  lemma CurrentServed(l: Link, after: Link, w: World)
    requires CurrentOk(l, w.client) && LinkOk(l, w) && Served(l, after)
    ensures CurrentOk(after, w.client)
  {
    hide StreamBytes, Datas, DataEnd, Nonzero, WireOk, ExposureOk, SessionOk, FramesOk, PayloadsOk, Carries;
  }

  lemma ArriveKeeps(w: World, link: nat, count: nat)
    requires Inv(w) && Legal(w, Arrive(link, count))
    ensures Inv(After(w, Arrive(link, count)))
  {
    hide ClientOk, LedgerOk, LinkOk, CurrentOk, LeaseOk, ConnsOk, WireOk, ContentOk, ExposureOk, RepliesOk, SessionOk;
    var after := After(w, Arrive(link, count));
    InvParts(w);
    forall i | 0 <= i < |after.links| ensures LinkOk(after.links[i], after) {
      LinkSame(after.links[i], w, after);
      if i == link { LinkArrived(w.links[i], after.links[i], count, w); }
    }
    ServerStep(w, after);
  }

  lemma LinkArrived(l: Link, after: Link, count: nat, w: World)
    requires LinkOk(l, w) && l.received + count <= |l.wire|
    requires after == l.(received := l.received + count, pending := l.pending + l.wire[l.received..l.received + count])
    ensures LinkOk(after, w)
  {
    hide ContentOk, RepliesOk, SessionOk, ExposureOk, StreamBytes;
    LinkParts(l, w);
    ContentMoved(l, after, w);
    RepliesSame(l, after, w.ledger, w.client.clientId);
    SessionMoved(l, after, w);
    LinkWhole(after, w);
  }

  lemma ContentMoved(l: Link, after: Link, w: World)
    requires after.sent == l.sent && after.request == l.request && after.seen == l.seen &&
             after.peer.replies == l.peer.replies && after.wire == l.wire
    requires ContentOk(l, w.client, Done(w), w.submitted) && ExposureOk(l, w.client.eligible)
    ensures ContentOk(after, w.client, Done(w), w.submitted) && ExposureOk(after, w.client.eligible)
  {
    hide Datas, DataEnd, FramesOk, PayloadsOk, RequestOk;
  }

  lemma SessionMoved(l: Link, after: Link, w: World)
    requires SessionOk(l, w.lease, w.client.clientId) && after.peer == l.peer && after.done == l.done &&
             after.sent == l.sent
    ensures SessionOk(after, w.lease, w.client.clientId)
  {
    hide Datas;
  }

  lemma ServerLater(w: World, after: World)
    requires ServerSide(w, after)
    ensures Later(w, after)
  {
  }

  /** A step taken for link `index`: the others are as they were, or released. */
  ghost predicate Beside(w: World, after: World, index: nat) {
    forall j :: 0 <= j < |w.links| && j != index && j < |after.links| ==>
      && (after.links[j] == w.links[j] || after.links[j] == Shut(w.links[j]))
      && (if w.lease.owner == w.links[j].peer.conn
          then (after.lease == w.lease && after.links[j] == w.links[j]) ||
               (after.lease.owner != w.links[j].peer.conn && after.links[j] == Shut(w.links[j]))
          else after.lease.owner != w.links[j].peer.conn)
  }

  function Shut(l: Link): Link {
    l.(peer := l.peer.(open := false))
  }

  lemma LinkBeside(l: Link, moved: Link, w: World, after: World)
    requires LinkOk(l, w) && Later(w, after) && (moved == l || moved == Shut(l))
    requires if w.lease.owner == l.peer.conn
             then (after.lease == w.lease && moved == l) || (after.lease.owner != l.peer.conn && moved == Shut(l))
             else after.lease.owner != l.peer.conn
    ensures LinkOk(moved, after)
  {
    hide WireOk, ContentOk, ExposureOk, RepliesOk, Later, Datas;
    LinkParts(l, w);
    LaterClient(w, after);
    ShutParts(l, w);
    assert LinkOk(moved, w.(lease := after.lease));
    LaterLease(w, after);
    LinkLater(moved, w.(lease := after.lease), after);
  }

  lemma LaterLease(w: World, after: World)
    requires Later(w, after)
    ensures Later(w.(lease := after.lease), after)
  {
  }

  lemma ShutParts(l: Link, w: World)
    requires WireOk(l) && ContentOk(l, w.client, Done(w), w.submitted) && ExposureOk(l, w.client.eligible) &&
             RepliesOk(l, w.ledger, w.client.clientId)
    ensures var s := Shut(l);
            WireOk(s) && ContentOk(s, w.client, Done(w), w.submitted) && ExposureOk(s, w.client.eligible) &&
              RepliesOk(s, w.ledger, w.client.clientId)
  {
    hide StreamBytes, Datas, DataEnd, FramesOk, PayloadsOk, RequestOk, Nonzero;
  }

  lemma LinkStep(w: World, after: World, index: nat)
    requires Inv(w) && ServerSide(w, after) && after.rivals == w.rivals && index < |w.links|
    requires LeaseOk(after.lease, w.links, after.client, after.ledger, after.epochs, after.rivals)
    requires LedgerOk(after.ledger, after.epochs, after.client, after.submitted)
    requires LinkOk(after.links[index], after) && Beside(w, after, index)
    ensures Inv(after)
  {
    hide ClientOk, LedgerOk, LeaseOk, CurrentOk, ConnsOk, LinkOk, Later;
    InvParts(w);
    ServerLater(w, after);
    forall j | 0 <= j < |after.links| ensures LinkOk(after.links[j], after) {
      if j != index { LinkBeside(w.links[j], after.links[j], w, after); }
    }
    assert ConnsOk(w.links, w.rivals);
    ServerStep(w, after);
  }

  /** No other link is the owner when this one is, or may become it. */
  lemma OtherConns(w: World, index: nat)
    requires Inv(w) && index < |w.links|
    ensures forall j :: 0 <= j < |w.links| && j != index ==> w.links[j].peer.conn != w.links[index].peer.conn
    ensures forall j :: 0 <= j < |w.links| ==> w.links[j].peer.conn != 0
    ensures w.links[index].peer.conn !in w.rivals && IsConn(w.links, w.links[index].peer.conn)
  {
    hide ClientOk, LedgerOk, LeaseOk, CurrentOk, LinkOk;
  }

  /** A live owner or none: what Disconnect and Expire make of the lease. */
  lemma DisconnectOk(lease: Lease, w: World, ledger: map<seq<Byte>, seq<seq<Byte>>>, epochs: set<seq<Byte>>,
                     conn: nat, now: nat)
    requires LeaseOk(lease, w.links, w.client, ledger, epochs, w.rivals)
    ensures LeaseOk(Disconnect(lease, conn, now), w.links, w.client, ledger, epochs, w.rivals)
  {
    hide Nonzero;
  }

  // ---- INPUT_OPEN --------------------------------------------------------------------------------------

  /** What a frame handled does to a link apart from its peer. */
  function Moved(l: Link, peer: Peer): Link {
    l.(peer := peer, pending := Consumed(l.pending), done := l.done + 1)
  }

  lemma WireMoved(l: Link, peer: Peer)
    requires WireOk(l) && NextFrame(l.pending).Ready?
    ensures WireOk(Moved(l, peer))
  {
    hide StreamBytes, NextFrame, Consumed, FrameBytes, Fits;
    NextIsSent(l);
  }

  /** At its OPEN a link has neither replies nor DATA. */
  lemma AtOpen(l: Link, w: World)
    requires LinkOk(l, w) && ClientOk(w.client, w.submitted) && l.done < |l.sent| &&
             l.sent[l.done].kind == MSG_INPUT_OPEN
    ensures l.done == 1 && l.peer.replies == [] && !l.peer.session && l.seen == 0 && Datas(l.sent) == [] &&
            Datas(l.sent[..2]) == []
    ensures l.request.clientId == w.client.clientId && (!Nonzero(l.request.epoch) ==> l.request.lastAck == 0)
    ensures ReadOpen(l.sent[l.done].payload) == Some(l.request)
    ensures w.lease.owner != l.peer.conn
  {
    hide StreamBytes, Nonzero, Datas, PutOpen, ReadOpen;
    OpenRoundTrip(l.request);
    FewerDatas(l.sent, 2);
  }

  lemma OpenedContent(l: Link, moved: Link, w: World)
    requires ContentOk(l, w.client, Done(w), w.submitted) && Datas(l.sent) == [] && l.seen == 0
    requires moved.sent == l.sent && moved.request == l.request && moved.seen == 0
    ensures ContentOk(moved, w.client, Done(w), w.submitted) && ExposureOk(moved, w.client.eligible)
  {
    hide Datas, FramesOk, RequestOk, DataEnd;
  }

  /** The one reply a link gets to its OPEN. */
  ghost predicate AnswerOk(l: Link, state: State, ledger: map<seq<Byte>, seq<seq<Byte>>>, clientId: seq<Byte>) {
    && state.clientId == clientId
    && (state.Grants() ==>
          && state.epoch in ledger && l.request.lastAck <= state.accepted <= |ledger[state.epoch]|
          && (Nonzero(l.request.epoch) ==> state.epoch == l.request.epoch))
  }

  lemma AnswerReplies(l: Link, ledger: map<seq<Byte>, seq<seq<Byte>>>, clientId: seq<Byte>)
    requires l.seen == 0 && l.done == 2
    requires l.peer.replies == [] ||
             (|l.peer.replies| == 1 && l.peer.replies[0].StateReply? &&
              AnswerOk(l, l.peer.replies[0].state, ledger, clientId))
    ensures RepliesOk(l, ledger, clientId)
  {
    hide Nonzero, Datas;
  }

  /** Everything Open can do to a lease that satisfies the invariant. */
  lemma OpenOutcome(lease: Lease, request: OpenRequest, conn: nat, env: Env)
    requires !lease.retained ==> lease.owner == 0
    requires conn != 0 && lease.owner != conn
    ensures var expired := Expire(lease, env.now);
            var r := OpenAt(lease, request, conn, env);
            if r.status != READY then r.lease == expired && r.fenced == 0
            else
              && r.fenced == lease.owner
              && ((lease.retained && request.clientId == lease.clientId && request.lastAck <= lease.accepted &&
                   (Nonzero(request.epoch) ==> request.epoch == lease.epoch) &&
                     r.lease == lease.(owner := conn, expires := 0)) ||
                  (env.freshEpoch.Some? && Nonzero(env.freshEpoch.value) && env.freshEpoch.value != lease.epoch &&
                   request.lastAck == 0 && !Nonzero(request.epoch) && lease.owner == 0 &&
                   r.lease == lease.(epoch := env.freshEpoch.value, clientId := request.clientId, accepted := 0,
                                     retained := true, owner := conn, expires := 0)))
  {
    NoTokenIsZero();
    hide Nonzero;
  }

  lemma ExpireOk(w: World, now: nat)
    requires LeaseOk(w.lease, w.links, w.client, w.ledger, w.epochs, w.rivals)
    ensures LeaseOk(Expire(w.lease, now), w.links, w.client, w.ledger, w.epochs, w.rivals)
  {
    hide Nonzero;
  }

  /** A message that leaves the ledger alone and releases the link. */
  lemma LeavingKeeps(w: World, index: nat, lease: Lease, link: Link, now: nat)
    requires Inv(w) && index < |w.links|
    requires LeaseOk(lease, w.links, w.client, w.ledger, w.epochs, w.rivals)
    requires lease == w.lease || (w.lease.owner == 0 && lease.owner == 0) || w.lease.owner == w.links[index].peer.conn
    requires lease.owner == w.lease.owner || lease.owner == 0
    requires Served(w.links[index], link) && !link.peer.open
    requires WireOk(link) && ContentOk(link, w.client, Done(w), w.submitted) && ExposureOk(link, w.client.eligible)
    requires RepliesOk(link, w.ledger, w.client.clientId)
    ensures Inv(w.(lease := Disconnect(lease, link.peer.conn, now), links := w.links[index := link]))
  {
    hide ClientOk, LedgerOk, LeaseOk, CurrentOk, ConnsOk, LinkOk, WireOk, ContentOk, ExposureOk, RepliesOk, Datas;
    var after := w.(lease := Disconnect(lease, link.peer.conn, now), links := w.links[index := link]);
    InvParts(w);
    OtherConns(w, index);
    DisconnectOk(lease, w, w.ledger, w.epochs, link.peer.conn, now);
    LinkWhole(link, after);
    assert Beside(w, after, index);
    LinkStep(w, after, index);
  }

  lemma LeaseFacts(w: World)
    requires LeaseOk(w.lease, w.links, w.client, w.ledger, w.epochs, w.rivals)
    ensures (!w.lease.retained ==> w.lease.owner == 0) && w.lease.epoch in w.epochs
    ensures forall now :: var e := Expire(w.lease, now);
            e.epoch == w.lease.epoch && e.owner == w.lease.owner && (e == w.lease || w.lease.owner == 0)
  {
  }

  /** Refused without a reply, or not even asked. */
  lemma LeaveAtOpen(w: World, index: nat, lease: Lease, now: nat, leaving: nat)
    requires Inv(w) && index < |w.links| && NextFrame(w.links[index].pending).Ready? &&
             w.links[index].done < |w.links[index].sent|
    requires w.links[index].sent[w.links[index].done].kind == MSG_INPUT_OPEN
    requires lease == w.lease || lease == Expire(w.lease, now)
    ensures Inv(w.(lease := Disconnect(lease, w.links[index].peer.conn, leaving),
                   links := w.links[index := Moved(w.links[index], Shut(w.links[index]).peer)]))
  {
    hide ClientOk, LedgerOk, LeaseOk, CurrentOk, ConnsOk, LinkOk, WireOk, ContentOk, ExposureOk, RepliesOk, Datas,
         Nonzero, NextFrame, Consumed, SessionOk;
    InvParts(w);
    var l := w.links[index];
    LinkParts(l, w);
    AtOpen(l, w);
    LeaseFacts(w);
    ExpireOk(w, now);
    var moved := Moved(l, Shut(l).peer);
    WireMoved(l, moved.peer);
    OpenedContent(l, moved, w);
    AnswerReplies(moved, w.ledger, w.client.clientId);
    LeavingKeeps(w, index, lease, moved, leaving);
  }

  /** An answered OPEN, the lease being whatever it has become. */
  lemma AnsweredOpen(w: World, after: World, index: nat, peer: Peer, fenced: nat)
    requires Inv(w) && index < |w.links| && NextFrame(w.links[index].pending).Ready? &&
             w.links[index].done < |w.links[index].sent|
    requires w.links[index].sent[w.links[index].done].kind == MSG_INPUT_OPEN && peer.conn == w.links[index].peer.conn
    requires after == w.(lease := after.lease, ledger := after.ledger, epochs := after.epochs,
                         links := Fenced(w.links, fenced)[index := Moved(w.links[index], peer)])
    requires forall e :: e in w.ledger ==> e in after.ledger && |w.ledger[e]| <= |after.ledger[e]|
    requires LeaseOk(after.lease, w.links, after.client, after.ledger, after.epochs, after.rivals)
    requires LedgerOk(after.ledger, after.epochs, after.client, after.submitted)
    requires peer.replies == [] || (|peer.replies| == 1 && peer.replies[0].StateReply? &&
             AnswerOk(w.links[index], peer.replies[0].state, after.ledger, w.client.clientId))
    requires SessionOk(Moved(w.links[index], peer), after.lease, w.client.clientId)
    requires (fenced == 0 && (after.lease == w.lease || w.lease.owner == 0)) || fenced == w.lease.owner
    requires after.lease.owner == w.lease.owner || after.lease.owner == peer.conn || after.lease.owner == 0
    requires fenced == 0 || after.lease.owner == peer.conn || after.lease.owner == 0
    ensures Inv(after)
  {
    hide ClientOk, LedgerOk, LeaseOk, CurrentOk, ConnsOk, LinkOk, WireOk, ContentOk, ExposureOk, RepliesOk, Datas,
         Nonzero, NextFrame, Consumed, SessionOk, Later;
    InvParts(w);
    var l := w.links[index];
    LinkParts(l, w);
    AtOpen(l, w);
    OtherConns(w, index);
    var moved := Moved(l, peer);
    WireMoved(l, peer);
    OpenedContent(l, moved, w);
    AnswerReplies(moved, after.ledger, w.client.clientId);
    LinkWhole(moved, after);
    forall i | 0 <= i < |w.links| ensures Served(w.links[i], after.links[i]) {
    }
    assert Beside(w, after, index);
    LinkStep(w, after, index);
  }

  lemma RefusedOpen(w: World, index: nat, now: nat, peer: Peer)
    requires Inv(w) && index < |w.links| && NextFrame(w.links[index].pending).Ready? &&
             w.links[index].done < |w.links[index].sent|
    requires w.links[index].sent[w.links[index].done].kind == MSG_INPUT_OPEN
    requires peer == w.links[index].peer.(replies := peer.replies) && |peer.replies| == 1 && peer.replies[0].StateReply?
    requires !peer.replies[0].state.Grants() && peer.replies[0].state.clientId == w.links[index].request.clientId
    ensures Inv(w.(lease := Expire(w.lease, now), links := w.links[index := Moved(w.links[index], peer)]))
  {
    hide ClientOk, LedgerOk, LeaseOk, CurrentOk, ConnsOk, LinkOk, WireOk, ContentOk, ExposureOk, RepliesOk, Datas,
         Nonzero, NextFrame, Consumed;
    InvParts(w);
    var l := w.links[index];
    LinkParts(l, w);
    AtOpen(l, w);
    LeaseFacts(w);
    ExpireOk(w, now);
    var after := w.(lease := Expire(w.lease, now), links := w.links[index := Moved(l, peer)]);
    assert Fenced(w.links, 0) == w.links;
    AnsweredOpen(w, after, index, peer, 0);
  }

  /** The ledger and lease once an epoch was granted or resumed. */
  lemma GrantedLease(w: World, index: nat, granted: Lease, ledger: map<seq<Byte>, seq<seq<Byte>>>,
                     newEpoch: Option<seq<Byte>>)
    requires LeaseOk(w.lease, w.links, w.client, w.ledger, w.epochs, w.rivals) &&
             LedgerOk(w.ledger, w.epochs, w.client, w.submitted)
    requires index < |w.links| && w.links[index].peer.conn !in w.rivals && w.links[index].peer.conn != 0
    requires w.links[index].request.clientId == w.client.clientId && Unused(w, newEpoch)
    requires var (l, request) := (w.links[index], w.links[index].request);
             (w.lease.retained && request.clientId == w.lease.clientId &&
              granted == w.lease.(owner := l.peer.conn, expires := 0) &&
              ledger == w.ledger) ||
             (newEpoch.Some? && Nonzero(newEpoch.value) && newEpoch.value != w.lease.epoch &&
              ledger == w.ledger[newEpoch.value := []] &&
              granted ==
                w.lease.(epoch := newEpoch.value, clientId := request.clientId, accepted := 0, retained := true,
                                  owner := l.peer.conn, expires := 0))
    ensures LeaseOk(granted, w.links, w.client, ledger, w.epochs + {granted.epoch}, w.rivals)
    ensures LedgerOk(ledger, w.epochs + {granted.epoch}, w.client, w.submitted)
    ensures granted.epoch in ledger && |ledger[granted.epoch]| == granted.accepted
    ensures forall e :: e in w.ledger ==> e in ledger && |w.ledger[e]| <= |ledger[e]|
  {
    hide Nonzero;
    assert IsConn(w.links, w.links[index].peer.conn);
  }

  lemma GrantedOpen(w: World, index: nat, env: Env, peer: Peer, lease: Lease)
    requires Inv(w) && AtFrame(w, index, MSG_INPUT_OPEN) && Unused(w, env.freshEpoch)
    requires var (l, request) := (w.links[index], w.links[index].request);
             var r := OpenAt(w.lease, request, l.peer.conn, env);
             && r.status == READY
             && ((lease == r.lease &&
                  peer ==
                    Peer(l.peer.conn, true, true,
                         [StateReply(State(READY, GRACE_MS, r.lease.epoch, request.clientId, r.lease.accepted))])) ||
                 (lease == Disconnect(r.lease, l.peer.conn, env.leaving) && peer == Peer(l.peer.conn, false, true, [])))
    ensures Inv(Settled(w, index, Serve.Served(lease, peer, w.lease.owner, None, true)))
  {
    hide ClientOk, LedgerOk, LeaseOk, CurrentOk, ConnsOk, LinkOk, WireOk, ContentOk, ExposureOk, RepliesOk, Datas,
         Nonzero, ReadOpen, NextFrame, Consumed, OpenAt, Expire;
    InvParts(w);
    var l := w.links[index];
    LinkParts(l, w);
    AtOpen(l, w);
    OtherConns(w, index);
    LeaseFacts(w);
    OpenOutcome(w.lease, l.request, l.peer.conn, env);
    var r := OpenAt(w.lease, l.request, l.peer.conn, env);
    var after := Settled(w, index, Serve.Served(lease, peer, w.lease.owner, None, true));
    GrantedLease(w, index, r.lease, after.ledger, env.freshEpoch);
    DisconnectOk(r.lease, w, after.ledger, after.epochs, l.peer.conn, env.leaving);
    AnsweredOpen(w, after, index, peer, w.lease.owner);
  }

  /** Whether an OPEN is answered at all: the connection said who it is, and a
  random epoch could be had if one is needed. */
  predicate Answers(lease: Lease, env: Env) {
    env.greeted && (Expire(lease, env.now).retained || env.freshEpoch.Some?)
  }

  /** What Serve makes of a link's own OPEN. */
  lemma ServedOpen(lease: Lease, peer: Peer, payload: seq<Byte>, request: OpenRequest, env: Env)
    requires ReadOpen(payload) == Some(request) && !peer.session && peer.open && peer.replies == []
    ensures var outcome := Serve.Serve(lease, peer, Message(MSG_INPUT_OPEN, payload), env);
            var (answers, expired) := (Answers(lease, env), Expire(lease, env.now));
            var r := OpenAt(lease, request, peer.conn, env);
            var reply := StateReply(State(r.status, 60000, r.lease.epoch, request.clientId,
                                          if r.status == READY then r.lease.accepted else 0));
            && outcome.admitted == None && outcome.handled && outcome.fenced == (if answers then r.fenced else 0)
            && outcome.lease == (if !env.greeted then Disconnect(lease, peer.conn, env.leaving)
                                 else if !answers then Disconnect(expired, peer.conn, env.leaving)
                                 else if env.queued then r.lease else Disconnect(r.lease, peer.conn, env.leaving))
            && outcome.peer == Peer(peer.conn, answers && env.queued, answers && r.status == READY,
                                    if answers && env.queued then [reply] else [])
  {
    hide ReadOpen, OpenAt, Expire, Disconnect;
  }

  /** A link about to serve a frame it received whole. */
  ghost predicate AtFrame(w: World, index: nat, kind: Byte) {
    && index < |w.links| && w.links[index].peer.open && NextFrame(w.links[index].pending).Ready?
    && w.links[index].done < |w.links[index].sent| && w.links[index].sent[w.links[index].done].kind == kind
  }

  lemma OpenSettled(w: World, index: nat, env: Env)
    requires Inv(w) && AtFrame(w, index, MSG_INPUT_OPEN) && Unused(w, env.freshEpoch)
    ensures Inv(Settled(w, index,
                        Serve.Serve(w.lease, w.links[index].peer, w.links[index].sent[w.links[index].done], env)))
  {
    hide ClientOk, LedgerOk, LeaseOk, CurrentOk, ConnsOk, LinkOk, WireOk, ContentOk, ExposureOk, RepliesOk, Datas,
         Nonzero, ReadOpen, NextFrame, Consumed, OpenAt, Expire, SessionOk, Disconnect, Inv, Serve.Serve, Settled,
         Moved;
    InvParts(w);
    var l := w.links[index];
    AtOpen(l, w);
    LeaseFactsOf(w);
    OtherConns(w, index);
    EpochKept(w.lease, l.peer.conn, env.now, env.leaving);
    OpenOutcome(w.lease, l.request, l.peer.conn, env);
    var r, outcome := OpenAt(w.lease, l.request, l.peer.conn, env), Serve.Serve(w.lease, l.peer, l.sent[l.done], env);
    ServedOpen(w.lease, l.peer, l.sent[l.done].payload, l.request, env);
    if Answers(w.lease, env) && r.status == READY {
      GrantedOpen(w, index, env, outcome.peer, outcome.lease);
    } else if Answers(w.lease, env) && env.queued {
      RefusedOpen(w, index, env.now, outcome.peer);
      SettledQuietly(w, index, outcome);
    } else {
      LeaveAtOpen(w, index, if env.greeted then Expire(w.lease, env.now) else w.lease, env.now, env.leaving);
      SettledQuietly(w, index, outcome);
    }
  }

  lemma LeaseFactsOf(w: World)
    requires Inv(w)
    ensures (!w.lease.retained ==> w.lease.owner == 0) && w.lease.epoch in w.epochs
  {
    hide ClientOk, LedgerOk, CurrentOk, LinkOk, ConnsOk, Nonzero;
  }

  lemma EpochKept(lease: Lease, conn: nat, now: nat, leaving: nat)
    ensures Expire(lease, now).epoch == Disconnect(lease, conn, leaving).epoch ==
            Disconnect(Expire(lease, now), conn, leaving).epoch == lease.epoch
  {
  }

  /** Served without an epoch, a fence or an admission: only lease and link change. */
  lemma SettledQuietly(w: World, index: nat, r: Serve.Served)
    requires index < |w.links| && r.handled && r.fenced == 0 && r.admitted.None? && r.lease.epoch == w.lease.epoch &&
             w.lease.epoch in w.epochs
    ensures Settled(w, index, r) == w.(lease := r.lease, links := w.links[index := Moved(w.links[index], r.peer)])
  {
    hide Consumed;
    assert Fenced(w.links, 0) == w.links;
    assert w.epochs + {w.lease.epoch} == w.epochs;
  }

  // ---- INPUT_DATA, INPUT_CLOSE and the rest -----------------------------------------------------------------

  /** A DATA frame the server meets is the very next payload: its link owns the
  lease, in the client's own epoch, and the frame is below the ceiling. So the
  arm neither rejects it nor takes it for a duplicate. */
  lemma HonestData(w: World, index: nat)
    requires Inv(w) && AtFrame(w, index, MSG_INPUT_DATA)
    ensures var l, lease := w.links[index], w.lease;
            && l.peer.session && Granted(l) && lease.owner == l.peer.conn && lease.retained &&
               lease.clientId == w.client.clientId
            && w.client.identified && lease.epoch == w.client.epoch == EpochOf(l) && lease.epoch in w.ledger
            && |w.ledger[lease.epoch]| == lease.accepted < w.client.eligible
            && Start(l) + |Datas(l.sent[..l.done])| == lease.accepted &&
               |Datas(l.sent[..l.done + 1])| == |Datas(l.sent[..l.done])| + 1
            && ReadData(l.sent[l.done].payload) == Some(InputData(0, lease.accepted + 1, w.submitted[lease.accepted]))
            && Classify(lease, l.peer.conn, lease.accepted + 1) == Expected
            && Value(l.peer.replies[|l.peer.replies| - 1]) == lease.accepted && l.done >= 2
  {
    hide Datas, DataEnd, StreamBytes, ReadData, PutData, Nonzero, FrameBytes, NextFrame, RequestOk, PutOpen;
    InvParts(w);
    var l, lease, c := w.links[index], w.lease, w.client;
    assert LinkOk(l, w);
    var n := |Datas(l.sent[..l.done])|;
    DataAt(l.sent, l.done);
    NextIsSent(l);
    assert n < |Datas(l.sent)| && Datas(l.sent)[n] == l.sent[l.done].payload;
    assert DataEnd(l.sent, n) <= |l.wire|;
    assert Start(l) + n + 1 <= c.eligible;
    DataRoundTrip(Start(l) + n + 1, w.submitted[Start(l) + n]);
    OtherConns(w, index);
  }

  lemma MovedParts(l: Link, peer: Peer, w: World)
    requires LinkOk(l, w) && NextFrame(l.pending).Ready? && l.done < |l.sent| && peer.conn == l.peer.conn
    requires l.peer.replies <= peer.replies && (l.peer.replies == [] ==> peer.replies == [])
    ensures var m := Moved(l, peer);
            WireOk(m) && ContentOk(m, w.client, Done(w), w.submitted) && ExposureOk(m, w.client.eligible) &&
              Served(l, m)
    ensures Granted(Moved(l, peer)) == Granted(l) && Start(Moved(l, peer)) == Start(l) &&
            (Granted(l) ==> EpochOf(Moved(l, peer)) == EpochOf(l))
  {
    hide Datas, DataEnd, FramesOk, PayloadsOk, RequestOk, WireOk, NextFrame, Consumed;
    WireMoved(l, peer);
  }

  lemma RepliesMoved(l: Link, peer: Peer, w: World)
    requires LinkOk(l, w) && l.done < |l.sent| && peer.conn == l.peer.conn && peer.replies == l.peer.replies &&
             peer.session == l.peer.session
    ensures RepliesOk(Moved(l, peer), w.ledger, w.client.clientId)
  {
    hide Datas, Nonzero, Consumed, WireOk, ContentOk, ExposureOk, SessionOk;
    DataAt(l.sent, l.done);
  }

  lemma ReleaseKeeps(w: World, index: nat, lease: Lease, now: nat)
    requires Inv(w) && index < |w.links| && NextFrame(w.links[index].pending).Ready? &&
             w.links[index].done < |w.links[index].sent|
    requires LeaseOk(lease, w.links, w.client, w.ledger, w.epochs, w.rivals) && lease.epoch == w.lease.epoch
    requires lease == w.lease || (w.lease.owner == w.links[index].peer.conn && lease.owner == 0)
    ensures var l := w.links[index];
            Inv(Settled(w, index, Serve.Served(Disconnect(lease, l.peer.conn, now), Shut(l).peer, 0, None, true)))
  {
    hide ClientOk, LedgerOk, LeaseOk, CurrentOk, ConnsOk, LinkOk, WireOk, ContentOk, ExposureOk, RepliesOk, Datas,
         Nonzero, NextFrame, Consumed, Inv, Settled;
    InvParts(w);
    var l := w.links[index];
    MovedParts(l, Shut(l).peer, w);
    RepliesMoved(l, Shut(l).peer, w);
    LeavingKeeps(w, index, lease, Moved(l, Shut(l).peer), now);
    LeaseFactsOf(w);
    SettledQuietly(w, index, Serve.Served(Disconnect(lease, l.peer.conn, now), Shut(l).peer, 0, None, true));
  }

  lemma TakenSettled(w: World, index: nat, lease: Lease, peer: Peer, data: seq<Byte>)
    requires index < |w.links| && lease.epoch == w.lease.epoch && lease.epoch in w.ledger
    ensures Settled(w, index, Serve.Served(lease, peer, 0, Some(data), true)) ==
            w.(lease := lease, ledger := w.ledger[lease.epoch := w.ledger[lease.epoch] + [data]],
               epochs := w.epochs + {lease.epoch}, links := w.links[index := Moved(w.links[index], peer)])
  {
    hide Consumed;
    assert Fenced(w.links, 0) == w.links;
  }

  lemma DisconnectOwned(lease: Lease, now: nat)
    ensures var left := Disconnect(lease, lease.owner, now); left.owner == 0 && left.epoch == lease.epoch
  {
  }

  /** Admitted and committed, whether or not the acknowledgement could be queued. */
  lemma TakenKeeps(w: World, index: nat, lease: Lease, peer: Peer, now: nat)
    requires Inv(w) && AtFrame(w, index, MSG_INPUT_DATA)
    requires var (l, committed) := (w.links[index], w.lease.(accepted := w.lease.accepted + 1));
             || (lease == committed && peer == l.peer.(replies := l.peer.replies + [AckReply(committed.accepted)]))
             || (lease == Disconnect(committed, l.peer.conn, now) && peer == l.peer.(open := false))
    requires w.lease.accepted < |w.submitted|
    ensures Inv(Settled(w, index, Serve.Served(lease, peer, 0, Some(w.submitted[w.lease.accepted]), true)))
  {
    hide ClientOk, LedgerOk, LeaseOk, CurrentOk, ConnsOk, LinkOk, WireOk, ContentOk, ExposureOk, RepliesOk, Datas,
         Nonzero, NextFrame, Consumed, SessionOk, Inv, Settled, Disconnect;
    InvParts(w);
    HonestData(w, index);
    var l := w.links[index];
    var after := Settled(w, index, Serve.Served(lease, peer, 0, Some(w.submitted[w.lease.accepted]), true));
    DisconnectOwned(w.lease.(accepted := w.lease.accepted + 1), now);
    TakenSettled(w, index, lease, peer, w.submitted[w.lease.accepted]);
    AdmittedLedger(w, after, index);
    MovedParts(l, peer, w);
    AckedReplies(l, peer, w, after);
    AckedSession(l, peer, w, after);
    LinkWhole(Moved(l, peer), after);
    OtherConns(w, index);
    forall i | 0 <= i < |w.links| ensures Served(w.links[i], after.links[i]) {
    }
    assert Beside(w, after, index);
    LinkStep(w, after, index);
  }

  lemma AdmittedLedger(w: World, after: World, index: nat)
    requires Inv(w) && AtFrame(w, index, MSG_INPUT_DATA) && w.lease.accepted < |w.submitted|
    requires w.lease.epoch in w.ledger
    requires after ==
             w.(lease := after.lease, ledger := after.ledger, epochs := w.epochs + {w.lease.epoch},
                links := after.links)
    requires after.ledger == w.ledger[w.lease.epoch := w.ledger[w.lease.epoch] + [w.submitted[w.lease.accepted]]]
    requires var committed := w.lease.(accepted := w.lease.accepted + 1);
             after.lease == committed ||
               exists now :: after.lease == Disconnect(committed, w.links[index].peer.conn, now)
    ensures LedgerOk(after.ledger, after.epochs, after.client, after.submitted)
    ensures LeaseOk(after.lease, w.links, after.client, after.ledger, after.epochs, after.rivals)
  {
    hide ClientOk, CurrentOk, ConnsOk, LinkOk, Nonzero, NextFrame;
    HonestData(w, index);
  }

  lemma AckedReplies(l: Link, peer: Peer, w: World, after: World)
    requires LinkOk(l, w) && l.done < |l.sent| && Granted(l) && l.done >= 2
    requires EpochOf(l) == w.lease.epoch && w.lease.epoch in w.ledger && |w.ledger[w.lease.epoch]| == w.lease.accepted
    requires Value(l.peer.replies[|l.peer.replies| - 1]) == w.lease.accepted
    requires Start(l) + |Datas(l.sent[..l.done])| == w.lease.accepted &&
             |Datas(l.sent[..l.done + 1])| == |Datas(l.sent[..l.done])| + 1
    requires peer.replies == l.peer.replies + [AckReply(w.lease.accepted + 1)] || peer.replies == l.peer.replies
    requires w.lease.epoch in after.ledger && |after.ledger[w.lease.epoch]| == w.lease.accepted + 1
    ensures RepliesOk(Moved(l, peer), after.ledger, w.client.clientId)
  {
    hide Datas, Nonzero, Consumed, WireOk, ContentOk, ExposureOk, SessionOk;
    var m := Moved(l, peer);
    forall k | 0 <= k < |peer.replies|
      ensures Value(peer.replies[k]) <= w.lease.accepted + 1
      ensures k < |l.peer.replies| ==> Value(peer.replies[k]) <= w.lease.accepted
    {
    }
  }

  lemma AckedSession(l: Link, peer: Peer, w: World, after: World)
    requires LinkOk(l, w) && l.done < |l.sent| && Granted(l) && w.lease.owner == l.peer.conn != 0 && l.peer.open &&
             l.peer.session
    requires EpochOf(l) == w.lease.epoch
    requires Start(l) + |Datas(l.sent[..l.done])| == w.lease.accepted &&
             |Datas(l.sent[..l.done + 1])| == |Datas(l.sent[..l.done])| + 1
    requires var committed := w.lease.(accepted := w.lease.accepted + 1);
             || (after.lease == committed &&
                 peer == l.peer.(replies := l.peer.replies + [AckReply(committed.accepted)]))
             || (after.lease.owner == 0 && peer == l.peer.(open := false))
    ensures SessionOk(Moved(l, peer), after.lease, w.client.clientId)
  {
    hide Datas, Consumed, WireOk, ContentOk, ExposureOk, RepliesOk;
  }

  lemma DataKeeps(w: World, index: nat, env: Env)
    requires Inv(w) && AtFrame(w, index, MSG_INPUT_DATA)
    ensures Inv(Settled(w, index,
                        Serve.Serve(w.lease, w.links[index].peer, w.links[index].sent[w.links[index].done], env)))
  {
    hide ClientOk, LedgerOk, LeaseOk, CurrentOk, ConnsOk, LinkOk, Datas, Nonzero, NextFrame, Consumed, Inv, ReadData,
         Settled;
    var l := w.links[index];
    HonestData(w, index);
    InvParts(w);
    LeaseOf(w);
    match env.admission
    case Full => SettledNothing(w, index, Serve.Served(w.lease, l.peer, 0, None, false));
    case Refused => ReleaseKeeps(w, index, w.lease, env.leaving);
    case Taken =>
      var outcome := Serve.Serve(w.lease, l.peer, l.sent[l.done], env);
      Submitted(w);
      TakenKeeps(w, index, outcome.lease, outcome.peer, env.leaving);
  }

  lemma Submitted(w: World)
    requires ClientOk(w.client, w.submitted)
    ensures w.client.eligible <= |w.submitted|
  {
  }

  lemma LeaseOf(w: World)
    requires Inv(w)
    ensures LeaseOk(w.lease, w.links, w.client, w.ledger, w.epochs, w.rivals)
  {
    hide ClientOk, LedgerOk, LeaseOk, CurrentOk, ConnsOk, LinkOk;
  }

  lemma SettledNothing(w: World, index: nat, r: Serve.Served)
    requires index < |w.links| && !r.handled
    ensures Settled(w, index, r) == w
  {
  }

  /** A CLOSE carries the counter the server has, so it always ends the session. */
  lemma CloseMatches(w: World, index: nat)
    requires Inv(w) && AtFrame(w, index, MSG_INPUT_CLOSE)
    ensures var l, c := w.links[index], w.client;
            && ReadAck(l.sent[l.done].payload) == Some(c.sequence) && c.journal == [] && c.acknowledged == c.sequence
            && (l.peer.session ==> w.lease.accepted == c.sequence && Close(w.lease, l.peer.conn, c.sequence).ok)
  {
    hide Datas, DataEnd, StreamBytes, PutData, PutAck, ReadAck, Nonzero, FrameBytes, NextFrame, RequestOk, PutOpen;
    InvParts(w);
    var l, c := w.links[index], w.client;
    assert LinkOk(l, w);
    AckRoundTrip(c.acknowledged);
    OtherConns(w, index);
    LeaseOf(w);
  }

  lemma CloseKeeps(w: World, index: nat, env: Env)
    requires Inv(w) && AtFrame(w, index, MSG_INPUT_CLOSE)
    ensures Inv(Settled(w, index,
                        Serve.Serve(w.lease, w.links[index].peer, w.links[index].sent[w.links[index].done], env)))
  {
    hide ClientOk, LedgerOk, LeaseOk, CurrentOk, ConnsOk, LinkOk, Datas, Nonzero, NextFrame, Consumed, Inv, ReadAck,
         Settled, Close;
    var l := w.links[index];
    CloseMatches(w, index);
    LeaseOf(w);
    OwnLease(w, index);
    if l.peer.session {
      ClosedOk(w, l.peer.conn, w.client.sequence);
      ReleaseKeeps(w, index, Close(w.lease, l.peer.conn, w.client.sequence).lease, env.leaving);
    } else {
      ReleaseKeeps(w, index, w.lease, env.leaving);
    }
  }

  lemma OwnLease(w: World, index: nat)
    requires Inv(w) && index < |w.links| && w.links[index].peer.open
    ensures w.links[index].peer.session ==> w.lease.owner == w.links[index].peer.conn
  {
    hide ClientOk, LedgerOk, LeaseOk, CurrentOk, ConnsOk, WireOk, ContentOk, ExposureOk, RepliesOk, Datas;
    assert LinkOk(w.links[index], w);
  }

  lemma ClosedOk(w: World, conn: nat, value: nat)
    requires LeaseOk(w.lease, w.links, w.client, w.ledger, w.epochs, w.rivals) && Close(w.lease, conn, value).ok
    ensures var closed := Close(w.lease, conn, value).lease;
            LeaseOk(closed, w.links, w.client, w.ledger, w.epochs, w.rivals) && closed.epoch == w.lease.epoch &&
              closed.owner == 0
  {
    hide Nonzero;
  }

  lemma ChatKeeps(w: World, index: nat, env: Env, kind: Byte)
    requires Inv(w) && AtFrame(w, index, kind) && !InputKind(kind)
    ensures Inv(Settled(w, index,
                        Serve.Serve(w.lease, w.links[index].peer, w.links[index].sent[w.links[index].done], env)))
  {
    hide ClientOk, LedgerOk, LeaseOk, CurrentOk, ConnsOk, LinkOk, Datas, Nonzero, NextFrame, Consumed, Inv, Settled,
         WireOk, ContentOk, ExposureOk, RepliesOk, SessionOk;
    var l := w.links[index];
    LeaseOf(w);
    if env.queued {
      InvParts(w);
      LeaseFactsOf(w);
      SettledQuietly(w, index, Serve.Served(w.lease, l.peer, 0, None, true));
      MovedParts(l, l.peer, w);
      RepliesMoved(l, l.peer, w);
      ChatSession(l, w);
      var after := w.(links := w.links[index := Moved(l, l.peer)]);
      LinkWhole(Moved(l, l.peer), after);
      OtherConns(w, index);
      assert Beside(w, after, index);
      LinkStep(w, after, index);
    } else {
      ReleaseKeeps(w, index, w.lease, env.leaving);
    }
  }

  lemma ChatSession(l: Link, w: World)
    requires LinkOk(l, w) && l.done < |l.sent| && l.sent[l.done].kind != MSG_INPUT_DATA
    ensures SessionOk(Moved(l, l.peer), w.lease, w.client.clientId)
  {
    hide Datas, Consumed, WireOk, ContentOk, ExposureOk, RepliesOk;
    DataAt(l.sent, l.done);
  }

  lemma HandleKeeps(w: World, index: nat, env: Env)
    requires Inv(w) && index < |w.links| && w.links[index].peer.open && NextFrame(w.links[index].pending).Ready?
    requires Unused(w, env.freshEpoch)
    ensures Inv(Handled(w, index, env))
  {
    ServedKeeps(w, index, env);
    hide Inv, NextFrame, Settled, Serve.Serve, PaneAfter, LogAfter;
    var r := Serve.Serve(w.lease, w.links[index].peer, NextFrame(w.links[index].pending).message, env);
    var settled := Settled(w, index, r);
    PaneIgnored(settled, Handled(w, index, env));
  }

  lemma ServedKeeps(w: World, index: nat, env: Env)
    requires Inv(w) && index < |w.links| && w.links[index].peer.open && NextFrame(w.links[index].pending).Ready?
    requires Unused(w, env.freshEpoch)
    ensures var r := Serve.Serve(w.lease, w.links[index].peer, NextFrame(w.links[index].pending).message, env);
            Inv(Settled(w, index, r))
  {
    hide Inv, NextFrame, Settled, WireOk, ContentOk, ExposureOk, RepliesOk, SessionOk, Serve.Serve, LinkOk;
    var l := w.links[index];
    InvParts(w);
    LinkParts(l, w);
    NextIsSent(l);
    var kind := l.sent[l.done].kind;
    assert AtFrame(w, index, kind);
    if kind == MSG_INPUT_OPEN {
      OpenSettled(w, index, env);
    } else if kind == MSG_INPUT_DATA {
      DataKeeps(w, index, env);
    } else if kind == MSG_INPUT_CLOSE {
      CloseKeeps(w, index, env);
    } else {
      ChatKeeps(w, index, env, kind);
    }
  }

  lemma DropKeeps(w: World, index: nat, now: nat)
    requires Inv(w) && Legal(w, Drop(index, now))
    ensures Inv(After(w, Drop(index, now)))
  {
    hide ClientOk, LedgerOk, LeaseOk, CurrentOk, ConnsOk, LinkOk, Inv, WireOk, ContentOk, ExposureOk, RepliesOk,
         SessionOk, Datas;
    var l := w.links[index];
    InvParts(w);
    LinkParts(l, w);
    ShutParts(l, w);
    LeaseOf(w);
    LeavingKeeps(w, index, w.lease, Shut(l), now);
  }

  // ---- other clients ------------------------------------------------------------------------------------------

  /** A call by a rival, or the clock, never touches this client's epoch. */
  lemma RivalLease(w: World, call: Call)
    requires Inv(w) && RivalCall(w, call)
    ensures var after := Rivaled(w, call);
            && LeaseOk(after.lease, w.links, after.client, after.ledger, after.epochs, after.rivals)
            && ConnsOk(w.links, after.rivals)
            && (forall i :: 0 <= i < |w.links| ==>
                  after.lease == w.lease ||
                  (w.lease.owner != w.links[i].peer.conn && after.lease.owner != w.links[i].peer.conn))
  {
    hide Nonzero, Inv, Open;
    OurOwner(w);
    LeaseOf(w);
    match call
    case CallOpen(request, owner, now, newEpoch, allowed, other) =>
      RivalOutcome(w.lease, request, owner, now, newEpoch, allowed, other);
      RivalOpened(w, request, owner, newEpoch, Open(w.lease, request, owner, now, newEpoch, allowed, other).lease);
    case _ =>
  }

  lemma OurOwner(w: World)
    requires Inv(w)
    ensures forall i :: 0 <= i < |w.links| ==> w.links[i].peer.conn != 0
    ensures forall i :: 0 <= i < |w.links| && w.lease.owner == w.links[i].peer.conn ==>
      w.lease.clientId == w.client.clientId && w.lease.retained
    ensures ConnsOk(w.links, w.rivals) && LedgerOk(w.ledger, w.epochs, w.client, w.submitted)
  {
    hide Nonzero, ClientOk, CurrentOk, WireOk, ContentOk, ExposureOk, RepliesOk, Datas, LedgerOk;
    forall i | 0 <= i < |w.links|
      ensures w.lease.owner == w.links[i].peer.conn ==> w.lease.clientId == w.client.clientId && w.lease.retained
    {
      assert LinkOk(w.links[i], w);
    }
  }

  /** What an OPEN can do to a lease at all. */
  lemma RivalOutcome(lease: Lease, request: OpenRequest, owner: nat, now: nat, newEpoch: Option<seq<Byte>>,
                     allowed: bool, other: bool)
    requires !lease.retained ==> lease.owner == 0
    ensures var after := Open(lease, request, owner, now, newEpoch, allowed, other).lease;
            || after == lease
            || (owner != 0 && lease.retained && request.clientId == lease.clientId &&
                after == lease.(owner := owner, expires := 0))
            || (owner != 0 && lease.owner == 0 && newEpoch.Some? && Nonzero(newEpoch.value) &&
                after == lease.(epoch := newEpoch.value, clientId := request.clientId, accepted := 0, retained := true,
                                owner := owner, expires := 0))
  {
    hide Nonzero;
  }

  lemma RivalOpened(w: World, request: OpenRequest, owner: nat, newEpoch: Option<seq<Byte>>, lease: Lease)
    requires LeaseOk(w.lease, w.links, w.client, w.ledger, w.epochs, w.rivals) &&
             LedgerOk(w.ledger, w.epochs, w.client, w.submitted)
    requires ConnsOk(w.links, w.rivals) && (forall i :: 0 <= i < |w.links| ==> w.links[i].peer.conn != 0)
    requires forall i :: 0 <= i < |w.links| && w.lease.owner == w.links[i].peer.conn ==>
               w.lease.clientId == w.client.clientId
    requires !IsConn(w.links, owner) && request.clientId != w.client.clientId && Unused(w, newEpoch)
    requires || lease == w.lease
             || (owner != 0 && w.lease.retained && request.clientId == w.lease.clientId &&
                 lease == w.lease.(owner := owner, expires := 0))
             || (owner != 0 && w.lease.owner == 0 && newEpoch.Some? && Nonzero(newEpoch.value) &&
                 lease ==
                   w.lease.(epoch := newEpoch.value, clientId := request.clientId, accepted := 0, retained := true,
                                   owner := owner, expires := 0))
    ensures var rivals := w.rivals + (if owner == 0 then {} else {owner});
            && LeaseOk(lease, w.links, w.client, w.ledger, w.epochs + {lease.epoch}, rivals) && ConnsOk(w.links, rivals)
    ensures forall i :: 0 <= i < |w.links| ==>
      lease == w.lease || (w.lease.owner != w.links[i].peer.conn && lease.owner != w.links[i].peer.conn)
  {
    hide Nonzero;
  }

  lemma RivalKeeps(w: World, call: Call)
    requires Inv(w) && RivalCall(w, call)
    ensures Inv(Rivaled(w, call))
  {
    hide ClientOk, LeaseOk, CurrentOk, ConnsOk, LinkOk, Applied, Nonzero;
    var after := Rivaled(w, call);
    InvParts(w);
    RivalLease(w, call);
    ServerLater(w, after);
    forall i | 0 <= i < |after.links| ensures LinkOk(after.links[i], after) {
      LinkRival(w.links[i], w, after);
    }
    ServerStep(w, after);
  }

  lemma LinkRival(l: Link, w: World, after: World)
    requires LinkOk(l, w) && Later(w, after)
    requires after.lease == w.lease || (w.lease.owner != l.peer.conn && after.lease.owner != l.peer.conn)
    ensures LinkOk(l, after)
  {
    hide WireOk, ContentOk, ExposureOk, RepliesOk, Later, Datas;
    LinkParts(l, w);
    LaterClient(w, after);
    LinkLater(l, w, after);
  }

  /** The invariant says nothing about the pane. */
  lemma PaneIgnored(w: World, after: World)
    requires Inv(w) && PaneMoves(w, after)
    ensures Inv(after)
  {
    hide ClientOk, LeaseOk, CurrentOk, ConnsOk, LedgerOk, LinkOk;
    forall i | 0 <= i < |after.links| ensures LinkOk(after.links[i], after) {
      LinkIgnoresPane(w.links[i], w, after);
    }
  }

  lemma LinkIgnoresPane(l: Link, w: World, after: World)
    requires LinkOk(l, w) && PaneMoves(w, after)
    ensures LinkOk(l, after)
  {
    hide WireOk, ContentOk, ExposureOk, RepliesOk, SessionOk;
  }

  lemma RivalTypedKeeps(w: World, owner: nat, sequence: nat, data: seq<Byte>)
    requires Inv(w) && RivalCall(w, CallCommit(owner, sequence))
    ensures Inv(RivalTyped(w, owner, sequence, data))
  {
    hide Inv, Admit, Rivaled, RivalCall;
    var after := RivalTyped(w, owner, sequence, data);
    RivalKeeps(w, CallCommit(owner, sequence));
    if Classify(w.lease, owner, sequence) == Expected && Admit(w.pane, data).1 == Taken {
      PaneIgnored(Rivaled(w, CallCommit(owner, sequence)), after);
    } else {
      PaneIgnored(w, after);
    }
  }
}
