/** That input gets through: from any state a run can reach, the steps that make
progress are there to be taken, and they end. */
module InputProgress {
  import opened Bytes
  import opened Frame
  import opened InputSession
  import opened InputWire
  import opened Outgoing
  import opened Attach
  import opened Serve
  import opened InputWorld
  import opened InputLinks
  import opened InputClientSteps
  import opened InputServerSteps
  import opened InputProtocol

  // ---- continuations ------------------------------------------------------------------

  ghost predicate LegalAll(w: World, events: seq<Event>)
    decreases |events|
  {
    events == [] || (Legal(w, events[0]) && LegalAll(After(w, events[0]), events[1..]))
  }

  ghost function AfterAll(w: World, events: seq<Event>): World
    requires LegalAll(w, events)
    decreases |events|
  {
    if events == [] then w else AfterAll(After(w, events[0]), events[1..])
  }

  lemma {:induction false} AllKeep(w: World, events: seq<Event>)
    requires Inv(w) && LegalAll(w, events)
    ensures Inv(AfterAll(w, events))
    decreases |events|
  {
    hide Inv, After, Legal;
    if events != [] {
      StepKeeps(w, events[0]);
      AllKeep(After(w, events[0]), events[1..]);
    }
  }

  lemma {:induction false} JoinRuns(w: World, first: seq<Event>, second: seq<Event>)
    requires LegalAll(w, first) && LegalAll(AfterAll(w, first), second)
    ensures LegalAll(w, first + second)
    ensures AfterAll(w, first + second) == AfterAll(AfterAll(w, first), second)
    decreases |first|
  {
    hide After, Legal;
    if first == [] {
      assert first + second == second;
    } else {
      assert (first + second)[1..] == first[1..] + second;
      JoinRuns(After(w, first[0]), first[1..], second);
    }
  }

  lemma FirstRun(w: World, event: Event, rest: seq<Event>)
    requires Legal(w, event) && LegalAll(After(w, event), rest)
    ensures LegalAll(w, [event] + rest) && AfterAll(w, [event] + rest) == AfterAll(After(w, event), rest)
  {
    hide After, Legal;
    assert ([event] + rest)[1..] == rest;
  }

  // ---- the client connects --------------------------------------------------------------

  lemma OpenSize(request: OpenRequest)
    requires |request.epoch| == 16 == |request.clientId|
    ensures |PutOpen(request)| <= 64
  {
  }

  lemma QueuedIs(q: Queue, message: Message)
    requires Carries(q, []) && !q.failed && |message.payload| <= 7 * 1024 * 1024
    ensures var after := Outgoing.Post(q, message);
            && !after.failed && after.offset <= |after.bytes| && Pending(after) <= |message.payload| + 6
            && after.queued <= |message.payload| + 6
  {
    RoomBelowSoftLimit(q, message);
    SizeAtMost(message);
    PostCarries(q, [], message);
    hide FrameBytes, Outgoing.Post;
    assert [] + FrameBytes(message) == FrameBytes(message);
  }

  /** A connection gets its greeting and its OPEN, unless the generations are used up
  or the client's queue has failed before. */
  lemma ConnectsIff(w: World, conn: nat, hello: Message)
    requires Inv(w) && Legal(w, Connect(conn, hello)) && |hello.payload| < 128 * 1024
    ensures var after := After(w, Connect(conn, hello));
            && (after.phase == Online <==> !w.client.out.failed && w.client.generation != TWO64 - 1)
            && (after.phase == Online ==>
                  && |after.links| == |w.links| + 1 && Last(after).peer == Peer(conn, true, false, [])
                  && Last(after).request == OpenRequest(w.client.epoch, w.client.clientId, w.client.acknowledged))
  {
    var c := w.client;
    InvParts(w);
    IdSizes(c, w.submitted);
    hide Inv, LinkOk, ClientOk, LedgerOk, CurrentOk, Outgoing.Post, FrameBytes, PutOpen, Legal, Carries;
    assert w.phase == Offline by { OfflineConnects(w, conn, hello); }
    if !c.out.failed {
      QueuedIs(c.out, hello);
      var request := OpenRequest(c.epoch, c.clientId, c.acknowledged);
      OpenSize(request);
      RoomBelowSoftLimit(Outgoing.Post(c.out, hello), Message(MSG_INPUT_OPEN, PutOpen(request)));
    } else {
      FailedStays(c.out, hello);
    }
  }

  lemma FailedStays(q: Queue, message: Message)
    requires q.failed
    ensures Outgoing.Post(q, message).failed
  {
  }

  lemma OfflineConnects(w: World, conn: nat, hello: Message)
    requires Legal(w, Connect(conn, hello))
    ensures w.phase == Offline
  {
  }

  lemma IdSizes(c: Client, submitted: seq<seq<Byte>>)
    requires ClientOk(c, submitted)
    ensures |c.epoch| == 16 == |c.clientId|
  {
  }

  // ---- the client replays and writes ------------------------------------------------------

  predicate Sends(event: Event) {
    event.Write? || event.Resume?
  }

  ghost predicate AllSend(events: seq<Event>) {
    forall k :: 0 <= k < |events| ==> Sends(events[k])
  }

  /** A client with a session, on a transport, whose queue works. */
  predicate Working(w: World) {
    w.phase == Online && w.client.ready && !w.client.out.failed && w.links != []
  }

  /** What the client's own sending leaves alone. */
  predicate SameServer(w: World, after: World) {
    && after.submitted == w.submitted && after.lease == w.lease && after.ledger == w.ledger && after.pane == w.pane
    && |after.links| == |w.links| && after.links != [] && w.links != []
    && Last(after).peer == Last(w).peer && Last(after).received == Last(w).received
    && Last(after).pending == Last(w).pending && Last(after).done == Last(w).done && Last(after).seen == Last(w).seen
  }

  lemma WriteIs(w: World, wrote: Wrote)
    requires Shaped(w) && w.phase == Online && w.links != []
    ensures var (after, s) := (After(w, Event.Write(wrote)), FlushOut(w.client, w.tls, wrote));
            s.ok ==> after.client == s.client && after.phase == Online && SameServer(w, after)
  {
    hide FlushOut, Carried, Reach;
  }

  lemma OfferedInRange(w: World)
    requires Inv(w)
    ensures w.client.out.offset + w.client.out.attempt <= |w.client.out.bytes|
  {
    hide LinkOk, LedgerOk, CurrentOk, LeaseOk, ConnsOk;
  }

  /** The whole of what is offered is taken. */
  lemma WriteGoesOn(w: World)
    requires Inv(w) && Working(w) && Pending(w.client.out) > 0 && w.client.out.offset <= |w.client.out.bytes|
    ensures Shaped(w)
    ensures var after := After(w, Event.Write(Took(Attempt(w.client.out))));
            && Working(after) && after.client.unsent == w.client.unsent
            && 0 <= Pending(after.client.out) < Pending(w.client.out)
            && SameServer(w, after)
  {
    InvShaped(w);
    OfferedInRange(w);
    hide Inv, After, SameServer, Emitted;
    var wrote := Took(Attempt(w.client.out));
    WriteIs(w, wrote);
    FlushTakes(w.client.out, w.tls, wrote);
  }

  lemma ResumeIs(w: World)
    requires Shaped(w) && w.phase == Online
    ensures var (after, s) := (After(w, Resume), Replay(w.client));
            if s.ok then
              && after.client == s.client && after.phase == Online && after.links != []
              && (w.links != [] ==> SameServer(w, after))
            else after.phase == Ended && after.client == s.client
  {
    hide Replay, ReplayMessages;
  }

  lemma ResumeGoesOn(w: World)
    requires Inv(w) && Working(w) && Pending(w.client.out) == 0 && w.client.unsent > 0
    ensures Shaped(w)
    ensures var after := After(w, Resume);
            if Replay(w.client).ok
            then Working(after) && after.client.unsent < w.client.unsent && 0 <= Pending(after.client.out) &&
                 SameServer(w, after)
            else after.phase == Ended && after.client.out.failed
  {
    hide Inv, Replay, After, SameServer;
    InvShaped(w);
    StepKeeps(w, Resume);
    ResumeIs(w);
    ReplayGoesOn(w.client);
    ReplayWorks(w.client);
    var after := After(w, Resume);
    if Replay(w.client).ok { InvShaped(after); }
  }

  lemma SameServerJoins(w: World, next: World, after: World)
    requires SameServer(w, next) && SameServer(next, after)
    ensures SameServer(w, after)
  {
  }

  /** From any online ready state, writing and replaying come to an end with nothing
  left to replay or to write, or with a queue that failed. */
  lemma {:induction false} ReplayFinishes(w: World) returns (events: seq<Event>)
    requires Inv(w) && Working(w)
    ensures AllSend(events) && LegalAll(w, events)
    ensures var after := AfterAll(w, events);
            || (after.phase == Ended && after.client.out.failed)
            || (Working(after) && after.client.unsent == 0 && Pending(after.client.out) == 0 && SameServer(w, after))
    decreases w.client.unsent, Pending(w.client.out)
  {
    hide Inv, After, SameServer;
    events := [];
    assert w.client.out.offset <= |w.client.out.bytes| by { InvShaped(w); }
    SameServerSelf(w);
    if Pending(w.client.out) > 0 {
      WriteGoesOn(w);
      var event := Event.Write(Took(Attempt(w.client.out)));
      events := Goes(w, event);
    } else if w.client.unsent > 0 {
      ResumeGoesOn(w);
      if Replay(w.client).ok {
        events := Goes(w, Resume);
      } else {
        events := [Resume];
        FirstRun(w, Resume, []);
      }
    }
  }

  lemma SameServerSelf(w: World)
    requires w.links != []
    ensures SameServer(w, w)
  {
  }

  lemma Goes(w: World, event: Event) returns (events: seq<Event>)
    requires Inv(w) && Working(w) && Sends(event) && Legal(w, event)
    requires var next := After(w, event);
             && Working(next) && SameServer(w, next) && 0 <= Pending(next.client.out)
             && (next.client.unsent < w.client.unsent ||
                 (next.client.unsent == w.client.unsent && Pending(next.client.out) < Pending(w.client.out)))
    ensures AllSend(events) && LegalAll(w, events)
    ensures var after := AfterAll(w, events);
            || (after.phase == Ended && after.client.out.failed)
            || (Working(after) && after.client.unsent == 0 && Pending(after.client.out) == 0 && SameServer(w, after))
    decreases w.client.unsent, Pending(w.client.out), 0
  {
    hide Inv, After, SameServer;
    StepKeeps(w, event);
    var rest := ReplayFinishes(After(w, event));
    events := [event] + rest;
    FirstRun(w, event, rest);
    var after := AfterAll(w, events);
    if after.phase != Ended { SameServerJoins(w, After(w, event), after); }
  }

  // ---- the server receives and handles ---------------------------------------------------

  /** All that was typed is on its way over a connection the server still has. */
  ghost predicate Receiving(w: World) {
    && Inv(w) && Working(w) && w.client.unsent == 0 && Pending(w.client.out) == 0
    && Last(w).peer.open && w.pane.offset <= |w.pane.bytes|
  }

  /** A server that has room, writes and can answer. */
  const READY_ENV := Env(0, 0, 0, true, true, false, None, Taken, true, true)

  lemma SessionFrame(w: World)
    requires Receiving(w) && NextFrame(Last(w).pending).Ready?
    ensures Last(w).done < |Last(w).sent| && NextFrame(Last(w).pending).message == Last(w).sent[Last(w).done]
    ensures NextFrame(Last(w).pending).message.kind != MSG_INPUT_OPEN
    ensures NextFrame(Last(w).pending).message.kind != MSG_INPUT_CLOSE
  {
    hide NextFrame, Datas, DataEnd, StreamBytes, LeaseOk, ConnsOk, LedgerOk, ClientOk, ExposureOk, SessionOk, RequestOk,
         PayloadsOk, WireOk, Stamps;
    InvParts(w);
    LinkParts(Last(w), w);
    NextIsSent(Last(w));
  }

  /** Such a server keeps the connection over whatever this client's session sends. */
  lemma KeptOpen(w: World)
    requires Receiving(w) && NextFrame(Last(w).pending).Ready?
    ensures var r := Serve.Serve(w.lease, Last(w).peer, NextFrame(Last(w).pending).message, READY_ENV);
            && r.handled && r.peer.open && r.fenced == 0
            && (r.admitted.Some? ==> NextFrame(Last(w).pending).message.kind == MSG_INPUT_DATA)
  {
    SessionFrame(w);
    hide Inv, NextFrame, ReadData, LeaseOk, ConnsOk;
    var index := |w.links| - 1;
    if NextFrame(Last(w).pending).message.kind == MSG_INPUT_DATA {
      assert AtFrame(w, index, MSG_INPUT_DATA);
      HonestDataServed(w, index, READY_ENV);
      DataFencesNobody(w.lease, Last(w).peer, NextFrame(Last(w).pending).message, READY_ENV);
    }
  }

  lemma DataFencesNobody(lease: Lease, peer: Peer, message: Message, env: Env)
    requires message.kind == MSG_INPUT_DATA
    ensures Serve.Serve(lease, peer, message, env).fenced == 0
  {
    hide ReadData, Classify, Commit, Disconnect;
  }

  predicate HasRoomFor(w: World, message: Message) {
    message.kind == MSG_INPUT_DATA && ReadData(message.payload).Some? ==>
      Admit(w.pane, ReadData(message.payload).value.data).1 == Taken
  }

  /** What handling leaves alone. */
  predicate SameClient(w: World, after: World) {
    && after.client == w.client && after.phase == w.phase && after.submitted == w.submitted
    && |after.links| == |w.links| && w.links != [] && after.links != []
    && Last(after).received == Last(w).received && Last(after).wire == Last(w).wire
  }

  /** What handling a frame that is kept does to the connection. */
  lemma HandledIs(w: World, env: Env)
    requires w.links != [] && Legal(w, Handle(|w.links| - 1, env))
    requires var r := Serve.Serve(w.lease, Last(w).peer, NextFrame(Last(w).pending).message, env);
             r.handled && r.peer.open && r.fenced == 0
    ensures var r := Serve.Serve(w.lease, Last(w).peer, NextFrame(Last(w).pending).message, env);
            var after := After(w, Handle(|w.links| - 1, env));
            && SameClient(w, after) && after.pane == PaneAfter(w.pane, r)
            && Last(after).peer == r.peer && Last(after).pending == Consumed(Last(w).pending)
  {
    hide Serve.Serve, NextFrame, Consumed, PaneAfter, LogAfter, ReadData, Admit;
  }

  lemma HandleLegal(w: World)
    requires Receiving(w) && NextFrame(Last(w).pending).Ready?
    requires HasRoomFor(w, NextFrame(Last(w).pending).message)
    ensures Legal(w, Handle(|w.links| - 1, READY_ENV))
  {
    InvShaped(w);
    hide Inv, NextFrame, ReadData, Admit;
  }

  lemma StillReceiving(w: World, after: World)
    requires Receiving(w) && Inv(after) && SameClient(w, after)
    requires Last(after).peer.open && after.pane.offset <= |after.pane.bytes|
    ensures Receiving(after)
  {
    hide Inv;
  }

  lemma HandleGoesOn(w: World)
    requires Receiving(w) && NextFrame(Last(w).pending).Ready?
    requires HasRoomFor(w, NextFrame(Last(w).pending).message)
    ensures Legal(w, Handle(|w.links| - 1, READY_ENV))
    ensures var after := After(w, Handle(|w.links| - 1, READY_ENV));
            Receiving(after) && SameClient(w, after) && |Last(after).pending| < |Last(w).pending|
  {
    hide Inv, NextFrame, Consumed, Serve.Serve, Legal, After, HasRoomFor, SameClient, PaneAfter;
    KeptOpen(w);
    HandleLegal(w);
    HandledIs(w, READY_ENV);
    ConsumeShrinks(Last(w).pending);
    StepKeeps(w, Handle(|w.links| - 1, READY_ENV));
    PaneInRange(w.pane, Serve.Serve(w.lease, Last(w).peer, NextFrame(Last(w).pending).message, READY_ENV));
    StillReceiving(w, After(w, Handle(|w.links| - 1, READY_ENV)));
  }

  lemma PaneInRange(pane: Fifo, r: Served)
    requires pane.offset <= |pane.bytes|
    ensures PaneAfter(pane, r).offset <= |PaneAfter(pane, r).bytes|
  {
    if r.admitted.Some? { AdmitWaiting(pane, r.admitted.value); }
  }

  lemma DrainedIs(w: World, writes: seq<PtyWrite>)
    requires w.links != [] && Shaped(w) && w.pane.offset <= |w.pane.bytes|
    ensures Legal(w, DrainPane(writes))
    ensures var after := After(w, DrainPane(writes));
            SameClient(w, after) && Last(after) == Last(w) && after.pane == FlushPty(w.pane, writes).fifo
  {
    hide FlushPty;
  }

  /** The pty takes all that waits. */
  lemma DrainGoesOn(w: World)
    requires Receiving(w) && Waiting(w.pane) != []
    ensures var event := DrainPane([PtyTook(|Waiting(w.pane)|)]);
            && Legal(w, event)
            && var after := After(w, event);
               Receiving(after) && SameClient(w, after) && Waiting(after.pane) == [] &&
               Last(after).pending == Last(w).pending
  {
    hide Inv, FlushPty, Legal, After, SameClient;
    var writes := [PtyTook(|Waiting(w.pane)|)];
    InvShaped(w);
    DrainedIs(w, writes);
    StepKeeps(w, DrainPane(writes));
    FlushTakesFront(w.pane, writes);
    FlushTakesAll(w.pane, writes);
    AppetiteOf(|Waiting(w.pane)|);
    StillReceiving(w, After(w, DrainPane(writes)));
  }

  lemma AppetiteOf(count: nat)
    ensures Appetite([PtyTook(count)]) == count
  {
  }

  lemma EmptyHasRoom(w: World, message: Message)
    requires w.pane.offset <= |w.pane.bytes| && Waiting(w.pane) == []
    ensures HasRoomFor(w, message)
  {
    hide ReadData;
    if message.kind == MSG_INPUT_DATA && ReadData(message.payload).Some? {
      AdmitIff(w.pane, ReadData(message.payload).value.data);
    }
  }

  lemma SameClientJoins(w: World, next: World, after: World)
    requires SameClient(w, next) && SameClient(next, after)
    ensures SameClient(w, after)
  {
  }

  lemma SameClientSelf(w: World)
    requires w.links != []
    ensures SameClient(w, w)
  {
  }

  /** The server handles frame after frame until no whole one is left. */
  lemma {:induction false} HandlesAll(w: World) returns (events: seq<Event>)
    requires Receiving(w)
    ensures LegalAll(w, events)
    ensures var after := AfterAll(w, events);
            Receiving(after) && SameClient(w, after) && !NextFrame(Last(after).pending).Ready?
    decreases |Last(w).pending|, if w.pane.offset <= |w.pane.bytes| then |Waiting(w.pane)| else 0
  {
    hide Inv, After, Legal, SameClient, NextFrame, HasRoomFor, Waiting;
    events := [];
    SameClientSelf(w);
    if NextFrame(Last(w).pending).Ready? {
      var event;
      if Waiting(w.pane) != [] {
        DrainGoesOn(w);
        event := DrainPane([PtyTook(|Waiting(w.pane)|)]);
      } else {
        EmptyHasRoom(w, NextFrame(Last(w).pending).message);
        HandleGoesOn(w);
        event := Handle(|w.links| - 1, READY_ENV);
      }
      var rest := HandlesAll(After(w, event));
      events := [event] + rest;
      FirstRun(w, event, rest);
      SameClientJoins(w, After(w, event), AfterAll(w, events));
    }
  }

  /** A stream of whole frames never makes the reader fail. */
  lemma NeverFails(w: World)
    requires Receiving(w) && !NextFrame(Last(w).pending).Ready?
    ensures NextFrame(Last(w).pending) == Wait
  {
    hide ContentOk, ExposureOk, RepliesOk, SessionOk, LeaseOk, ConnsOk, LedgerOk, ClientOk, CurrentOk, StreamBytes,
         NextFrame, FrameBytes;
    var l := Last(w);
    InvParts(w);
    LinkParts(l, w);
    var rest, start := l.sent[l.done..], |StreamBytes(l.sent[..l.done])|;
    var cut := l.received - start;
    StreamUpTo(l.sent, l.done);
    assert l.pending == StreamBytes(rest)[..cut];
    if rest == [] {
      NothingWaits(l.pending);
    } else {
      FirstFrame(rest, cut);
      if cut < |FrameBytes(rest[0])| { NextCut(l.pending, rest[0]); } else { NextWhole(l.pending, rest[0]); }
    }
  }

  lemma NothingWaits(pending: seq<Byte>)
    requires |pending| <= |StreamBytes([])|
    ensures NextFrame(pending) == Wait
  {
  }

  // ---- the client hears the answers -------------------------------------------------------------

  /** Everything was handled. */
  ghost predicate Answered(w: World) {
    Receiving(w) && Last(w).received == |Last(w).wire| && NextFrame(Last(w).pending) == Wait
  }

  lemma HeardIs(w: World)
    requires Shaped(w) && w.phase == Online && Last(w).seen < |Last(w).peer.replies|
    requires w.links != [] && Last(w).peer.replies[Last(w).seen].AckReply? && w.client.ready
    requires Acknowledge(w.client, Last(w).peer.replies[Last(w).seen].accepted).ok
    ensures Legal(w, Hear([]))
    ensures var (after, accepted) := (After(w, Hear([])), Last(w).peer.replies[Last(w).seen].accepted);
            && after == w.(client := Acknowledge(w.client, accepted).client, links := after.links)
            && after.links != [] && Last(after) == Last(w).(seen := Last(w).seen + 1)
  {
    hide Acknowledge;
  }

  lemma HearGoesOn(w: World)
    requires Answered(w) && Last(w).seen < |Last(w).peer.replies|
    ensures Legal(w, Hear([]))
    ensures var after := After(w, Hear([]));
            && Answered(after) && after.submitted == w.submitted && after.lease == w.lease && after.ledger == w.ledger
            && Last(after).peer == Last(w).peer && Last(after).seen == Last(w).seen + 1
            && after.client.epoch == w.client.epoch
  {
    hide Inv, NextFrame, CurrentOk, LinkOk, LedgerOk, ClientOk, Acknowledge, Legal, After;
    InvShaped(w);
    ReadyHearsAcks(w);
    ReplyInRange(w);
    InvParts(w);
    AcknowledgeShape(w.client, Last(w).peer.replies[Last(w).seen].accepted, w.submitted);
    HeardIs(w);
    StepKeeps(w, Hear([]));
  }

  lemma ReadyHearsAcks(w: World)
    requires Answered(w) && Last(w).seen < |Last(w).peer.replies|
    ensures Last(w).peer.replies[Last(w).seen].AckReply?
  {
    hide NextFrame, WireOk, ContentOk, ExposureOk, SessionOk, LeaseOk, ConnsOk, LedgerOk, ClientOk, Stamps, StreamBytes,
         Datas;
    InvParts(w);
    LinkParts(Last(w), w);
  }

  lemma {:induction false} HearsAll(w: World) returns (events: seq<Event>)
    requires Answered(w)
    ensures LegalAll(w, events)
    ensures var after := AfterAll(w, events);
            && Answered(after) && after.submitted == w.submitted && after.lease == w.lease && after.ledger == w.ledger
            && after.client.epoch == w.client.epoch && Last(after).seen == |Last(after).peer.replies|
    decreases |Last(w).peer.replies| - Last(w).seen
  {
    hide Inv, After, Legal, Answered;
    events := [];
    SeenInRange(w);
    if Last(w).seen < |Last(w).peer.replies| {
      HearGoesOn(w);
      var rest := HearsAll(After(w, Hear([])));
      events := [Hear([])] + rest;
      FirstRun(w, Hear([]), rest);
    }
  }

  lemma SeenInRange(w: World)
    requires Answered(w)
    ensures w.links != [] && Last(w).seen <= |Last(w).peer.replies|
  {
    hide NextFrame, WireOk, ContentOk, ExposureOk, SessionOk, LeaseOk, ConnsOk, LedgerOk, ClientOk, CurrentOk;
    InvParts(w);
    LinkParts(Last(w), w);
  }

  // ---- all of it -----------------------------------------------------------------------------------

  lemma ArrivedIs(w: World)
    requires Shaped(w) && w.links != [] && Last(w).received <= |Last(w).wire|
    ensures var event := Arrive(|w.links| - 1, |Last(w).wire| - Last(w).received);
            && Legal(w, event)
            && var after := After(w, event);
               && after == w.(links := after.links) && after.links != []
               && Last(after) == Last(w).(received := |Last(w).wire|, pending := Last(after).pending)
  {
  }

  lemma ReceivedInRange(w: World)
    requires Inv(w) && w.links != []
    ensures Last(w).received <= |Last(w).wire|
  {
    hide ContentOk, ExposureOk, RepliesOk, SessionOk, LeaseOk, ConnsOk, LedgerOk, ClientOk, CurrentOk, StreamBytes;
    InvParts(w);
    LinkParts(Last(w), w);
  }

  lemma ArriveGoesOn(w: World)
    requires Receiving(w)
    ensures var event := Arrive(|w.links| - 1, |Last(w).wire| - Last(w).received);
            && Last(w).received <= |Last(w).wire| && Legal(w, event)
            && var after := After(w, event);
               Receiving(after) && Last(after).received == |Last(after).wire| && after.submitted == w.submitted
  {
    hide Inv, Legal, After;
    InvShaped(w);
    ReceivedInRange(w);
    ArrivedIs(w);
    StepKeeps(w, Arrive(|w.links| - 1, |Last(w).wire| - Last(w).received));
  }

  /** Nothing keeps typed input from arriving: from any online ready state whose
  connection the server has, there are steps after which everything typed was
  admitted once and in order, was counted and acknowledged, and the journal is
  empty - unless the client's queue fails on the way. */
  lemma EverythingGetsThrough(w: World) returns (events: seq<Event>)
    requires Inv(w) && Working(w) && Last(w).peer.open && w.pane.offset <= |w.pane.bytes|
    ensures LegalAll(w, events)
    ensures var (after, c) := (AfterAll(w, events), AfterAll(w, events).client);
            || (after.phase == Ended && c.out.failed)
            || (&& after.submitted == w.submitted && c.journal == [] && c.sequence == |w.submitted|
                && c.epoch in after.ledger && after.ledger[c.epoch] == w.submitted
                && after.lease.accepted == |w.submitted|)
  {
    hide After, Legal, NextFrame;
    events := ReplayFinishes(w);
    AllKeep(w, events);
    var sent := AfterAll(w, events);
    if sent.phase != Ended {
      hide Inv;
      ArriveGoesOn(sent);
      var arrive := Arrive(|sent.links| - 1, |Last(sent).wire| - Last(sent).received);
      var arrived := After(sent, arrive);
      var handles := HandlesAll(arrived);
      var handled := AfterAll(arrived, handles);
      NeverFails(handled);
      var hears := HearsAll(handled);
      var heard := AfterAll(handled, hears);
      JoinRuns(arrived, handles, hears);
      FirstRun(sent, arrive, handles + hears);
      JoinRuns(w, events, [arrive] + (handles + hears));
      events := events + ([arrive] + (handles + hears));
      ArrivesWhole(heard);
      AllTyped(heard);
    }
  }

  lemma AllTyped(w: World)
    requires Inv(w)
    ensures w.client.sequence == |w.submitted|
  {
    InvParts(w);
  }
}
