/** The acknowledged-input protocol as one state machine: a client, the server's
lease, and every transport the client ever opened, each delivering any prefix of
the bytes it was given. */
module InputWorld {
  import opened Bytes
  import opened Frame
  import opened InputSession
  import opened InputWire
  import opened Outgoing
  import opened Attach
  import opened Serve

  /** One transport. `wire` is what may still reach the server, `pending` the
  server's undecoded bytes; `request`, `sent` and `done` are history: the OPEN the
  client asked with, every frame queued, and how many of them were handled.
  `seen` counts the replies the client has handled. */
  datatype Link = Link(peer: Peer, request: OpenRequest, sent: seq<Message>, wire: seq<Byte>,
                       received: nat, pending: seq<Byte>, done: nat, seen: nat)

  datatype Phase = Offline | Online | Closing | Ended

  /** History: `submitted` is every payload typed, `ledger` the payloads admitted
  to the pane in each epoch granted to this client, `epochs` every epoch ever
  used, `rivals` the connections of other clients, `log` everything the pane's
  queue admitted, from anyone, and `written` the bytes its pty took. `mute` says
  that an answer of the terminal was lost and no more will be queued. */
  datatype World = World(client: Client, phase: Phase, tls: bool, links: seq<Link>, lease: Lease,
                         submitted: seq<seq<Byte>>, ledger: map<seq<Byte>, seq<seq<Byte>>>,
                         epochs: set<seq<Byte>>, rivals: set<nat>,
                         pane: Fifo, log: seq<Admitted>, written: seq<Byte>, mute: bool)

  /** What the pane's queue admitted: a payload counted in an epoch, keys of a
  controller without a lease, or the terminal's answer to a query. */
  datatype Admitted =
    | Counted(epoch: seq<Byte>, data: seq<Byte>)
    | Plain(data: seq<Byte>)
    | Answered(data: seq<Byte>)

  datatype Event =
    | Connect(conn: nat, hello: Message)
    | Cut
    | Type(data: seq<Byte>)
    | Resume
    | Post(message: Message)
    | Write(wrote: Wrote)
    | Hear(size: seq<Byte>)
    | Quit
    | Arrive(link: nat, count: nat)
    | Handle(link: nat, env: Env)
    | Drop(link: nat, now: nat)
    | Other(call: Call)
    | RivalData(owner: nat, sequence: nat, data: seq<Byte>)
    | PlainInput(data: seq<Byte>, writes: seq<PtyWrite>)
    | TerminalReply(data: seq<Byte>, writes: seq<PtyWrite>)
    | DrainPane(writes: seq<PtyWrite>)

  ghost predicate Initial(w: World) {
    && w.client == InitialClient(w.client.clientId)
    && |w.client.clientId| == TOKEN_SIZE && Nonzero(w.client.clientId)
    && w.phase == Offline && w.links == [] && w.submitted == [] && w.ledger == map[]
    && w.lease == InitialLease(w.lease.epoch, w.lease.graceMs)
    && Nonzero(w.lease.epoch) && |w.lease.epoch| == TOKEN_SIZE
    && w.epochs == {w.lease.epoch} && w.rivals == {}
    && w.pane == Fifo([], 0) && w.log == [] && w.written == [] && !w.mute
  }

  predicate InputKind(kind: Byte) {
    kind == MSG_INPUT_OPEN || kind == MSG_INPUT_DATA || kind == MSG_INPUT_CLOSE
  }

  predicate IsConn(links: seq<Link>, conn: nat) {
    exists i :: 0 <= i < |links| && links[i].peer.conn == conn
  }

  /** Sixteen random bytes that no epoch used before. */
  predicate Unused(w: World, epoch: Option<seq<Byte>>) {
    epoch.Some? ==> epoch.value !in w.epochs && |epoch.value| == TOKEN_SIZE
  }

  /** Indices in range, as every queue and journal keeps them. */
  predicate Shaped(w: World) {
    && w.client.out.offset <= |w.client.out.bytes| && w.client.out.offset + w.client.out.attempt <= |w.client.out.bytes|
    && w.client.unsent <= |w.client.journal|
    && (w.phase == Online || w.phase == Closing ==> w.links != [] && w.client.out.written <= |Last(w).wire|)
  }

  predicate Legal(w: World, event: Event) {
    && Shaped(w)
    && match event
       case Connect(conn, hello) =>
         w.phase == Offline && conn != 0 && !IsConn(w.links, conn) && conn !in w.rivals && !InputKind(hello.kind)
       case Write(_) => w.phase == Online || w.phase == Closing
       case Post(message) => w.phase == Online && !InputKind(message.kind)
       case Hear(_) => w.phase == Online && Last(w).seen < |Last(w).peer.replies|
       case Arrive(link, count) => link < |w.links| && w.links[link].received + count <= |w.links[link].wire|
       case Handle(link, env) =>
         && link < |w.links| && w.links[link].peer.open && NextFrame(w.links[link].pending).Ready?
         && Unused(w, env.freshEpoch) && RoomIs(w.pane, NextFrame(w.links[link].pending).message, env.admission)
       case Drop(link, _) => link < |w.links|
       case Other(call) => RivalCall(w, call) && !call.CallCommit?
       case RivalData(owner, sequence, _) => RivalCall(w, CallCommit(owner, sequence))
       case PlainInput(_, _) => !w.lease.retained && w.pane.offset <= |w.pane.bytes|
       case TerminalReply(_, _) => w.pane.offset <= |w.pane.bytes|
       case DrainPane(_) => w.pane.offset <= |w.pane.bytes|
       case _ => w.phase == Online
  }

  /** A live pane takes or refuses the payload as its queue is. */
  predicate RoomIs(pane: Fifo, message: Message, admission: Admission) {
    message.kind == MSG_INPUT_DATA && ReadData(message.payload).Some? && admission != Refused ==>
      admission == Admit(pane, ReadData(message.payload).value.data).1
  }

  predicate RivalCall(w: World, call: Call) {
    match call
    case CallOpen(request, owner, _, newEpoch, _, _) =>
      !IsConn(w.links, owner) && request.clientId != w.client.clientId && Unused(w, newEpoch)
    case CallDisconnect(owner, _) => !IsConn(w.links, owner)
    case CallCommit(owner, _) => !IsConn(w.links, owner)
    case CallClose(owner, _) => !IsConn(w.links, owner)
    case CallExpire(_) => true
  }

  // ---- one step ----------------------------------------------------------------------------

  /** Nothing the pane or the log of epochs knows about happened. */
  predicate SamePane(w: World, after: World) {
    after.pane == w.pane && after.log == w.log && after.written == w.written && after.epochs == w.epochs
  }

  /** Nothing but the pane's queue and its history moved. */
  predicate PaneMoves(w: World, after: World) {
    after == w.(pane := after.pane, log := after.log, written := after.written, mute := after.mute)
  }

  function Last(w: World): Link
    requires w.phase == Online || w.phase == Closing ==> w.links != []
  {
    if w.links == [] then Link(Peer(0, false, false, []), OpenRequest([], [], 0), [], [], 0, [], 0, 0)
    else w.links[|w.links| - 1]
  }

  function WithLast(w: World, link: Link): World
    requires w.links != []
  {
    w.(links := w.links[|w.links| - 1 := link])
  }

  /** The client moved on and queued `messages` on its current transport. */
  function Queued(w: World, client: Client, messages: seq<Message>): World
    requires w.links != []
  {
    WithLast(w, Last(w).(sent := Last(w).sent + messages)).(client := client)
  }

  /** Any failed send ends the client. */
  function Ending(w: World, client: Client): World {
    w.(client := client, phase := Ended)
  }

  /** What Replay queues. */
  function ReplayMessages(c: Client): seq<Message>
    requires c.unsent <= |c.journal|
    decreases c.unsent
  {
    if !c.ready || c.unsent == 0 || Pending(c.out) >= SOFT_LIMIT then []
    else
      var index := |c.journal| - c.unsent;
      var posted := PostTo(c, DataMessage(c.journal[index]));
      if !posted.ok then []
      else [DataMessage(c.journal[index])] + ReplayMessages(Stamped(posted.client, index).(unsent := c.unsent - 1))
  }

  function Connected(w: World, conn: nat, hello: Message): (after: World)
    ensures after.ledger == w.ledger && after.submitted == w.submitted && SamePane(w, after)
  {
    var c := w.client;
    var greeted := PostTo(c, hello);
    var asked := OpenSession(greeted.client);
    if !greeted.ok || !asked.ok then Ending(w, if greeted.ok then asked.client else greeted.client)
    else
      var request := OpenRequest(c.epoch, c.clientId, c.acknowledged);
      var opening := [hello, Message(MSG_INPUT_OPEN, PutOpen(request))];
      var link := Link(Peer(conn, true, false, []), request, opening, [], 0, [], 0, 0);
      w.(client := asked.client, phase := Online, links := w.links + [link])
  }

  function Typed(w: World, data: seq<Byte>): (after: World)
    requires w.links != []
    ensures after.ledger == w.ledger && w.submitted <= after.submitted && SamePane(w, after)
  {
    var s := SendInput(w.client, data);
    var kept := w.(submitted := if s.client.sequence > w.client.sequence then w.submitted + [data] else w.submitted);
    if !s.ok then Ending(kept, s.client)
    else if data == [] then w
    else Queued(kept, s.client, [DataMessage(Entry(w.client.sequence + 1, 0, 0, data))])
  }

  /** How far the transport may have carried the stream once this write returns:
  all that was offered under TLS, what was taken otherwise. */
  function Reach(c: Client, tls: bool, wrote: Wrote): nat
    requires c.out.offset <= |c.out.bytes|
  {
    if Pending(c.out) == 0 then c.out.written
    else if tls then c.out.written + Attempt(c.out)
    else Flush(c.out, tls, wrote).0.written
  }

  function Carried(wire: seq<Byte>, q: Queue, reach: nat): seq<Byte>
    requires q.offset <= |q.bytes| && q.offset + Attempt(q) <= |q.bytes| && q.written <= |wire|
  {
    if reach <= |wire| || reach > q.written + Attempt(q) then wire
    else wire[..q.written] + Offered(q)[..reach - q.written]
  }

  function Written(w: World, wrote: Wrote): (after: World)
    requires Shaped(w) && (w.phase == Online || w.phase == Closing)
    ensures after.ledger == w.ledger && after.submitted == w.submitted && SamePane(w, after)
  {
    var s := FlushOut(w.client, w.tls, wrote);
    var moved := WithLast(w, Last(w).(wire := Carried(Last(w).wire, w.client.out, Reach(w.client, w.tls, wrote))));
    if s.ok then moved.(client := s.client)
    else if w.phase == Online then moved.(client := Lose(s.client), phase := Offline)
    else Ending(moved, s.client)
  }

  function Heard(w: World, size: seq<Byte>): (after: World)
    requires Shaped(w) && w.phase == Online && Last(w).seen < |Last(w).peer.replies|
    ensures after.ledger == w.ledger && after.submitted == w.submitted && SamePane(w, after)
  {
    var c, link := w.client, Last(w);
    var moved := WithLast(w, link.(seen := link.seen + 1));
    match link.peer.replies[link.seen]
    case AckReply(accepted) =>
      var s := HandleAck(c, accepted);
      if s.ok then moved.(client := s.client) else Ending(w, s.client)
    case StateReply(state) =>
      var s := HandleState(c, state, size);
      if !s.ok then Ending(w, s.client)
      else Queued(moved, s.client, [Message(MSG_RESIZE, size)] + ReplayMessages(Selecting(c, state, size)))
  }

  /** The client between selecting an epoch and replaying into it. */
  function Selecting(c: Client, state: State, size: seq<Byte>): (selected: Client)
    ensures selected.unsent <= |selected.journal|
  {
    var acked := Acknowledge(c, state.accepted).client;
    PostTo(acked.(epoch := state.epoch, identified := true, ready := true, unsent := |acked.journal|),
           Message(MSG_RESIZE, size)).client
  }

  function Quitted(w: World): (after: World)
    requires w.links != []
    ensures after.ledger == w.ledger && after.submitted == w.submitted && SamePane(w, after)
  {
    var client := CloseSession(w.client);
    if client.out.failed then Ending(w, client)
    else if client == w.client then w.(phase := Closing)
    else Queued(w, client, [Message(MSG_INPUT_CLOSE, PutAck(w.client.acknowledged))]).(phase := Closing)
  }

  /** The connection a takeover fences is released at once. */
  function Fenced(links: seq<Link>, conn: nat): (fenced: seq<Link>)
    ensures |fenced| == |links|
    ensures forall i :: 0 <= i < |links| ==>
      fenced[i] == if conn != 0 && links[i].peer.conn == conn then links[i].(peer := links[i].peer.(open := false))
        else links[i]
  {
    seq(|links|, i requires 0 <= i < |links| =>
      if conn != 0 && links[i].peer.conn == conn then links[i].(peer := links[i].peer.(open := false)) else links[i])
  }

  /** The world once a frame on link `index` was served with outcome `r`. */
  function Settled(w: World, index: nat, r: Served): World
    requires index < |w.links|
  {
    var link := w.links[index];
    if !r.handled then w
    else
      var ledger :=
        if r.lease.epoch != w.lease.epoch then w.ledger[r.lease.epoch := []]
        else if r.admitted.Some? && r.lease.epoch in w.ledger then
          w.ledger[r.lease.epoch := w.ledger[r.lease.epoch] + [r.admitted.value]]
        else w.ledger;
      w.(lease := r.lease, ledger := ledger, epochs := w.epochs + {r.lease.epoch},
         links := Fenced(w.links, r.fenced)[index :=
                    link.(peer := r.peer, pending := Consumed(link.pending), done := link.done + 1)])
  }

  function Handled(w: World, index: nat, env: Env): World
    requires index < |w.links| && NextFrame(w.links[index].pending).Ready?
  {
    var r := Serve.Serve(w.lease, w.links[index].peer, NextFrame(w.links[index].pending).message, env);
    Settled(w, index, r).(pane := PaneAfter(w.pane, r), log := LogAfter(w.log, r))
  }

  /** A payload that found no room has compacted the queue all the same. */
  function PaneAfter(pane: Fifo, r: Served): Fifo {
    if r.admitted.Some? then Admit(pane, r.admitted.value).0
    else if !r.handled then CompactFifo(pane)
    else pane
  }

  function LogAfter(log: seq<Admitted>, r: Served): seq<Admitted> {
    if r.admitted.Some? then log + [Counted(r.lease.epoch, r.admitted.value)] else log
  }

  function Rivaled(w: World, call: Call): World {
    var lease := Applied(w.lease, call);
    w.(lease := lease, epochs := w.epochs + {lease.epoch}, rivals := w.rivals + RivalOf(call))
  }

  /** Another client's DATA frame: admitted if it is that client's turn and there
  is room. */
  function RivalTyped(w: World, owner: nat, sequence: nat, data: seq<Byte>): World {
    if Classify(w.lease, owner, sequence) != Expected then w
    else
      var (pane, admission) := Admit(w.pane, data);
      if admission != Taken then w.(pane := pane)
      else Rivaled(w, CallCommit(owner, sequence)).(pane := pane, log := w.log + [Counted(w.lease.epoch, data)])
  }

  function PaneDrained(w: World, writes: seq<PtyWrite>): World
    requires w.pane.offset <= |w.pane.bytes|
  {
    var flushed := FlushPty(w.pane, writes);
    w.(pane := flushed.fifo, written := w.written + flushed.taken)
  }

  /** An INPUT frame of a controller while there is no lease; one that finds no room
  waits for a retry. */
  function PlainTyped(w: World, data: seq<Byte>, writes: seq<PtyWrite>): World
    requires w.pane.offset <= |w.pane.bytes|
  {
    var (pane, admission) := Admit(w.pane, data);
    if admission != Taken then w.(pane := pane)
    else PaneDrained(w.(pane := pane, log := w.log + [Plain(data)]), writes)
  }

  function TerminalAnswered(w: World, data: seq<Byte>, writes: seq<PtyWrite>): World
    requires w.pane.offset <= |w.pane.bytes|
  {
    if w.mute then w
    else
      var (pane, ok) := Answer(w.pane, data);
      if !ok then w.(pane := pane, mute := true)
      else PaneDrained(w.(pane := pane, log := w.log + [Answered(data)], mute := !FlushPty(pane, writes).ok), writes)
  }

  function RivalOf(call: Call): set<nat> {
    match call
    case CallOpen(_, owner, _, _, _, _) => if owner == 0 then {} else {owner}
    case _ => {}
  }

  ghost function After(w: World, event: Event): World
    requires Legal(w, event)
  {
    match event
    case Connect(conn, hello) => Connected(w, conn, hello)
    case Cut => w.(client := Lose(w.client), phase := Offline)
    case Type(data) => Typed(w, data)
    case Resume =>
      var s := Replay(w.client);
      if s.ok then Queued(w, s.client, ReplayMessages(w.client)) else Ending(w, s.client)
    case Post(message) =>
      var s := PostTo(w.client, message);
      if s.ok then Queued(w, s.client, [message]) else Ending(w, s.client)
    case Write(wrote) => Written(w, wrote)
    case Hear(size) => Heard(w, size)
    case Quit => Quitted(w)
    case Arrive(link, count) =>
      var l := w.links[link];
      w.(links := w.links[link := l.(received := l.received + count,
                                     pending := l.pending + l.wire[l.received..l.received + count])])
    case Handle(link, env) => Handled(w, link, env)
    case Drop(link, now) =>
      var r := Released(w.lease, w.links[link].peer, now);
      w.(lease := r.lease, links := w.links[link := w.links[link].(peer := r.peer)])
    case Other(call) => Rivaled(w, call)
    case RivalData(owner, sequence, data) => RivalTyped(w, owner, sequence, data)
    case PlainInput(data, writes) => PlainTyped(w, data, writes)
    case TerminalReply(data, writes) => TerminalAnswered(w, data, writes)
    case DrainPane(writes) => PaneDrained(w, writes)
  }

  // ---- the invariant ------------------------------------------------------------------------

  /** Payloads of the DATA frames queued so far. */
  function Datas(sent: seq<Message>): (datas: seq<seq<Byte>>) {
    if sent == [] then []
    else
      var last := sent[|sent| - 1];
      Datas(sent[..|sent| - 1]) + if last.kind == MSG_INPUT_DATA then [last.payload] else []
  }

  /** Where in the stream DATA frame `n` ends. */
  function DataEnd(sent: seq<Message>, n: nat): nat
    requires n < |Datas(sent)|
    decreases |sent|
  {
    if sent[|sent| - 1].kind == MSG_INPUT_DATA && n == |Datas(sent)| - 1 then |StreamBytes(sent)|
    else DataEnd(sent[..|sent| - 1], n)
  }

  predicate Granted(l: Link) {
    l.peer.replies != [] && l.peer.replies[0].StateReply? && l.peer.replies[0].state.Grants()
  }

  function Value(reply: Reply): nat {
    match reply
    case StateReply(state) => state.accepted
    case AckReply(accepted) => accepted
  }

  /** The counter at which this transport's DATA frames start. */
  function Start(l: Link): nat {
    if Granted(l) then l.peer.replies[0].state.accepted else 0
  }

  function EpochOf(l: Link): seq<Byte>
    requires Granted(l)
  {
    l.peer.replies[0].state.epoch
  }

  /** The server's undecoded bytes are the stream between the frames it handled
  and the bytes it received. */
  ghost predicate WireOk(l: Link) {
    && AllFit(l.sent) && l.done <= |l.sent|
    && |l.wire| <= |StreamBytes(l.sent)| && l.wire == StreamBytes(l.sent)[..|l.wire|]
    && |StreamBytes(l.sent[..l.done])| <= l.received <= |l.wire|
    && l.pending == StreamBytes(l.sent)[|StreamBytes(l.sent[..l.done])|..l.received]
  }

  ghost predicate RequestOk(request: OpenRequest, c: Client) {
    && request.clientId == c.clientId && |request.epoch| == TOKEN_SIZE && request.lastAck <= c.acknowledged
    && (if Nonzero(request.epoch) then c.identified && request.epoch == c.epoch else request.lastAck == 0)
  }

  /** One OPEN, sent before any DATA; a CLOSE only from a client that is leaving. */
  ghost predicate FramesOk(sent: seq<Message>, request: OpenRequest, c: Client, closing: bool) {
    && (forall k :: 0 <= k < |sent| && sent[k].kind == MSG_INPUT_OPEN ==> k == 1 && sent[k].payload == PutOpen(request))
    && (forall k :: 0 <= k < |sent| && sent[k].kind == MSG_INPUT_DATA ==> k >= 2)
    && (forall k :: 0 <= k < |sent| && sent[k].kind == MSG_INPUT_CLOSE ==>
          closing && sent[k].payload == PutAck(c.acknowledged) && c.journal == [])
  }

  /** Every DATA frame carries the payload of its sequence number, and a
  transport's frames are numbered consecutively from its start. */
  ghost predicate PayloadsOk(datas: seq<seq<Byte>>, start: nat, submitted: seq<seq<Byte>>) {
    && (datas != [] ==> start + |datas| <= |submitted|)
    && (forall n :: 0 <= n < |datas| ==> datas[n] == PutData(start + n + 1, submitted[start + n]))
  }

  ghost predicate ContentOk(l: Link, c: Client, closing: bool, submitted: seq<seq<Byte>>) {
    && RequestOk(l.request, c)
    && FramesOk(l.sent, l.request, c, closing)
    && (Datas(l.sent) != [] ==> l.seen >= 1)
    && (forall k :: 0 <= k < |l.sent| && l.sent[k].kind == MSG_INPUT_CLOSE ==> l.seen >= 1)
    && (l.seen >= 1 ==> Granted(l) && c.identified && EpochOf(l) == c.epoch)
    && PayloadsOk(Datas(l.sent), Start(l), submitted)
  }

  /** No DATA frame above the ceiling is wholly on the wire. */
  ghost predicate ExposureOk(l: Link, eligible: nat) {
    forall n :: 0 <= n < |Datas(l.sent)| && DataEnd(l.sent, n) <= |l.wire| ==> Start(l) + n + 1 <= eligible
  }

  /** One STATE, then acknowledgements that never fall and never exceed either the
  ledger or the DATA frames handled. */
  ghost predicate RepliesOk(l: Link, ledger: map<seq<Byte>, seq<seq<Byte>>>, clientId: seq<Byte>) {
    var replies := l.peer.replies;
    && l.seen <= |replies|
    && (l.done <= 1 ==> replies == [] && !l.peer.session)
    && (replies != [] ==> replies[0].StateReply? && replies[0].state.clientId == clientId)
    && (|replies| > 1 ==> Granted(l))
    && (forall k :: 1 <= k < |replies| ==> replies[k].AckReply?)
    && (Granted(l) ==>
          && EpochOf(l) in ledger && l.request.lastAck <= Start(l)
          && (Nonzero(l.request.epoch) ==> EpochOf(l) == l.request.epoch)
          && (forall j, k :: 0 <= j <= k < |replies| ==> Value(replies[j]) <= Value(replies[k]))
          && (forall k :: 0 <= k < |replies| ==> Value(replies[k]) <= |ledger[EpochOf(l)]|)
          && (l.done <= |l.sent| ==> forall k :: 0 <= k < |replies| ==>
                Value(replies[k]) <= Start(l) + |Datas(l.sent[..l.done])|))
  }

  /** A live session is the lease's owner, the lease has accepted exactly the DATA
  frames it handled, and its last reply says so. */
  ghost predicate SessionOk(l: Link, lease: Lease, clientId: seq<Byte>) {
    && (l.peer.open && l.peer.session ==>
          && Granted(l) && lease.owner == l.peer.conn && lease.epoch == EpochOf(l)
          && l.done <= |l.sent| && Start(l) + |Datas(l.sent[..l.done])| == lease.accepted
          && Value(l.peer.replies[|l.peer.replies| - 1]) == lease.accepted)
    && (l.peer.open && Granted(l) ==> l.peer.session)
    && (lease.owner == l.peer.conn ==> l.peer.open && l.peer.session && lease.clientId == clientId)
  }

  ghost predicate Stamps(l: Link, c: Client)
    requires Start(l) <= c.acknowledged && c.unsent <= |c.journal|
    requires Start(l) + |Datas(l.sent)| == c.acknowledged + |c.journal| - c.unsent
  {
    forall k: nat :: k < |c.journal| - c.unsent ==>
      c.journal[k].generation == c.generation && c.journal[k].wireEnd == DataEnd(l.sent, c.acknowledged - Start(l) + k)
  }

  /** The transport the client is using. */
  ghost predicate CurrentOk(l: Link, c: Client) {
    && Carries(c.out, StreamBytes(l.sent)) && c.out.written <= |l.wire|
    && |l.sent| >= 2
    && (c.ready <==> l.seen >= 1)
    && (l.seen == 0 ==> l.request == OpenRequest(c.epoch, c.clientId, c.acknowledged))
    && (l.seen >= 1 ==>
          && l.seen <= |l.peer.replies| && c.acknowledged == Value(l.peer.replies[l.seen - 1])
          && Start(l) <= c.acknowledged && c.unsent <= |c.journal|
          && Start(l) + |Datas(l.sent)| == c.acknowledged + |c.journal| - c.unsent
          && Stamps(l, c))
  }

  /** The journal holds exactly the sequences above `acknowledged`. */
  ghost predicate ClientOk(c: Client, submitted: seq<seq<Byte>>) {
    && |c.clientId| == TOKEN_SIZE == |c.epoch| && Nonzero(c.clientId)
    && c.acknowledged <= c.eligible <= c.sequence == |submitted| && c.sequence < TWO64
    && |c.journal| == c.sequence - c.acknowledged && c.unsent <= |c.journal|
    && (forall k :: 0 <= k < |c.journal| ==>
          c.journal[k].sequence == c.acknowledged + 1 + k && c.journal[k].data == submitted[c.acknowledged + k])
    && (forall k :: 0 <= k < |submitted| ==> 0 < |submitted[k]| <= DATA_MAX)
    && c.out.offset <= |c.out.bytes| && c.out.offset + c.out.attempt <= |c.out.bytes|
    && (!c.identified ==> c.epoch == NO_TOKEN && c.sequence == 0 && !c.ready)
    && (c.identified ==> Nonzero(c.epoch))
  }

  ghost predicate LeaseOk(lease: Lease, links: seq<Link>, c: Client, ledger: map<seq<Byte>, seq<seq<Byte>>>,
                          epochs: set<seq<Byte>>, rivals: set<nat>)
  {
    && Nonzero(lease.epoch) && |lease.epoch| == TOKEN_SIZE && lease.epoch in epochs
    && (!lease.retained ==> lease.owner == 0)
    && (lease.retained ==> (lease.clientId == c.clientId <==> lease.epoch in ledger))
    && (lease.epoch in ledger ==> lease.accepted == |ledger[lease.epoch]|)
    && 0 !in rivals && (lease.owner in rivals ==> lease.clientId != c.clientId)
    && (lease.owner == 0 || lease.owner in rivals || IsConn(links, lease.owner))
  }

  /** Whatever an epoch admitted is a prefix of what was typed. */
  ghost predicate LedgerOk(ledger: map<seq<Byte>, seq<seq<Byte>>>, epochs: set<seq<Byte>>, c: Client,
                           submitted: seq<seq<Byte>>) {
    && (forall e :: e in ledger ==>
          && e in epochs && Nonzero(e) && |e| == TOKEN_SIZE
          && ledger[e] <= submitted && |ledger[e]| <= c.eligible
          && (ledger[e] != [] ==> c.identified && e == c.epoch))
    && (c.identified ==> c.epoch in ledger && c.acknowledged <= |ledger[c.epoch]|)
  }

  ghost predicate ConnsOk(links: seq<Link>, rivals: set<nat>) {
    && (forall i :: 0 <= i < |links| ==> links[i].peer.conn != 0 && links[i].peer.conn !in rivals)
    && (forall i, j :: 0 <= i < j < |links| ==> links[i].peer.conn != links[j].peer.conn)
  }

  predicate Done(w: World) {
    w.phase == Closing || w.phase == Ended
  }

  ghost predicate LinkOk(l: Link, w: World) {
    && WireOk(l)
    && ContentOk(l, w.client, Done(w), w.submitted)
    && ExposureOk(l, w.client.eligible)
    && RepliesOk(l, w.ledger, w.client.clientId)
    && SessionOk(l, w.lease, w.client.clientId)
  }

  ghost predicate Inv(w: World) {
    && ConnsOk(w.links, w.rivals)
    && ClientOk(w.client, w.submitted)
    && LeaseOk(w.lease, w.links, w.client, w.ledger, w.epochs, w.rivals)
    && LedgerOk(w.ledger, w.epochs, w.client, w.submitted)
    && (forall i :: 0 <= i < |w.links| ==> LinkOk(w.links[i], w))
    && (w.phase == Online || w.phase == Closing ==> w.links != [] && CurrentOk(Last(w), w.client))
    && (w.phase == Offline ==> Carries(w.client.out, []) && !w.client.ready)
  }
}
