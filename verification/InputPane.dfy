/** From payloads to bytes: what the pane's terminal was given and what waits for
it, against the ledger of the input protocol. */
module InputPane {
  import opened Bytes
  import opened Frame
  import opened InputSession
  import opened InputWire
  import opened Attach
  import opened Serve
  import opened InputWorld
  import opened InputServerSteps
  import opened InputProtocol

  /** All admitted bytes, in the order they were admitted. */
  function Joined(log: seq<Admitted>): seq<Byte> {
    if log == [] then [] else Joined(log[..|log| - 1]) + log[|log| - 1].data
  }

  function PayloadsOf(log: seq<Admitted>, epoch: seq<Byte>): (payloads: seq<seq<Byte>>) {
    if log == [] then []
    else
      var last := log[|log| - 1];
      PayloadsOf(log[..|log| - 1], epoch) + if last.Counted? && last.epoch == epoch then [last.data] else []
  }

  function Concat(payloads: seq<seq<Byte>>): seq<Byte> {
    if payloads == [] then [] else Concat(payloads[..|payloads| - 1]) + payloads[|payloads| - 1]
  }

  /** What the pty took and what waits are the bytes of the log; the ledger is the
  log, epoch by epoch. */
  ghost predicate PaneInv(w: World) {
    && w.pane.offset <= |w.pane.bytes|
    && w.written + Waiting(w.pane) == Joined(w.log)
    && (forall e :: e in w.ledger ==> w.ledger[e] == PayloadsOf(w.log, e))
    && (forall k :: 0 <= k < |w.log| && w.log[k].Counted? ==> w.log[k].epoch in w.epochs)
  }

  lemma LogStep(log: seq<Admitted>, entry: Admitted, epoch: seq<Byte>)
    ensures Joined(log + [entry]) == Joined(log) + entry.data
    ensures PayloadsOf(log + [entry], epoch) ==
            PayloadsOf(log, epoch) + if entry.Counted? && entry.epoch == epoch then [entry.data] else []
  {
    assert (log + [entry])[..|log|] == log;
  }

  lemma {:induction false} NeverUsed(log: seq<Admitted>, epoch: seq<Byte>)
    requires forall k :: 0 <= k < |log| && log[k].Counted? ==> log[k].epoch != epoch
    ensures PayloadsOf(log, epoch) == []
  {
    if log != [] { NeverUsed(log[..|log| - 1], epoch); }
  }

  lemma Same(w: World, after: World)
    requires PaneInv(w) && SamePane(w, after) && after.ledger == w.ledger
    ensures PaneInv(after)
  {
  }

  // ---- serving a frame ----------------------------------------------------------------

  /** Only a DATA frame that found room is admitted, in the lease's epoch. */
  lemma AdmittedIs(lease: Lease, peer: Peer, message: Message, env: Env)
    ensures var r := Serve.Serve(lease, peer, message, env);
            r.admitted.Some? ==>
              && r.handled && message.kind == MSG_INPUT_DATA && env.admission == Taken && r.lease.epoch == lease.epoch
              && ReadData(message.payload).Some? && ReadData(message.payload).value.data == r.admitted.value
  {
    hide ReadOpen, ReadData, ReadAck, Open, Expire;
  }

  lemma PaneMoved(pane: Fifo, message: Message, r: Serve.Served, env: Env)
    requires pane.offset <= |pane.bytes| && RoomIs(pane, message, env.admission)
    requires r.admitted.Some? ==>
               && message.kind == MSG_INPUT_DATA && env.admission == Taken && ReadData(message.payload).Some?
               && ReadData(message.payload).value.data == r.admitted.value
    ensures var after := PaneAfter(pane, r);
            && after.offset <= |after.bytes|
            && Waiting(after) == Waiting(pane) + if r.admitted.Some? then r.admitted.value else []
  {
    hide ReadData;
    if r.admitted.Some? { AdmitWaiting(pane, r.admitted.value); }
  }

  lemma HandlePane(w: World, index: nat, env: Env)
    requires index < |w.links| && NextFrame(w.links[index].pending).Ready?
    requires RoomIs(w.pane, NextFrame(w.links[index].pending).message, env.admission) && Unused(w, env.freshEpoch)
    requires Inv(w) && PaneInv(w)
    ensures PaneInv(Handled(w, index, env))
  {
    hide Inv, NextFrame, ReadData, Admit, CompactFifo, Serve.Serve, Nonzero, Joined, PayloadsOf;
    LeaseFactsOf(w);
    var message := NextFrame(w.links[index].pending).message;
    var r, after := Serve.Serve(w.lease, w.links[index].peer, message, env), Handled(w, index, env);
    AdmittedIs(w.lease, w.links[index].peer, message, env);
    EpochKeptOrNew(w.lease, w.links[index].peer, message, env);
    PaneMoved(w.pane, message, r, env);
    hide PaneAfter, Waiting;
    if r.admitted.Some? {
      var entry := Counted(w.lease.epoch, r.admitted.value);
      forall e | e in after.ledger ensures after.ledger[e] == PayloadsOf(after.log, e) {
        LogStep(w.log, entry, e);
      }
      LogStep(w.log, entry, w.lease.epoch);
      assert w.written + (Waiting(w.pane) + r.admitted.value) == w.written + Waiting(w.pane) + r.admitted.value;
    } else if r.handled && r.lease.epoch != w.lease.epoch {
      NeverUsed(w.log, r.lease.epoch);
    }
  }

  // ---- other clients and the terminal ---------------------------------------------------

  /** Whoever else's turn it is, it is not counted in an epoch of this client. */
  lemma RivalEpoch(w: World, owner: nat, sequence: nat)
    requires Inv(w) && RivalCall(w, CallCommit(owner, sequence)) && Classify(w.lease, owner, sequence) == Expected
    ensures w.lease.epoch !in w.ledger && w.lease.epoch in w.epochs
  {
    hide ClientOk, CurrentOk, LinkOk, ConnsOk, LedgerOk, Nonzero;
  }

  lemma RivalPane(w: World, owner: nat, sequence: nat, data: seq<Byte>)
    requires Inv(w) && PaneInv(w) && RivalCall(w, CallCommit(owner, sequence))
    ensures PaneInv(RivalTyped(w, owner, sequence, data))
  {
    hide Inv, Joined, PayloadsOf, Admit, RivalCall;
    AdmitWaiting(w.pane, data);
    if Classify(w.lease, owner, sequence) == Expected && Admit(w.pane, data).1 == Taken {
      RivalEpoch(w, owner, sequence);
      var entry, after := Counted(w.lease.epoch, data), RivalTyped(w, owner, sequence, data);
      hide Waiting;
      forall e | e in after.ledger ensures after.ledger[e] == PayloadsOf(after.log, e) {
        LogStep(w.log, entry, e);
      }
      LogStep(w.log, entry, w.lease.epoch);
      assert w.written + (Waiting(w.pane) + data) == w.written + Waiting(w.pane) + data;
    }
  }

  /** Bytes nobody counts join the queue and the log. */
  lemma Uncounted(w: World, after: World, entry: Admitted)
    requires PaneInv(w) && !entry.Counted? && PaneMoves(w, after) && after.written == w.written
    requires after.pane.offset <= |after.pane.bytes| && after.log == w.log + [entry]
    requires Waiting(after.pane) == Waiting(w.pane) + entry.data
    ensures PaneInv(after)
  {
    hide Joined, PayloadsOf, Waiting;
    forall e | e in after.ledger ensures after.ledger[e] == PayloadsOf(after.log, e) {
      LogStep(w.log, entry, e);
    }
    LogStep(w.log, entry, []);
    assert w.written + (Waiting(w.pane) + entry.data) == w.written + Waiting(w.pane) + entry.data;
  }

  /** The queue was compacted and nothing else. */
  lemma OnlyCompacted(w: World, after: World)
    requires PaneInv(w) && PaneMoves(w, after) && after.written == w.written && after.log == w.log
    requires after.pane.offset <= |after.pane.bytes| && Waiting(after.pane) == Waiting(w.pane)
    ensures PaneInv(after)
  {
    hide Joined, PayloadsOf, Waiting;
  }

  lemma PlainPane(w: World, data: seq<Byte>, writes: seq<PtyWrite>)
    requires PaneInv(w)
    ensures PaneInv(PlainTyped(w, data, writes))
  {
    hide PaneInv, Admit, PaneDrained;
    assert w.pane.offset <= |w.pane.bytes| by { InRange(w); }
    AdmitWaiting(w.pane, data);
    var (pane, admission) := Admit(w.pane, data);
    if admission == Taken {
      var queued := w.(pane := pane, log := w.log + [Plain(data)]);
      Uncounted(w, queued, Plain(data));
      DrainPaneKeeps(queued, writes);
    } else {
      OnlyCompacted(w, w.(pane := pane));
    }
  }

  lemma AnswerPane(w: World, data: seq<Byte>, writes: seq<PtyWrite>)
    requires PaneInv(w)
    ensures PaneInv(TerminalAnswered(w, data, writes))
  {
    hide PaneInv, Answer, PaneDrained, FlushPty;
    assert w.pane.offset <= |w.pane.bytes| by { InRange(w); }
    AnswerWaiting(w.pane, data);
    var (pane, ok) := Answer(w.pane, data);
    if w.mute {
    } else if ok {
      var queued := w.(pane := pane, log := w.log + [Answered(data)], mute := !FlushPty(pane, writes).ok);
      Uncounted(w, queued, Answered(data));
      DrainPaneKeeps(queued, writes);
    } else {
      OnlyCompacted(w, w.(pane := pane, mute := true));
    }
  }

  lemma InRange(w: World)
    requires PaneInv(w)
    ensures w.pane.offset <= |w.pane.bytes|
  {
  }

  lemma DrainPaneKeeps(w: World, writes: seq<PtyWrite>)
    requires PaneInv(w)
    ensures PaneInv(PaneDrained(w, writes)) && w.written <= PaneDrained(w, writes).written
  {
    hide FlushPty, Joined, PayloadsOf;
    FlushTakesFront(w.pane, writes);
    var flushed := FlushPty(w.pane, writes);
    hide Waiting;
    assert w.written + (flushed.taken + Waiting(flushed.fifo)) == w.written + flushed.taken + Waiting(flushed.fifo);
  }

  // ---- every run --------------------------------------------------------------------------

  lemma StepKeepsPane(w: World, event: Event)
    requires Inv(w) && PaneInv(w) && Legal(w, event)
    ensures PaneInv(After(w, event))
  {
    hide Inv, PaneInv, Connected, Typed, Written, Heard, Quitted, Handled, Rivaled, RivalTyped, PaneDrained, PlainTyped,
         TerminalAnswered, FlushPty, Replay, Lose;
    match event
    case Handle(link, env) => HandlePane(w, link, env);
    case RivalData(owner, sequence, data) => RivalPane(w, owner, sequence, data);
    case PlainInput(data, writes) => PlainPane(w, data, writes);
    case TerminalReply(data, writes) => AnswerPane(w, data, writes);
    case DrainPane(writes) => DrainPaneKeeps(w, writes);
    case Other(call) => OtherPane(w, call);
    case Drop(_, _) => Same(w, After(w, event));
    case _ => Same(w, After(w, event));
  }

  lemma OtherPane(w: World, call: Call)
    requires PaneInv(w)
    ensures PaneInv(Rivaled(w, call))
  {
    hide Applied, Joined, PayloadsOf, Waiting;
  }

  lemma InitialPane(w: World)
    requires Initial(w)
    ensures PaneInv(w)
  {
  }

  lemma {:induction false} RunKeepsPane(worlds: seq<World>, events: seq<Event>, k: nat)
    requires IsRun(worlds, events) && k < |worlds|
    ensures Inv(worlds[k]) && PaneInv(worlds[k])
  {
    hide Inv, PaneInv, After, Legal, Initial;
    RunKeeps(worlds, events, k);
    if k == 0 {
      InitialPane(worlds[0]);
    } else {
      RunKeepsPane(worlds, events, k - 1);
      StepKeepsPane(worlds[k - 1], events[k - 1]);
    }
  }

  /** In every run, the bytes the terminal took and then those that wait are whole
  admissions one after another - payloads, keys typed without a lease, answers of
  the terminal - in the order they were made; and the payloads counted in an epoch
  of the client are the first ones it typed, one copy of each, in order. */
  lemma AdmittedBytes(worlds: seq<World>, events: seq<Event>, k: nat, epoch: seq<Byte>)
    requires IsRun(worlds, events) && k < |worlds|
    ensures var w := worlds[k];
            && w.pane.offset <= |w.pane.bytes|
            && w.written + Waiting(w.pane) == Joined(w.log)
            && (epoch in w.ledger ==> PayloadsOf(w.log, epoch) == w.ledger[epoch] <= w.submitted)
  {
    RunKeepsPane(worlds, events, k);
    hide Inv, Initial, After, Legal;
    if epoch in worlds[k].ledger { ExactlyOnce(worlds, events, k, epoch); }
  }

  lemma {:induction false} SoleLog(log: seq<Admitted>, epoch: seq<Byte>)
    requires forall k :: 0 <= k < |log| ==> log[k].Counted? && log[k].epoch == epoch
    ensures Joined(log) == Concat(PayloadsOf(log, epoch))
  {
    if log != [] {
      SoleLog(log[..|log| - 1], epoch);
      var rest, last := PayloadsOf(log[..|log| - 1], epoch), log[|log| - 1];
      assert (rest + [last.data])[..|rest|] == rest;
    }
  }

  lemma {:induction false} Appears(log: seq<Admitted>, k: nat)
    requires k < |log| && log[k].Counted?
    ensures PayloadsOf(log, log[k].epoch) != []
  {
    if k < |log| - 1 { Appears(log[..|log| - 1], k); }
  }

  /** While nothing else was admitted - no other client's input, no keys typed
  without a lease, no answer of the terminal - the terminal's bytes, taken and
  waiting, are exactly the concatenation of the first payloads typed, as many as
  the server counted. */
  lemma SoleInput(worlds: seq<World>, events: seq<Event>, k: nat)
    requires IsRun(worlds, events) && k < |worlds|
    requires forall j :: 0 <= j < |worlds[k].log| ==>
               worlds[k].log[j].Counted? && worlds[k].log[j].epoch in worlds[k].ledger
    ensures var (w, c) := (worlds[k], worlds[k].client);
            var counted := if c.epoch in w.ledger then |w.ledger[c.epoch]| else 0;
            && w.pane.offset <= |w.pane.bytes| && counted <= |w.submitted|
            && w.written + Waiting(w.pane) == Concat(w.submitted[..counted])
  {
    RunKeepsPane(worlds, events, k);
    hide Inv, Initial, After, Legal, Joined, Waiting;
    var (w, c) := (worlds[k], worlds[k].client);
    forall j | 0 <= j < |w.log| ensures w.log[j].epoch == c.epoch {
      Appears(w.log, j);
      ExactlyOnce(worlds, events, k, w.log[j].epoch);
    }
    SoleLog(w.log, c.epoch);
    assert w.log != [] ==> w.log[0].epoch in w.ledger;
    if c.epoch in w.ledger { ExactlyOnce(worlds, events, k, c.epoch); }
  }
}
