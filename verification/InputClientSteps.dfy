/** The client's steps keep the acknowledged-input invariant: typing, replaying,
writing, hearing replies, connecting and leaving. */
module InputClientSteps {
  import opened Bytes
  import opened Frame
  import opened InputSession
  import opened InputWire
  import opened Outgoing
  import opened Attach
  import opened InputWorld
  import opened InputLinks

  // ---- the client's steps -------------------------------------------------------------------------

  /** The client stops: only its counters and its journal still matter. */
  lemma EndingKeeps(w: World, after: World)
    requires Inv(w) && after.phase == Ended && after.links == w.links && ClientSide(w, after)
    requires ClientOk(after.client, after.submitted) && LedgerOk(w.ledger, w.epochs, after.client, after.submitted)
    ensures Inv(after)
  {
    hide ClientOk, LedgerOk, Later, LinkOk, CurrentOk, LeaseOk, ConnsOk;
    if w.links != [] { LinkUnmoved(Last(w), w, after); }
    ClientStep(w, after);
  }

  /** The client changed to `mid` and queued one more frame. */
  lemma QueuedStep(w: World, mid: World, m: Message)
    requires Inv(w) && mid.phase != Offline && w.links != [] && mid.links == w.links && ClientSide(w, mid)
    requires ClientOk(mid.client, mid.submitted) && LedgerOk(w.ledger, w.epochs, mid.client, mid.submitted)
    requires MaySend(Last(w), m, mid) && CurrentOk(Last(w).(sent := Last(w).sent + [m]), mid.client)
    ensures Inv(Queued(mid, mid.client, [m]))
  {
    hide ClientOk, LedgerOk, Later, LinkOk, CurrentOk, LeaseOk, ConnsOk, MaySend;
    var after := Queued(mid, mid.client, [m]);
    LinkUnmoved(Last(w), w, mid);
    LinkExtended(Last(w), m, mid);
    LinkSame(Last(after), mid, after);
    assert Later(w, after) by { LaterSame(w, mid, after); }
    ClientStep(w, after);
  }

  lemma LaterSame(w: World, mid: World, after: World)
    requires Later(w, mid)
    requires after.client == mid.client && after.phase == mid.phase && after.submitted == mid.submitted &&
             after.ledger == mid.ledger
    ensures Later(w, after)
  {
  }

  lemma SameCounters(w: World, after: World)
    requires after.client ==
             w.client.(out := after.client.out, ready := after.client.ready, journal := after.client.journal,
                       unsent := after.client.unsent,
                                       generation := after.client.generation)
    requires Done(w) ==> Done(after) && after.client.journal == w.client.journal
    requires after.submitted == w.submitted && after.ledger == w.ledger && after.epochs == w.epochs
    ensures Later(w, after)
    ensures LedgerOk(w.ledger, w.epochs, w.client, w.submitted) ==>
              LedgerOk(after.ledger, after.epochs, after.client, after.submitted)
  {
    hide Nonzero;
  }

  lemma PostShape(c: Client, m: Message, submitted: seq<seq<Byte>>)
    requires ClientOk(c, submitted)
    ensures ClientOk(PostTo(c, m).client, submitted)
  {
    hide FrameBytes, Nonzero;
  }

  /** A frame that is not DATA, queued or not. */
  lemma PostKeeps(w: World, m: Message)
    requires Inv(w) && w.phase == Online && !InputKind(m.kind)
    ensures var s := PostTo(w.client, m);
            Inv(if s.ok then Queued(w, s.client, [m]) else Ending(w, s.client))
  {
    hide ClientOk, LedgerOk, Later, LinkOk, CurrentOk, LeaseOk, ConnsOk, Outgoing.Post, FrameBytes, PutData, PutAck,
         Inv;
    var s := PostTo(w.client, m);
    InvParts(w);
    PostShape(w.client, m, w.submitted);
    if s.ok {
      var mid := w.(client := s.client);
      SameCounters(w, mid);
      Accepted(w.client, m);
      CurrentExtended(Last(w), w.client, m);
      QueuedStep(w, mid, m);
    } else {
      var after := Ending(w, s.client);
      SameCounters(w, after);
      EndingKeeps(w, after);
    }
  }

  lemma QuitKeeps(w: World)
    requires Inv(w) && w.phase == Online
    ensures w.links != [] && Inv(Quitted(w))
  {
    hide ClientOk, LedgerOk, Later, LinkOk, CurrentOk, LeaseOk, ConnsOk, Outgoing.Post, FrameBytes, PutData, PutAck,
         Inv;
    InvParts(w);
    var c, m := w.client, Message(MSG_INPUT_CLOSE, PutAck(w.client.acknowledged));
    var client := CloseSession(c);
    if client.out.failed {
      var after := Ending(w, client);
      SameCounters(w, after);
      CloseShape(c, w.submitted);
      EndingKeeps(w, after);
    } else if !c.ready || c.journal != [] {
      var after := w.(phase := Closing);
      SameCounters(w, after);
      LinkUnmoved(Last(w), w, after);
      ClientStep(w, after);
    } else {
      var mid := w.(client := client, phase := Closing);
      SameCounters(w, mid);
      CloseShape(c, w.submitted);
      Accepted(c, m);
      CurrentExtended(Last(w), c, m);
      Longer(Last(w), c, m);
      CloseMaySend(Last(w), mid, c);
      QueuedStep(w, mid, m);
    }
  }

  lemma CloseMaySend(l: Link, mid: World, c: Client)
    requires CurrentOk(l, c) && c.ready && c.journal == [] && Done(mid)
    requires mid.client.acknowledged == c.acknowledged && mid.client.journal == []
    ensures MaySend(l, Message(MSG_INPUT_CLOSE, PutAck(c.acknowledged)), mid)
  {
    hide Carries, Stamps, Datas, StreamBytes;
  }

  lemma CloseShape(c: Client, submitted: seq<seq<Byte>>)
    requires ClientOk(c, submitted)
    ensures ClientOk(CloseSession(c), submitted)
  {
    hide ClientOk, PutAck, Outgoing.Post;
    PostShape(c, Message(MSG_INPUT_CLOSE, PutAck(c.acknowledged)), submitted);
  }

  lemma Longer(l: Link, c: Client, m: Message)
    requires CurrentOk(l, c) && PostTo(c, m).ok
    ensures PostTo(c, m).client != c
  {
    hide StreamBytes, FrameBytes, Stamps, Datas, Outgoing.Post;
    PostCarries(c.out, StreamBytes(l.sent), m);
  }

  lemma QueuedNothing(w: World)
    requires w.links != []
    ensures Queued(w, w.client, []) == w
  {
    assert Last(w).sent + [] == Last(w).sent;
  }

  lemma QueuedTwice(w: World, mid: Client, m: Message, client: Client, rest: seq<Message>)
    requires w.links != []
    ensures Queued(Queued(w, mid, [m]), client, rest) == Queued(w, client, [m] + rest)
  {
    assert (Last(w).sent + [m]) + rest == Last(w).sent + ([m] + rest);
  }

  /** Replay stamps and queues; it moves no counter. */
  lemma {:induction false} ReplayShape(c: Client, submitted: seq<seq<Byte>>)
    requires ClientOk(c, submitted)
    ensures ClientOk(Replay(c).client, submitted)
    ensures var r := Replay(c).client; r == c.(out := r.out, journal := r.journal, unsent := r.unsent)
    decreases c.unsent
  {
    hide Outgoing.Post, FrameBytes, PutData, ClientOk;
    ShapeBounds(c, submitted);
    if c.ready && c.unsent != 0 && Pending(c.out) < SOFT_LIMIT {
      var index := |c.journal| - c.unsent;
      var posted := PostTo(c, DataMessage(c.journal[index]));
      PostShape(c, DataMessage(c.journal[index]), submitted);
      if posted.ok {
        EntryShape(c, submitted);
        ReplayShape(PostedEntry(c), submitted);
      }
    }
  }

  lemma ShapeBounds(c: Client, submitted: seq<seq<Byte>>)
    requires ClientOk(c, submitted)
    ensures c.unsent <= |c.journal|
  {
  }

  /** One entry of the replay. */
  lemma EntryKeeps(w: World)
    requires Inv(w) && w.phase == Online && w.client.ready && 0 < w.client.unsent <= |w.client.journal|
    requires PostTo(w.client, DataMessage(w.client.journal[|w.client.journal| - w.client.unsent])).ok
    ensures Inv(Queued(w, PostedEntry(w.client), [DataMessage(w.client.journal[|w.client.journal| - w.client.unsent])]))
  {
    hide ClientOk, LedgerOk, Later, LinkOk, CurrentOk, LeaseOk, ConnsOk, Outgoing.Post, FrameBytes, PutData, PutAck,
         Inv;
    InvParts(w);
    var m := DataMessage(w.client.journal[|w.client.journal| - w.client.unsent]);
    var mid := w.(client := PostedEntry(w.client));
    EntryShape(w.client, w.submitted);
    SameCounters(w, mid);
    Accepted(w.client, m);
    EntryMaySend(Last(w), mid, w.client);
    CurrentData(Last(w), w.client);
    QueuedStep(w, mid, m);
  }

  lemma EntryShape(c: Client, submitted: seq<seq<Byte>>)
    requires ClientOk(c, submitted) && 0 < c.unsent <= |c.journal|
    ensures ClientOk(PostedEntry(c), submitted)
  {
    hide Outgoing.Post, FrameBytes, PutData, Nonzero;
    PostShape(c, DataMessage(c.journal[|c.journal| - c.unsent]), submitted);
  }

  lemma EntryMaySend(l: Link, mid: World, c: Client)
    requires CurrentOk(l, c) && c.ready && ClientOk(c, mid.submitted) && 0 < c.unsent <= |c.journal|
    requires Fits(DataMessage(c.journal[|c.journal| - c.unsent]))
    ensures MaySend(l, DataMessage(c.journal[|c.journal| - c.unsent]), mid)
  {
    hide FrameBytes, PutData, PutAck, Nonzero, Datas, Stamps, StreamBytes;
  }

  lemma {:induction false} ReplayKeeps(w: World)
    requires Inv(w) && w.phase == Online
    ensures w.links != [] && w.client.unsent <= |w.client.journal|
    ensures var s := Replay(w.client);
            Inv(if s.ok then Queued(w, s.client, ReplayMessages(w.client)) else Ending(w, s.client))
    decreases w.client.unsent
  {
    hide ClientOk, LedgerOk, Later, LinkOk, CurrentOk, LeaseOk, ConnsOk, Outgoing.Post, FrameBytes, PutData, PutAck,
         Inv;
    InvParts(w);
    InvShaped(w);
    var c, s := w.client, Replay(w.client);
    if !s.ok {
      var after := Ending(w, s.client);
      ReplayShape(c, w.submitted);
      SameCounters(w, after);
      EndingKeeps(w, after);
    } else if !c.ready || c.unsent == 0 || Pending(c.out) >= SOFT_LIMIT {
      QueuedNothing(w);
    } else {
      var m := DataMessage(c.journal[|c.journal| - c.unsent]);
      EntryKeeps(w);
      ReplayKeeps(Queued(w, PostedEntry(c), [m]));
      QueuedTwice(w, PostedEntry(c), m, s.client, ReplayMessages(PostedEntry(c)));
    }
  }

  lemma TypeKeeps(w: World, data: seq<Byte>)
    requires Inv(w) && w.phase == Online
    ensures w.links != [] && Inv(Typed(w, data))
  {
    hide ClientOk, LedgerOk, Later, LinkOk, CurrentOk, LeaseOk, ConnsOk, Outgoing.Post, FrameBytes, PutData, PutAck,
         Inv;
    InvParts(w);
    var c, s := w.client, SendInput(w.client, data);
    if data != [] {
      if !HasRoom(c) || |data| > DATA_MAX || c.sequence == TWO64 - 1 {
        var after := Ending(w, c);
        SameCounters(w, after);
        EndingKeeps(w, after);
      } else {
        var entry := Entry(c.sequence + 1, 0, 0, data);
        var kept := c.(journal := c.journal + [entry], sequence := c.sequence + 1, unsent := 1);
        KeptShape(w, kept, data);
        if s.ok {
          CurrentKept(Last(w), c, kept);
          KeptQueued(w, kept, data);
          assert s.client == PostedEntry(kept);
        } else {
          FailedSend(w, kept, data);
        }
      }
    }
  }

  lemma KeptShape(w: World, kept: Client, data: seq<Byte>)
    requires ClientOk(w.client, w.submitted) && 0 < |data| <= DATA_MAX && w.client.sequence != TWO64 - 1 &&
             w.client.unsent == 0
    requires w.client.ready && LedgerOk(w.ledger, w.epochs, w.client, w.submitted) && !Done(w)
    requires kept == w.client.(journal := w.client.journal + [Entry(w.client.sequence + 1, 0, 0, data)],
                               sequence := w.client.sequence + 1, unsent := 1)
    ensures ClientOk(kept, w.submitted + [data]) && LedgerOk(w.ledger, w.epochs, kept, w.submitted + [data])
    ensures Later(w, w.(client := kept, submitted := w.submitted + [data]))
  {
    hide Nonzero;
  }

  lemma CurrentKept(l: Link, c: Client, kept: Client)
    requires CurrentOk(l, c) && c.ready && c.unsent == 0
    requires |kept.journal| == |c.journal| + 1 && kept.journal[..|c.journal|] == c.journal
    requires kept == c.(journal := kept.journal, sequence := kept.sequence, unsent := 1)
    ensures CurrentOk(l, kept)
  {
    hide StreamBytes, Datas, DataEnd;
    forall k: nat | k < |c.journal|
      ensures kept.journal[k].generation == c.generation &&
              kept.journal[k].wireEnd == DataEnd(l.sent, c.acknowledged - Start(l) + k)
    {
      assert kept.journal[k] == c.journal[k];
    }
  }

  lemma KeptQueued(w: World, kept: Client, data: seq<Byte>)
    requires Inv(w) && w.phase == Online && kept.unsent == 1 && kept.journal != [] && kept.ready
    requires Later(w, w.(client := kept, submitted := w.submitted + [data]))
    requires ClientOk(kept, w.submitted + [data]) && LedgerOk(w.ledger, w.epochs, kept, w.submitted + [data])
    requires w.links != [] && CurrentOk(Last(w), kept)
    requires PostTo(kept, DataMessage(kept.journal[|kept.journal| - 1])).ok
    ensures Inv(Queued(w.(submitted := w.submitted + [data]), PostedEntry(kept),
                       [DataMessage(kept.journal[|kept.journal| - 1])]))
  {
    hide ClientOk, LedgerOk, Later, LinkOk, CurrentOk, LeaseOk, ConnsOk, Outgoing.Post, FrameBytes, PutData, PutAck,
         Inv;
    var typed := w.(client := kept, submitted := w.submitted + [data]);
    InvParts(w);
    LinkUnmoved(Last(w), w, typed);
    ClientStep(w, typed);
    EntryKeeps(typed);
  }

  lemma FailedSend(w: World, kept: Client, data: seq<Byte>)
    requires Inv(w) && w.phase == Online && kept.journal != []
    requires Later(w, w.(client := kept, submitted := w.submitted + [data]))
    requires ClientOk(kept, w.submitted + [data]) && LedgerOk(w.ledger, w.epochs, kept, w.submitted + [data])
    requires kept.unsent == 1
    ensures var m := DataMessage(kept.journal[|kept.journal| - 1]);
            Inv(Ending(w.(submitted := w.submitted + [data]), PostTo(kept, m).client.(unsent := 0)))
  {
    hide LinkOk, CurrentOk, LeaseOk, ConnsOk, Outgoing.Post, FrameBytes, PutData, PutAck, Inv, Nonzero;
    var m := DataMessage(kept.journal[|kept.journal| - 1]);
    PostShape(kept, m, w.submitted + [data]);
    EndingKeeps(w, Ending(w.(submitted := w.submitted + [data]), PostTo(kept, m).client.(unsent := 0)));
  }

  // ---- replies ---------------------------------------------------------------------------------------

  lemma {:induction false} DroppedThrough(journal: seq<Entry>, first: nat, accepted: nat)
    requires forall k :: 0 <= k < |journal| ==> journal[k].sequence == first + 1 + k
    requires first <= accepted <= first + |journal|
    ensures DropThrough(journal, accepted) == journal[accepted - first..]
    decreases |journal|
  {
    if first < accepted {
      DroppedThrough(journal[1..], first + 1, accepted);
    }
  }

  lemma AcknowledgeShape(c: Client, accepted: nat, submitted: seq<seq<Byte>>)
    requires ClientOk(c, submitted) && c.acknowledged <= accepted <= c.eligible
    ensures Acknowledge(c, accepted).ok && ClientOk(Acknowledge(c, accepted).client, submitted)
    ensures accepted <= c.acknowledged + |c.journal|
    ensures var after := Acknowledge(c, accepted).client;
            && after.journal == c.journal[accepted - c.acknowledged..]
            && after == c.(journal := after.journal, acknowledged := accepted,
                           unsent := if c.unsent <= |after.journal| then c.unsent else |after.journal|)
  {
    hide Nonzero, DropThrough, ClientOk;
    AcknowledgedJournal(c, accepted, submitted);
    var after := Acknowledge(c, accepted).client;
    Shortened(c, after, submitted);
  }

  lemma AcknowledgedJournal(c: Client, accepted: nat, submitted: seq<seq<Byte>>)
    requires ClientOk(c, submitted) && c.acknowledged <= accepted <= c.eligible
    ensures accepted <= c.acknowledged + |c.journal|
    ensures DropThrough(c.journal, accepted) == c.journal[accepted - c.acknowledged..]
  {
    hide Nonzero, DropThrough;
    DroppedThrough(c.journal, c.acknowledged, accepted);
  }

  lemma Shortened(c: Client, after: Client, submitted: seq<seq<Byte>>)
    requires ClientOk(c, submitted) && c.acknowledged <= after.acknowledged <= c.eligible
    requires after.acknowledged <= c.acknowledged + |c.journal| &&
             after.journal == c.journal[after.acknowledged - c.acknowledged..]
    requires after.unsent <= |after.journal|
    requires after == c.(journal := after.journal, acknowledged := after.acknowledged, unsent := after.unsent)
    ensures ClientOk(after, submitted)
  {
    hide Nonzero;
    forall k | 0 <= k < |after.journal|
      ensures after.journal[k].sequence == after.acknowledged + 1 + k &&
              after.journal[k].data == submitted[after.acknowledged + k]
    {
      assert after.journal[k] == c.journal[k + (after.acknowledged - c.acknowledged)];
    }
  }

  /** A reply on the current transport is never out of range. */
  lemma ReplyInRange(w: World)
    requires Inv(w) && w.phase == Online && w.links != [] && Last(w).seen < |Last(w).peer.replies|
    ensures var l, c := Last(w), w.client;
            match l.peer.replies[l.seen]
            case AckReply(accepted) => (
              && c.ready && c.identified && Granted(l) && c.acknowledged <= accepted <= c.eligible
              && EpochOf(l) == c.epoch && c.epoch in w.ledger && accepted <= |w.ledger[c.epoch]|)
            case StateReply(state) => (
              && !c.ready && l.seen == 0 && state.clientId == c.clientId
              && (state.Grants() ==>
                    && c.acknowledged <= state.accepted <= c.eligible && (c.identified ==> state.epoch == c.epoch)
                    && state.epoch in w.ledger && state.accepted <= |w.ledger[state.epoch]| && Datas(l.sent) == []))
  {
    hide WireOk, ExposureOk, SessionOk, StreamBytes, Stamps, Datas, LeaseOk, ConnsOk, Nonzero, FramesOk, PayloadsOk;
    var l, c := Last(w), w.client;
    assert LinkOk(l, w);
    if l.peer.replies[l.seen].AckReply? {
      assert l.seen >= 1;
      assert Value(l.peer.replies[l.seen - 1]) <= Value(l.peer.replies[l.seen]);
    } else if Granted(l) {
      assert Value(l.peer.replies[0]) <= |w.ledger[EpochOf(l)]|;
    }
  }

  lemma AckKeeps(w: World, size: seq<Byte>)
    requires Inv(w) && w.phase == Online && Shaped(w) && Last(w).seen < |Last(w).peer.replies|
    requires Last(w).peer.replies[Last(w).seen].AckReply?
    ensures Inv(Heard(w, size)) && Heard(w, size).phase == Online
  {
    hide ClientOk, LedgerOk, Later, LinkOk, CurrentOk, LeaseOk, ConnsOk, Inv;
    InvParts(w);
    ReplyInRange(w);
    var c, l, accepted := w.client, Last(w), Last(w).peer.replies[Last(w).seen].accepted;
    AcknowledgeShape(c, accepted, w.submitted);
    var client := Acknowledge(c, accepted).client;
    var mid := w.(client := client);
    AckLater(w, mid);
    LinkUnmoved(l, w, mid);
    LinkHeard(l, mid);
    CurrentHeard(l, c, client, w);
    var after := WithLast(mid, l.(seen := l.seen + 1));
    LinkSame(Last(after), mid, after);
    LaterSame(w, mid, after);
    ClientStep(w, after);
  }

  lemma AckLater(w: World, after: World)
    requires !Done(w) && w.client.acknowledged <= after.client.acknowledged && w.client.identified
    requires after.client ==
             w.client.(journal := after.client.journal, acknowledged := after.client.acknowledged,
                       unsent := after.client.unsent)
    requires after.submitted == w.submitted && after.ledger == w.ledger && after.epochs == w.epochs
    requires w.client.epoch in w.ledger && after.client.acknowledged <= |w.ledger[w.client.epoch]|
    requires LedgerOk(w.ledger, w.epochs, w.client, w.submitted)
    ensures Later(w, after) && LedgerOk(after.ledger, after.epochs, after.client, after.submitted)
  {
    hide Nonzero;
  }

  lemma LinkHeard(l: Link, w: World)
    requires LinkOk(l, w) && l.seen < |l.peer.replies|
    requires Granted(l) && w.client.identified && w.client.epoch == EpochOf(l)
    ensures LinkOk(l.(seen := l.seen + 1), w)
  {
    hide WireOk, ContentOk, ExposureOk, RepliesOk, SessionOk;
    var heard := l.(seen := l.seen + 1);
    LinkParts(l, w);
    ContentHeard(l, heard, w);
    WireHeard(l, heard);
    ExposureHeard(l, heard, w.client.eligible);
    SessionHeard(l, heard, w);
    RepliesHeard(l, heard, w);
    LinkWhole(heard, w);
  }

  lemma ContentHeard(l: Link, heard: Link, w: World)
    requires ContentOk(l, w.client, Done(w), w.submitted) && heard == l.(seen := heard.seen) && heard.seen >= l.seen
    requires Granted(l) && w.client.identified && w.client.epoch == EpochOf(l)
    ensures ContentOk(heard, w.client, Done(w), w.submitted)
  {
    hide FramesOk, PayloadsOk, Datas, RequestOk;
  }

  lemma WireHeard(l: Link, heard: Link)
    requires WireOk(l) && heard == l.(seen := heard.seen)
    ensures WireOk(heard)
  {
  }

  lemma ExposureHeard(l: Link, heard: Link, eligible: nat)
    requires ExposureOk(l, eligible) && heard == l.(seen := heard.seen)
    ensures ExposureOk(heard, eligible)
  {
    hide Datas, DataEnd;
  }

  lemma SessionHeard(l: Link, heard: Link, w: World)
    requires SessionOk(l, w.lease, w.client.clientId) && heard == l.(seen := heard.seen)
    ensures SessionOk(heard, w.lease, w.client.clientId)
  {
    hide Datas;
  }

  lemma RepliesHeard(l: Link, heard: Link, w: World)
    requires RepliesOk(l, w.ledger, w.client.clientId) && heard == l.(seen := heard.seen) &&
             heard.seen <= |l.peer.replies|
    ensures RepliesOk(heard, w.ledger, w.client.clientId)
  {
    hide Datas, Nonzero;
  }

  lemma CurrentHeard(l: Link, c: Client, client: Client, w: World)
    requires CurrentOk(l, c) && LinkOk(l, w) && 1 <= l.seen < |l.peer.replies| && c.unsent <= |c.journal|
    requires l.peer.replies[l.seen].AckReply?
    requires var accepted := l.peer.replies[l.seen].accepted;
             && c.acknowledged <= accepted <= c.acknowledged + |c.journal|
             && client.journal == c.journal[accepted - c.acknowledged..]
             && client == c.(journal := client.journal, acknowledged := accepted,
                             unsent := if c.unsent <= |client.journal| then c.unsent else |client.journal|)
    ensures CurrentOk(l.(seen := l.seen + 1), client)
  {
    hide FramesOk, PayloadsOk, Datas, DataEnd, StreamBytes, RequestOk, Nonzero, ExposureOk, SessionOk, Carries;
    var accepted := l.peer.replies[l.seen].accepted;
    assert accepted <= Start(l) + |Datas(l.sent)| by {
      assert Value(l.peer.replies[l.seen]) <= Start(l) + |Datas(l.sent[..l.done])|;
      FewerDatas(l.sent, l.done);
    }
    var heard := l.(seen := l.seen + 1);
    forall k: nat | k < |client.journal| - client.unsent
      ensures client.journal[k].generation == client.generation &&
              client.journal[k].wireEnd == DataEnd(heard.sent, client.acknowledged - Start(heard) + k)
    {
      assert client.journal[k] == c.journal[k + (accepted - c.acknowledged)];
    }
  }

  /** The client once it accepted a granted STATE. */
  function SelectedClient(c: Client, state: State): (client: Client)
    ensures client.unsent == |client.journal|
  {
    var acked := Acknowledge(c, state.accepted).client;
    acked.(epoch := state.epoch, identified := true, ready := true, unsent := |acked.journal|)
  }

  lemma SelectedOk(w: World, state: State)
    requires Inv(w) && w.phase == Online && w.client.acknowledged <= state.accepted <= w.client.eligible
    requires (w.client.identified ==> state.epoch == w.client.epoch) && state.epoch in w.ledger
    requires state.accepted <= |w.ledger[state.epoch]|
    ensures var after := w.(client := SelectedClient(w.client, state));
            && Later(w, after) && ClientOk(after.client, w.submitted) &&
               LedgerOk(w.ledger, w.epochs, after.client, w.submitted)
  {
    hide Inv, ClientOk, DropThrough, Acknowledge;
    InvParts(w);
    AcknowledgeShape(w.client, state.accepted, w.submitted);
    SelectedShape(Acknowledge(w.client, state.accepted).client, state.epoch, w.submitted, w.ledger, w.epochs);
    SelectedLedger(w, SelectedClient(w.client, state));
  }

  lemma SelectedShape(c: Client, epoch: seq<Byte>, submitted: seq<seq<Byte>>, ledger: map<seq<Byte>, seq<seq<Byte>>>,
                      epochs: set<seq<Byte>>)
    requires ClientOk(c, submitted) && epoch in ledger && |epoch| == TOKEN_SIZE && Nonzero(epoch)
    ensures ClientOk(c.(epoch := epoch, identified := true, ready := true, unsent := |c.journal|), submitted)
  {
    hide Nonzero;
  }

  lemma SelectedLedger(w: World, client: Client)
    requires LedgerOk(w.ledger, w.epochs, w.client, w.submitted) && !Done(w)
    requires client.identified && client.epoch in w.ledger && client.clientId == w.client.clientId
    requires w.client.identified ==> client.epoch == w.client.epoch
    requires w.client.acknowledged <= client.acknowledged <= |w.ledger[client.epoch]| &&
             client.eligible == w.client.eligible
    ensures LedgerOk(w.ledger, w.epochs, client, w.submitted) && Later(w, w.(client := client))
  {
    hide Nonzero;
  }

  lemma SelectKeeps(w: World, state: State)
    requires Inv(w) && w.phase == Online && Shaped(w) && Last(w).seen < |Last(w).peer.replies|
    requires Last(w).peer.replies[Last(w).seen] == StateReply(state) && state.Grants()
    ensures Inv(WithLast(w, Last(w).(seen := Last(w).seen + 1)).(client := SelectedClient(w.client, state)))
  {
    hide ClientOk, LedgerOk, Later, LinkOk, CurrentOk, LeaseOk, ConnsOk, Inv, Replay, Outgoing.Post, PutData,
         FrameBytes;
    InvParts(w);
    ReplyInRange(w);
    SelectedOk(w, state);
    var l := Last(w);
    var mid := w.(client := SelectedClient(w.client, state));
    LinkUnmoved(l, w, mid);
    LinkHeard(l, mid);
    CurrentSelected(l, w.client, state, w.submitted);
    var after := WithLast(mid, l.(seen := l.seen + 1));
    LinkSame(Last(after), mid, after);
    LaterSame(w, mid, after);
    ClientStep(w, after);
  }

  lemma CurrentSelected(l: Link, c: Client, state: State, submitted: seq<seq<Byte>>)
    requires CurrentOk(l, c) && l.seen == 0 && l.peer.replies != [] && l.peer.replies[0] == StateReply(state) &&
             state.Grants()
    requires ClientOk(c, submitted) && c.acknowledged <= state.accepted <= c.eligible && Datas(l.sent) == []
    ensures CurrentOk(l.(seen := 1), SelectedClient(c, state))
  {
    hide Datas, DataEnd, StreamBytes, Nonzero;
    AcknowledgeShape(c, state.accepted, submitted);
  }

  lemma StateHandled(w: World, state: State, size: seq<Byte>)
    requires Inv(w) && w.phase == Online && Shaped(w) && Last(w).seen < |Last(w).peer.replies|
    requires Last(w).peer.replies[Last(w).seen] == StateReply(state)
    ensures var s := HandleState(w.client, state, size);
            if !state.Grants() then s == Step(w.client, false)
            else
              var posted := PostTo(SelectedClient(w.client, state), Message(MSG_RESIZE, size));
              && posted.client == Selecting(w.client, state, size)
              && s == if !posted.ok then posted else Replay(posted.client)
  {
    hide Replay, Inv, DropThrough, Outgoing.Post;
    ReplyInRange(w);
    InvParts(w);
    if state.Grants() {
      hide ClientOk;
      AcknowledgeShape(w.client, state.accepted, w.submitted);
    }
  }

  lemma StateEnds(w: World, state: State, size: seq<Byte>)
    requires Inv(w) && w.phase == Online && Shaped(w) && Last(w).seen < |Last(w).peer.replies|
    requires Last(w).peer.replies[Last(w).seen] == StateReply(state)
    ensures Inv(Ending(w, HandleState(w.client, state, size).client))
  {
    hide LinkOk, CurrentOk, LeaseOk, ConnsOk, Replay, Inv, Outgoing.Post, FrameBytes, ClientOk, LedgerOk, Later,
         HandleState, SelectedClient, Selecting;
    InvParts(w);
    ReplyInRange(w);
    StateHandled(w, state, size);
    var s := HandleState(w.client, state, size);
    var after := Ending(w, s.client);
    if state.Grants() {
      SelectedOk(w, state);
      var mid := w.(client := SelectedClient(w.client, state));
      var posted := PostTo(mid.client, Message(MSG_RESIZE, size));
      PostShape(mid.client, Message(MSG_RESIZE, size), w.submitted);
      if posted.ok { ReplayShape(posted.client, w.submitted); }
      SameCounters(mid, mid.(client := s.client));
      LaterTwice(w, mid, after);
    } else {
      SameCounters(w, after);
    }
    EndingKeeps(w, after);
  }

  lemma LaterTwice(w: World, mid: World, after: World)
    requires Later(w, mid) && Later(mid, mid.(client := after.client)) && !Done(w)
    requires after.submitted == mid.submitted && after.ledger == mid.ledger
    ensures Later(w, after)
  {
  }

  lemma HearKeeps(w: World, size: seq<Byte>)
    requires Inv(w) && w.phase == Online && Shaped(w) && Last(w).seen < |Last(w).peer.replies|
    ensures Inv(Heard(w, size))
  {
    hide LinkOk, CurrentOk, LeaseOk, ConnsOk, Replay, Inv, Outgoing.Post, FrameBytes, ClientOk, LedgerOk, Later,
         HandleState, HandleAck, SelectedClient, Selecting, ReplayMessages;
    match Last(w).peer.replies[Last(w).seen]
    case AckReply(_) => AckKeeps(w, size);
    case StateReply(state) =>
      var s := HandleState(w.client, state, size);
      StateHandled(w, state, size);
      if !s.ok {
        StateEnds(w, state, size);
      } else {
        var m := Message(MSG_RESIZE, size);
        SelectKeeps(w, state);
        var selected := WithLast(w, Last(w).(seen := Last(w).seen + 1)).(client := SelectedClient(w.client, state));
        PostKeeps(selected, m);
        var posted := PostTo(selected.client, m).client;
        ReplayKeeps(Queued(selected, posted, [m]));
        QueuedTwice(selected, posted, m, s.client, ReplayMessages(posted));
      }
  }

  // ---- writing to the transport ------------------------------------------------------------------------

  /** The first entry above the ceiling is not on this transport up to `through`. */
  ghost predicate StopsRightly(journal: seq<Entry>, ceiling: nat, generation: nat, through: nat) {
    forall k ::
      0 <= k < |journal| && journal[k].sequence > ceiling && (k == 0 || journal[k - 1].sequence <= ceiling) ==>
        journal[k].generation != generation || journal[k].wireEnd > through
  }

  /** input_emitted_through, without its loop: the ceiling rises through exactly the
  entries that are on this transport up to `through`, and stops at the first that
  is not. */
  lemma {:induction false} EmittedExactly(journal: seq<Entry>, first: nat, eligible: nat, generation: nat, through: nat)
    requires forall k :: 0 <= k < |journal| ==> journal[k].sequence == first + 1 + k
    ensures var ceiling := Emitted(journal, eligible, generation, through);
            && eligible <= ceiling <= Max(eligible, first + |journal|)
            && (forall k :: 0 <= k < |journal| && eligible < journal[k].sequence <= ceiling ==>
                  journal[k].generation == generation && journal[k].wireEnd <= through)
            && StopsRightly(journal, ceiling, generation, through)
    decreases |journal|
  {
    var ceiling := Emitted(journal, eligible, generation, through);
    if journal != [] &&
        (journal[0].sequence <= eligible || !(journal[0].generation != generation || journal[0].wireEnd > through)) {
      var next := if journal[0].sequence <= eligible then eligible else journal[0].sequence;
      EmittedExactly(journal[1..], first + 1, next, generation, through);
      assert ceiling == Emitted(journal[1..], next, generation, through);
      forall k | 0 <= k < |journal| && eligible < journal[k].sequence <= ceiling
        ensures journal[k].generation == generation && journal[k].wireEnd <= through
      {
        if k > 0 { assert journal[k] == journal[1..][k - 1]; }
      }
      forall k | 0 <= k < |journal| && journal[k].sequence > ceiling && (k == 0 || journal[k - 1].sequence <= ceiling)
        ensures journal[k].generation != generation || journal[k].wireEnd > through
      {
        var j := k - 1;
        assert 0 <= j < |journal[1..]|;
        assert journal[1..][j].sequence > ceiling && (j == 0 || journal[1..][j - 1].sequence <= ceiling);
        assert journal[1..][j] == journal[k];
      }
    }
  }

  /** A write raises the ceiling through exactly the entries it may have carried: all
  that was offered under TLS, whatever came of it, and what was taken otherwise. */
  lemma FlushRaisesExactly(c: Client, first: nat, tls: bool, wrote: Wrote)
    requires c.out.offset + c.out.attempt <= |c.out.bytes|
    requires forall k :: 0 <= k < |c.journal| ==> c.journal[k].sequence == first + 1 + k
    ensures var (r, pending) := (FlushOut(c, tls, wrote), Pending(c.out));
            var offered := if c.out.attempt != 0 then c.out.attempt else Min(pending, 64 * 1024);
            var took := wrote.Took? && 0 < wrote.count <= offered;
            var carried := if tls then offered else if took then wrote.count else 0;
            var (ceiling, through) := (r.client.eligible, c.out.written + carried);
            && (r.ok <==> pending == 0 || took || wrote == Busy)
            && (pending == 0 || (!tls && !took) ==> ceiling == c.eligible)
            && (pending > 0 && (tls || took) ==>
                  && c.eligible <= ceiling <= Max(c.eligible, first + |c.journal|)
                  && (forall k :: 0 <= k < |c.journal| && c.eligible < c.journal[k].sequence <= ceiling ==>
                        c.journal[k].generation == c.generation && c.journal[k].wireEnd <= through)
                  && StopsRightly(c.journal, ceiling, c.generation, through))
  {
    FlushTakes(c.out, tls, wrote);
    var through := if tls then c.out.written + Attempt(c.out) else Flush(c.out, tls, wrote).0.written;
    EmittedExactly(c.journal, first, c.eligible, c.generation, through);
    hide Emitted;
    var ceiling := FlushOut(c, tls, wrote).client.eligible;
    if Pending(c.out) > 0 && (tls || (wrote.Took? && 0 < wrote.count <= Attempt(c.out))) {
      assert ceiling == Emitted(c.journal, c.eligible, c.generation, through);
    }
  }

  lemma CarriedWire(l: Link, c: Client, tls: bool, wrote: Wrote)
    requires WireOk(l) && Carries(c.out, StreamBytes(l.sent)) && c.out.written <= |l.wire|
    ensures var reach := Reach(c, tls, wrote);
            var wire := Carried(l.wire, c.out, reach);
            && WireOk(l.(wire := wire)) && |wire| == Max(|l.wire|, reach)
            && FlushOut(c, tls, wrote).client.out.written <= |wire|
  {
    hide FrameBytes, StreamBytes, Emitted, Flush, Offered, Carried;
    var stream, reach := StreamBytes(l.sent), Reach(c, tls, wrote);
    if Pending(c.out) > 0 { FlushCarries(c.out, stream, tls, wrote); }
    WireGrows(l.wire, c.out, stream, reach);
  }

  lemma WireGrows(wire: seq<Byte>, q: Queue, stream: seq<Byte>, reach: nat)
    requires Carries(q, stream) && q.written <= |wire| <= |stream| && wire == stream[..|wire|] &&
             q.offset + Attempt(q) <= |q.bytes|
    requires q.written <= reach && (reach <= |wire| || reach <= q.written + Attempt(q))
    ensures var longer := Carried(wire, q, reach);
            && |longer| == Max(|wire|, reach) && |longer| <= |stream| && longer == stream[..|longer|] &&
               |wire| <= |longer|
  {
    if reach > |wire| {
      assert Offered(q) == q.bytes[q.offset..][..Attempt(q)];
      assert Carried(wire, q, reach) == stream[..reach];
    }
  }

  /** Whatever has just become deliverable is below the new ceiling. */
  lemma ExposureCarried(l: Link, c: Client, through: nat, submitted: seq<seq<Byte>>)
    requires ExposureOk(l, c.eligible) && ClientOk(c, submitted) && CurrentOk(l, c) && through <= |StreamBytes(l.sent)|
    requires Datas(l.sent) != [] ==> l.seen >= 1
    ensures var ceiling := Emitted(c.journal, c.eligible, c.generation, through);
            && c.eligible <= ceiling <= c.sequence
            && forall n :: 0 <= n < |Datas(l.sent)| && DataEnd(l.sent, n) <= Max(|l.wire|, through) ==>
                 Start(l) + n + 1 <= ceiling
  {
    hide FrameBytes, StreamBytes, Emitted, Datas, DataEnd, Nonzero, Carries;
    var ceiling := Emitted(c.journal, c.eligible, c.generation, through);
    EmittedExactly(c.journal, c.acknowledged, c.eligible, c.generation, through);
    forall n | 0 <= n < |Datas(l.sent)| && DataEnd(l.sent, n) <= Max(|l.wire|, through)
      ensures Start(l) + n + 1 <= ceiling
    {
      if DataEnd(l.sent, n) > |l.wire| && Start(l) + n + 1 > ceiling {
        var k := ceiling - c.acknowledged;
        assert c.acknowledged - Start(l) + k <= n;
        assert k < |c.journal| - c.unsent;
        assert c.journal[k].sequence == ceiling + 1 && (k == 0 || c.journal[k - 1].sequence <= ceiling);
        assert c.journal[k].generation == c.generation;
        DataEndsRise(l.sent, c.acknowledged - Start(l) + k, n);
        assert false;
      }
    }
  }

  lemma FlushShape(c: Client, tls: bool, wrote: Wrote, submitted: seq<seq<Byte>>)
    requires ClientOk(c, submitted)
    ensures var after := FlushOut(c, tls, wrote).client;
            && after == c.(out := after.out, eligible := after.eligible) && ClientOk(after, submitted) &&
               c.eligible <= after.eligible
            && (after.eligible == c.eligible ||
                after.eligible == Emitted(c.journal, c.eligible, c.generation, Reach(c, tls, wrote)))
            && (Reach(c, tls, wrote) > c.out.written ==>
                  after.eligible == Emitted(c.journal, c.eligible, c.generation, Reach(c, tls, wrote)))
  {
    hide Emitted, Nonzero;
    EmittedExactly(c.journal, c.acknowledged, c.eligible, c.generation, Reach(c, tls, wrote));
  }

  lemma EligibleLater(w: World, after: World)
    requires after.client ==
             w.client.(out := after.client.out, eligible := after.client.eligible, ready := after.client.ready)
    requires w.client.eligible <= after.client.eligible
    requires Done(w) ==> Done(after)
    requires after.submitted == w.submitted && after.ledger == w.ledger && after.epochs == w.epochs
    ensures Later(w, after)
    ensures LedgerOk(w.ledger, w.epochs, w.client, w.submitted) ==>
              LedgerOk(after.ledger, after.epochs, after.client, after.submitted)
  {
    hide Nonzero;
  }

  lemma LostShape(c: Client, submitted: seq<seq<Byte>>)
    requires ClientOk(c, submitted)
    ensures ClientOk(Lose(c), submitted) && Carries(Lose(c).out, []) && !Lose(c).ready
  {
    hide Nonzero;
  }

  lemma LinkWritten(l: Link, w: World, wire: seq<Byte>)
    requires LinkOk(l, w) && WireOk(l.(wire := wire)) && ExposureOk(l.(wire := wire), w.client.eligible)
    ensures LinkOk(l.(wire := wire), w)
  {
    hide WireOk, ExposureOk, FramesOk, PayloadsOk, Datas, Nonzero;
  }

  lemma CurrentWritten(l: Link, c: Client, tls: bool, wrote: Wrote)
    requires CurrentOk(l, c) && FlushOut(c, tls, wrote).ok
    requires FlushOut(c, tls, wrote).client ==
             c.(out := FlushOut(c, tls, wrote).client.out, eligible := FlushOut(c, tls, wrote).client.eligible)
    requires FlushOut(c, tls, wrote).client.out.written <= |Carried(l.wire, c.out, Reach(c, tls, wrote))|
    ensures CurrentOk(l.(wire := Carried(l.wire, c.out, Reach(c, tls, wrote))), FlushOut(c, tls, wrote).client)
  {
    hide StreamBytes, Datas, DataEnd, Emitted;
    if Pending(c.out) > 0 { FlushCarries(c.out, StreamBytes(l.sent), tls, wrote); }
  }

  lemma WriteKeeps(w: World, wrote: Wrote)
    requires Inv(w) && Live(w) && Shaped(w)
    ensures Inv(Written(w, wrote))
  {
    hide ClientOk, LedgerOk, Later, LinkOk, CurrentOk, LeaseOk, ConnsOk, Inv, FlushOut, Carried, Reach, Lose, WireOk,
         ExposureOk, ContentOk, RepliesOk, SessionOk;
    InvParts(w);
    var l, c, s := Last(w), w.client, FlushOut(w.client, w.tls, wrote);
    var wire := Carried(l.wire, c.out, Reach(c, w.tls, wrote));
    FlushShape(c, w.tls, wrote, w.submitted);
    LinkParts(l, w);
    Exposed(l, c, w, wrote);
    var mid := w.(client := s.client);
    EligibleLater(w, mid);
    LinkUnmoved(l, w, mid);
    LinkWritten(l, mid, wire);
    var after := Written(w, wrote);
    LostShape(s.client, w.submitted);
    var moved := l.(wire := wire);
    if s.ok {
      CurrentWritten(l, c, w.tls, wrote);
      LinkSame(moved, mid, after);
      LaterSame(w, mid, after);
    } else {
      LoseCounters(mid, after);
      LaterTwiceAny(w, mid, after);
      LinkSame(moved, mid, mid.(links := after.links));
      LinkUnmoved(moved, mid, after);
    }
    ClientStep(w, after);
  }

  lemma Exposed(l: Link, c: Client, w: World, wrote: Wrote)
    requires WireOk(l) && ContentOk(l, c, Done(w), w.submitted) && ExposureOk(l, c.eligible) &&
             ClientOk(c, w.submitted) && CurrentOk(l, c)
    ensures var moved := l.(wire := Carried(l.wire, c.out, Reach(c, w.tls, wrote)));
            var after := FlushOut(c, w.tls, wrote).client;
            && WireOk(moved) && ExposureOk(moved, after.eligible) && after.out.written <= |moved.wire|
  {
    hide StreamBytes, Datas, DataEnd, Emitted, FlushOut, Carried, WireOk, ClientOk;
    var reach := Reach(c, w.tls, wrote);
    CarriedWire(l, c, w.tls, wrote);
    FlushShape(c, w.tls, wrote, w.submitted);
    ReachInStream(l, c, w.tls, wrote);
    ExposureCarried(l, c, reach, w.submitted);
  }

  lemma ReachInStream(l: Link, c: Client, tls: bool, wrote: Wrote)
    requires Carries(c.out, StreamBytes(l.sent))
    ensures c.out.written <= Reach(c, tls, wrote) <= |StreamBytes(l.sent)|
  {
    hide StreamBytes;
    if Pending(c.out) > 0 { FlushCarries(c.out, StreamBytes(l.sent), tls, wrote); }
  }

  lemma LoseCounters(mid: World, after: World)
    requires after.client == Lose(mid.client) || after.client == mid.client
    requires after.submitted == mid.submitted && after.ledger == mid.ledger && after.epochs == mid.epochs &&
             (Done(mid) ==> Done(after))
    ensures Later(mid, after)
    ensures LedgerOk(mid.ledger, mid.epochs, mid.client, mid.submitted) ==>
              LedgerOk(after.ledger, after.epochs, after.client, after.submitted)
  {
    hide Nonzero;
  }

  lemma LaterTwiceAny(w: World, mid: World, after: World)
    requires Later(w, mid) && Later(mid, after)
    ensures Later(w, after)
  {
  }

  // ---- connections come and go -----------------------------------------------------------------------

  lemma CutKeeps(w: World)
    requires Inv(w) && w.phase == Online
    ensures Inv(w.(client := Lose(w.client), phase := Offline))
  {
    hide ClientOk, LedgerOk, Later, LinkOk, CurrentOk, LeaseOk, ConnsOk, Inv, Lose;
    InvParts(w);
    var after := w.(client := Lose(w.client), phase := Offline);
    LostShape(w.client, w.submitted);
    LoseCounters(w, after);
    LinkUnmoved(Last(w), w, after);
    ClientStep(w, after);
  }

  lemma OpenShape(c: Client, submitted: seq<seq<Byte>>)
    requires ClientOk(c, submitted)
    ensures ClientOk(OpenSession(c).client, submitted)
    ensures var r := OpenSession(c).client; r == c.(out := r.out, ready := r.ready, generation := r.generation)
  {
    hide Outgoing.Post, FrameBytes, Nonzero, PutOpen;
    if c.generation != TWO64 - 1 {
      PostShape(c.(generation := c.generation + 1, ready := false),
                Message(MSG_INPUT_OPEN, PutOpen(OpenRequest(c.epoch, c.clientId, c.acknowledged))), submitted);
    }
  }

  lemma ConnectKeeps(w: World, conn: nat, hello: Message)
    requires Inv(w) && Legal(w, Connect(conn, hello))
    ensures Inv(Connected(w, conn, hello))
  {
    hide ClientOk, LedgerOk, Later, LinkOk, CurrentOk, LeaseOk, ConnsOk, Outgoing.Post, FrameBytes, PutOpen, Inv;
    InvParts(w);
    var c := w.client;
    var greeted := PostTo(c, hello);
    var asked := OpenSession(greeted.client);
    PostShape(c, hello, w.submitted);
    OpenShape(greeted.client, w.submitted);
    var after := Connected(w, conn, hello);
    if !greeted.ok || !asked.ok {
      SameCounters(w, after);
      EndingKeeps(w, after);
    } else {
      var mid := w.(client := asked.client);
      SameCounters(w, mid);
      NewLink(w, mid, after, conn, hello);
    }
  }

  lemma NewLink(w: World, mid: World, after: World, conn: nat, hello: Message)
    requires Inv(w) && w.phase == Offline && conn != 0 && !IsConn(w.links, conn) && conn !in w.rivals &&
             !InputKind(hello.kind)
    requires PostTo(w.client, hello).ok && OpenSession(PostTo(w.client, hello).client).ok
    requires mid == w.(client := OpenSession(PostTo(w.client, hello).client).client) &&
             after == Connected(w, conn, hello)
    requires Later(w, mid) && ClientOk(mid.client, w.submitted) && LedgerOk(w.ledger, w.epochs, mid.client, w.submitted)
    ensures Inv(after)
  {
    hide ClientOk, LedgerOk, Later, LinkOk, CurrentOk, Outgoing.Post, FrameBytes, PutOpen, Nonzero, ContentOk, WireOk,
         ExposureOk, RepliesOk, SessionOk;
    var link := Last(after);
    InvParts(w);
    assert Later(w, after) by { LaterOnline(w, mid, after); }
    LinkWire(w.client, link, hello);
    NewContent(w, after, link, hello);
    assert ExposureOk(link, after.client.eligible) by {
      NoDatas(link.sent, hello);
      NoExposure(link, after.client.eligible);
    }
    assert RepliesOk(link, after.ledger, after.client.clientId) by {
      NoReplies(link, after.ledger, after.client.clientId);
    }
    assert SessionOk(link, after.lease, after.client.clientId) by {
      NoSession(link, after.lease, after.client.clientId);
    }
    LinkWhole(link, after);
    NewCurrent(w.client, link, hello);
    forall i | 0 <= i < |after.links| ensures LinkOk(after.links[i], after) {
      if i < |w.links| { LinkUnmoved(after.links[i], w, after); }
    }
    MoreConns(w.links, link);
    LaterClient(w, after);
  }

  lemma LaterOnline(w: World, mid: World, after: World)
    requires Later(w, mid) && !Done(w)
    requires after.client == mid.client && after.submitted == mid.submitted && after.ledger == mid.ledger
    ensures Later(w, after)
  {
  }

  lemma MoreConns(links: seq<Link>, link: Link)
    ensures forall conn :: IsConn(links, conn) ==> IsConn(links + [link], conn)
  {
    forall conn | IsConn(links, conn) ensures IsConn(links + [link], conn) {
      var i :| 0 <= i < |links| && links[i].peer.conn == conn;
      assert (links + [link])[i].peer.conn == conn;
    }
  }

  lemma NoDatas(sent: seq<Message>, hello: Message)
    requires |sent| == 2 && sent[0] == hello && !InputKind(hello.kind) && sent[1].kind == MSG_INPUT_OPEN
    ensures Datas(sent) == []
  {
    assert sent[..1] == [hello] && sent[..1][..0] == [];
    assert Datas([hello]) == Datas([]);
  }

  lemma NoExposure(l: Link, eligible: nat)
    requires Datas(l.sent) == []
    ensures ExposureOk(l, eligible)
  {
  }

  lemma NoReplies(l: Link, ledger: map<seq<Byte>, seq<seq<Byte>>>, clientId: seq<Byte>)
    requires l.peer.replies == [] && !l.peer.session && l.seen == 0
    ensures RepliesOk(l, ledger, clientId)
  {
  }

  lemma NoSession(l: Link, lease: Lease, clientId: seq<Byte>)
    requires l.peer.replies == [] && !l.peer.session && lease.owner != l.peer.conn
    ensures SessionOk(l, lease, clientId)
  {
  }

  lemma LinkWire(c: Client, link: Link, hello: Message)
    requires PostTo(c, hello).ok && OpenSession(PostTo(c, hello).client).ok
    requires link.wire == [] && link.received == 0 && link.pending == [] && link.done == 0
    requires link.sent == [hello, Message(MSG_INPUT_OPEN, PutOpen(OpenRequest(c.epoch, c.clientId, c.acknowledged)))]
    ensures WireOk(link)
  {
    hide Outgoing.Post, FrameBytes, PutOpen;
    Accepted(c, hello);
    var mid := PostTo(c, hello).client;
    Accepted(mid.(generation := mid.generation + 1, ready := false), link.sent[1]);
    assert link.sent[..0] == [];
  }

  lemma NewContent(w: World, after: World, link: Link, hello: Message)
    requires ClientOk(w.client, w.submitted) && !InputKind(hello.kind) &&
             after.client == OpenSession(PostTo(w.client, hello).client).client
    requires link.seen == 0 && link.peer.replies == [] &&
             link.request == OpenRequest(w.client.epoch, w.client.clientId, w.client.acknowledged)
    requires link.sent == [hello, Message(MSG_INPUT_OPEN, PutOpen(link.request))]
    ensures ContentOk(link, after.client, Done(after), after.submitted)
  {
    hide Outgoing.Post, FrameBytes, PutOpen, PutData, PutAck;
    NoDatas(link.sent, hello);
    hide Datas;
  }

  lemma NewCurrent(c: Client, link: Link, hello: Message)
    requires PostTo(c, hello).ok && OpenSession(PostTo(c, hello).client).ok && Carries(c.out, [])
    requires link.seen == 0 && link.wire == [] && link.request == OpenRequest(c.epoch, c.clientId, c.acknowledged)
    requires link.sent == [hello, Message(MSG_INPUT_OPEN, PutOpen(link.request))]
    ensures CurrentOk(link, OpenSession(PostTo(c, hello).client).client)
  {
    hide Outgoing.Post, FrameBytes, PutOpen, Datas;
    PostCarries(c.out, [], hello);
    var mid := PostTo(c, hello).client;
    PostCarries(mid.out, FrameBytes(hello), link.sent[1]);
    StreamAppend([hello], link.sent[1]);
    StreamAppend([], hello);
    assert [hello] + [link.sent[1]] == link.sent && [] + [hello] == [hello];
    assert [] + FrameBytes(hello) == FrameBytes(hello);
  }
}
