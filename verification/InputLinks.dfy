/** Streams of frames, and what keeps each part of the acknowledged-input invariant. */
module InputLinks {
  import opened Bytes
  import opened Frame
  import opened InputSession
  import opened InputWire
  import opened Outgoing
  import opened Attach
  import opened InputWorld

  // ---- streams of frames ---------------------------------------------------------------------

  lemma {:induction false} StreamConcat(a: seq<Message>, b: seq<Message>)
    ensures StreamBytes(a + b) == StreamBytes(a) + StreamBytes(b)
  {
    hide FrameBytes;
    if a == [] {
      assert a + b == b;
    } else {
      StreamConcat(a[1..], b);
      assert (a + b)[1..] == a[1..] + b;
    }
  }

  lemma StreamAppend(a: seq<Message>, m: Message)
    ensures StreamBytes(a + [m]) == StreamBytes(a) + FrameBytes(m)
  {
    hide FrameBytes;
    StreamConcat(a, [m]);
    assert StreamBytes([m]) == FrameBytes(m) + StreamBytes([]);
  }

  lemma DatasAppend(a: seq<Message>, m: Message)
    ensures Datas(a + [m]) == Datas(a) + if m.kind == MSG_INPUT_DATA then [m.payload] else []
  {
    assert (a + [m])[..|a|] == a;
  }

  lemma DataEndAppend(a: seq<Message>, m: Message, n: nat)
    requires n < |Datas(a + [m])|
    ensures n < |Datas(a)| ==> DataEnd(a + [m], n) == DataEnd(a, n)
    ensures n >= |Datas(a)| ==> DataEnd(a + [m], n) == |StreamBytes(a + [m])|
  {
    DatasAppend(a, m);
    assert (a + [m])[..|a|] == a;
  }

  lemma {:induction false} DataEndsWithin(sent: seq<Message>, n: nat)
    requires n < |Datas(sent)|
    ensures DataEnd(sent, n) <= |StreamBytes(sent)|
    decreases |sent|
  {
    hide FrameBytes, StreamBytes;
    var init, last := sent[..|sent| - 1], sent[|sent| - 1];
    assert sent == init + [last];
    StreamAppend(init, last);
    DataEndAppend(init, last, n);
    DatasAppend(init, last);
    if n < |Datas(init)| { DataEndsWithin(init, n); }
  }

  lemma {:induction false} DataEndsRise(sent: seq<Message>, n: nat, m: nat)
    requires n <= m < |Datas(sent)|
    ensures DataEnd(sent, n) <= DataEnd(sent, m)
    decreases |sent|
  {
    hide FrameBytes, StreamBytes;
    var init, last := sent[..|sent| - 1], sent[|sent| - 1];
    assert sent == init + [last];
    DatasAppend(init, last);
    DataEndAppend(init, last, n);
    DataEndAppend(init, last, m);
    DataEndsWithin(sent, n);
    if m < |Datas(init)| { DataEndsRise(init, n, m); }
  }

  /** Frame `k`, when it is a DATA frame, is the one after those before it. */
  lemma {:induction false} DataAt(sent: seq<Message>, k: nat)
    requires k < |sent|
    ensures Datas(sent[..k + 1]) == Datas(sent[..k]) + if sent[k].kind == MSG_INPUT_DATA then [sent[k].payload] else []
    ensures Datas(sent[..k + 1]) <= Datas(sent)
    ensures sent[k].kind == MSG_INPUT_DATA ==> DataEnd(sent, |Datas(sent[..k])|) == |StreamBytes(sent[..k + 1])|
    decreases |sent|
  {
    hide FrameBytes, StreamBytes;
    var init, last := sent[..|sent| - 1], sent[|sent| - 1];
    assert sent == init + [last];
    DatasAppend(init, last);
    assert sent[..k + 1] == sent[..k] + [sent[k]];
    DatasAppend(sent[..k], sent[k]);
    if k < |init| {
      DataAt(init, k);
      assert init[..k] == sent[..k] && init[..k + 1] == sent[..k + 1];
      if sent[k].kind == MSG_INPUT_DATA { DataEndAppend(init, last, |Datas(sent[..k])|); }
    } else {
      assert sent[..k + 1] == sent;
      if sent[k].kind == MSG_INPUT_DATA { DataEndAppend(init, last, |Datas(sent[..k])|); }
    }
  }

  lemma FewerDatas(sent: seq<Message>, k: nat)
    requires k <= |sent|
    ensures |Datas(sent[..k])| <= |Datas(sent)|
  {
    hide Datas;
    if k < |sent| { DataAt(sent, k); } else { assert sent[..k] == sent; }
  }

  lemma StreamUpTo(sent: seq<Message>, k: nat)
    requires k <= |sent|
    ensures StreamBytes(sent) == StreamBytes(sent[..k]) + StreamBytes(sent[k..])
  {
    hide StreamBytes;
    StreamConcat(sent[..k], sent[k..]);
    assert sent == sent[..k] + sent[k..];
  }

  lemma EmptyStream()
    ensures StreamBytes([]) == []
  {
  }

  /** The next frame the server decodes is the next one that was sent. */
  lemma NextIsSent(l: Link)
    requires WireOk(l) && NextFrame(l.pending).Ready?
    ensures l.done < |l.sent| && NextFrame(l.pending).message == l.sent[l.done]
    ensures |StreamBytes(l.sent[..l.done + 1])| <= l.received
    ensures Consumed(l.pending) == StreamBytes(l.sent)[|StreamBytes(l.sent[..l.done + 1])|..l.received]
  {
    hide FrameBytes, NextFrame, StreamBytes, Consumed;
    var rest, start := l.sent[l.done..], |StreamBytes(l.sent[..l.done])|;
    var cut := l.received - start;
    StreamUpTo(l.sent, l.done);
    assert l.pending == StreamBytes(rest)[..cut];
    EmptyStream();
    NextEmpty();
    if rest == [] {
      assert false;
    } else {
      FirstFrame(rest, cut);
      if cut < |FrameBytes(rest[0])| {
        NextCut(l.pending, rest[0]);
        assert false;
      } else {
        NextWhole(l.pending, rest[0]);
        ConsumeShrinks(l.pending);
        assert l.sent[..l.done + 1] == l.sent[..l.done] + [l.sent[l.done]];
        StreamAppend(l.sent[..l.done], l.sent[l.done]);
      }
    }
  }


  // ---- one link at a time ----------------------------------------------------------------------

  /** What only ever grows. */
  ghost predicate Later(w: World, after: World) {
    && after.client.clientId == w.client.clientId
    && (w.client.identified ==> after.client.identified && after.client.epoch == w.client.epoch)
    && w.client.acknowledged <= after.client.acknowledged && w.client.eligible <= after.client.eligible
    && w.submitted <= after.submitted
    && (forall e :: e in w.ledger ==> e in after.ledger && |w.ledger[e]| <= |after.ledger[e]|)
    && (Done(w) ==>
          Done(after) && after.client.acknowledged == w.client.acknowledged && after.client.journal == w.client.journal)
  }

  lemma LinkLater(l: Link, w: World, after: World)
    requires LinkOk(l, w) && Later(w, after) && SessionOk(l, after.lease, after.client.clientId)
    ensures LinkOk(l, after)
  {
    hide FrameBytes, StreamBytes, Datas, DataEnd, Nonzero, PutOpen, PutAck, PutData, WireOk, SessionOk;
    ContentLater(l, w, after);
    RepliesLater(l, w, after);
  }

  lemma ContentLater(l: Link, w: World, after: World)
    requires ContentOk(l, w.client, Done(w), w.submitted) && Later(w, after)
    ensures ContentOk(l, after.client, Done(after), after.submitted)
  {
    hide FrameBytes, StreamBytes, Datas, DataEnd, Nonzero, PutOpen, PutAck, PayloadsOk;
    PayloadsLater(Datas(l.sent), Start(l), w.submitted, after.submitted);
  }

  lemma PayloadsLater(datas: seq<seq<Byte>>, start: nat, submitted: seq<seq<Byte>>, more: seq<seq<Byte>>)
    requires PayloadsOk(datas, start, submitted) && submitted <= more
    ensures PayloadsOk(datas, start, more)
  {
    hide PutData;
  }

  lemma RepliesLater(l: Link, w: World, after: World)
    requires RepliesOk(l, w.ledger, w.client.clientId) && Later(w, after)
    ensures RepliesOk(l, after.ledger, after.client.clientId)
  {
    hide Nonzero;
    if Granted(l) {
      assert EpochOf(l) in w.ledger;
    }
  }

  /** Which frames may be queued next on a link. */
  ghost predicate MaySend(l: Link, m: Message, w: World) {
    && Fits(m) && m.kind != MSG_INPUT_OPEN
    && (m.kind == MSG_INPUT_DATA ==>
          && |l.sent| >= 2 && l.seen >= 1 && Start(l) + |Datas(l.sent)| < |w.submitted|
          && m.payload == PutData(Start(l) + |Datas(l.sent)| + 1, w.submitted[Start(l) + |Datas(l.sent)|]))
    && (m.kind == MSG_INPUT_CLOSE ==>
          l.seen >= 1 && Done(w) && m.payload == PutAck(w.client.acknowledged) && w.client.journal == [])
  }

  lemma WireExtended(l: Link, m: Message)
    requires WireOk(l) && Fits(m)
    ensures WireOk(l.(sent := l.sent + [m]))
  {
    hide FrameBytes, StreamBytes;
    StreamAppend(l.sent, m);
    assert (l.sent + [m])[..l.done] == l.sent[..l.done];
  }

  lemma ContentExtended(l: Link, m: Message, w: World)
    requires ContentOk(l, w.client, Done(w), w.submitted) && MaySend(l, m, w)
    ensures ContentOk(l.(sent := l.sent + [m]), w.client, Done(w), w.submitted)
  {
    hide FrameBytes, StreamBytes, Datas, DataEnd, Nonzero, PutOpen, PutAck, PutData, Fits, FramesOk;
    DatasAppend(l.sent, m);
    FramesExtended(l, m, w);
  }

  lemma FramesExtended(l: Link, m: Message, w: World)
    requires FramesOk(l.sent, l.request, w.client, Done(w)) && MaySend(l, m, w)
    ensures FramesOk(l.sent + [m], l.request, w.client, Done(w))
  {
    hide Datas, PutOpen, PutAck, PutData, Fits;
  }

  lemma ExposureExtended(l: Link, m: Message, eligible: nat)
    requires ExposureOk(l, eligible) && WireOk(l)
    ensures ExposureOk(l.(sent := l.sent + [m]), eligible)
  {
    hide FrameBytes, StreamBytes, Datas, DataEnd;
    DatasAppend(l.sent, m);
    StreamAppend(l.sent, m);
    forall n | 0 <= n < |Datas(l.sent + [m])| && DataEnd(l.sent + [m], n) <= |l.wire|
      ensures Start(l) + n + 1 <= eligible
    {
      DataEndAppend(l.sent, m, n);
    }
  }

  lemma LinkExtended(l: Link, m: Message, w: World)
    requires LinkOk(l, w) && MaySend(l, m, w)
    ensures LinkOk(l.(sent := l.sent + [m]), w)
  {
    hide FrameBytes, StreamBytes, Datas, DataEnd, ContentOk, ExposureOk, RepliesOk, LinkOk;
    LinkParts(l, w);
    WireExtended(l, m);
    ContentExtended(l, m, w);
    ExposureExtended(l, m, w.client.eligible);
    var longer := l.(sent := l.sent + [m]);
    assert longer.sent[..l.done] == l.sent[..l.done];
    RepliesSame(l, longer, w.ledger, w.client.clientId);
    LinkWhole(longer, w);
  }

  lemma LinkParts(l: Link, w: World)
    requires LinkOk(l, w)
    ensures WireOk(l) && ContentOk(l, w.client, Done(w), w.submitted) && ExposureOk(l, w.client.eligible)
    ensures RepliesOk(l, w.ledger, w.client.clientId) && SessionOk(l, w.lease, w.client.clientId)
  {
  }

  lemma LinkWhole(l: Link, w: World)
    requires WireOk(l) && ContentOk(l, w.client, Done(w), w.submitted) && ExposureOk(l, w.client.eligible)
    requires RepliesOk(l, w.ledger, w.client.clientId) && SessionOk(l, w.lease, w.client.clientId)
    ensures LinkOk(l, w)
  {
  }

  lemma RepliesSame(l: Link, after: Link, ledger: map<seq<Byte>, seq<seq<Byte>>>, clientId: seq<Byte>)
    requires RepliesOk(l, ledger, clientId)
    requires after.peer == l.peer && after.request == l.request && after.done == l.done && after.seen == l.seen
    requires l.done <= |l.sent| && l.done <= |after.sent| && after.sent[..l.done] == l.sent[..l.done]
    ensures RepliesOk(after, ledger, clientId)
  {
  }

  // ---- the current link ---------------------------------------------------------------------------

  lemma Accepted(c: Client, m: Message)
    requires PostTo(c, m).ok
    ensures Fits(m) && PostTo(c, m).client == c.(out := Outgoing.Post(c.out, m))
  {
    hide FrameBytes;
  }

  lemma CurrentExtended(l: Link, c: Client, m: Message)
    requires CurrentOk(l, c) && PostTo(c, m).ok && m.kind != MSG_INPUT_DATA
    ensures CurrentOk(l.(sent := l.sent + [m]), PostTo(c, m).client)
  {
    hide FrameBytes, StreamBytes, Datas, DataEnd, Outgoing.Post;
    PostCarries(c.out, StreamBytes(l.sent), m);
    StreamAppend(l.sent, m);
    DatasAppend(l.sent, m);
    var after, longer := PostTo(c, m).client, l.(sent := l.sent + [m]);
    if l.seen >= 1 {
      forall k: nat | k < |c.journal| - c.unsent
        ensures c.journal[k].wireEnd == DataEnd(longer.sent, c.acknowledged - Start(l) + k)
      {
        DataEndAppend(l.sent, m, c.acknowledged - Start(l) + k);
      }
      assert Stamps(longer, after);
    }
  }

  /** Queue and stamp the entry at the replay pointer. */
  function PostedEntry(c: Client): Client
    requires 0 < c.unsent <= |c.journal|
  {
    var index := |c.journal| - c.unsent;
    Stamped(PostTo(c, DataMessage(c.journal[index])).client, index).(unsent := c.unsent - 1)
  }

  lemma CurrentData(l: Link, c: Client)
    requires CurrentOk(l, c) && 0 < c.unsent <= |c.journal| && c.ready
    requires PostTo(c, DataMessage(c.journal[|c.journal| - c.unsent])).ok
    ensures CurrentOk(l.(sent := l.sent + [DataMessage(c.journal[|c.journal| - c.unsent])]), PostedEntry(c))
  {
    hide FrameBytes, StreamBytes, Datas, DataEnd, Outgoing.Post, PutData;
    var index := |c.journal| - c.unsent;
    var m := DataMessage(c.journal[index]);
    PostCarries(c.out, StreamBytes(l.sent), m);
    StreamAppend(l.sent, m);
    DatasAppend(l.sent, m);
    var after, longer := PostedEntry(c), l.(sent := l.sent + [m]);
    forall k: nat | k <= index
      ensures after.journal[k].generation == c.generation
      ensures after.journal[k].wireEnd == DataEnd(longer.sent, c.acknowledged - Start(l) + k)
    {
      DataEndAppend(l.sent, m, c.acknowledged - Start(l) + k);
    }
    assert Stamps(longer, after);
  }

  // ---- putting a world together ------------------------------------------------------------------

  predicate Live(w: World) {
    w.phase == Online || w.phase == Closing
  }

  lemma LinkSame(l: Link, w: World, after: World)
    requires after.client == w.client && after.phase == w.phase && after.submitted == w.submitted
    requires after.ledger == w.ledger && after.lease == w.lease
    ensures LinkOk(l, after) == LinkOk(l, w)
  {
  }

  lemma SameConns(links: seq<Link>, after: seq<Link>, rivals: set<nat>)
    requires |after| == |links| && forall i :: 0 <= i < |links| ==> after[i].peer.conn == links[i].peer.conn
    ensures forall conn :: IsConn(after, conn) == IsConn(links, conn)
    ensures ConnsOk(links, rivals) ==> ConnsOk(after, rivals)
  {
    forall conn ensures IsConn(after, conn) == IsConn(links, conn) {
      if IsConn(after, conn) {
        var i :| 0 <= i < |links| && after[i].peer.conn == conn;
        assert links[i].peer.conn == conn;
      }
      if IsConn(links, conn) {
        var i :| 0 <= i < |links| && links[i].peer.conn == conn;
        assert after[i].peer.conn == conn;
      }
    }
  }

  lemma InvParts(w: World)
    requires Inv(w)
    ensures ClientOk(w.client, w.submitted) && LedgerOk(w.ledger, w.epochs, w.client, w.submitted)
    ensures forall i :: 0 <= i < |w.links| ==> LinkOk(w.links[i], w)
    ensures Live(w) ==> w.links != [] && CurrentOk(Last(w), w.client)
    ensures w.phase == Offline ==> Carries(w.client.out, []) && !w.client.ready
  {
    hide LinkOk, ClientOk, LedgerOk, CurrentOk, LeaseOk, ConnsOk;
  }

  lemma InvShaped(w: World)
    requires Inv(w)
    ensures Shaped(w)
  {
    hide LinkOk, LedgerOk, LeaseOk, ConnsOk, StreamBytes, Nonzero, Stamps, Datas;
  }

  /** Same server, same history; the links may have changed, each as itself. */
  ghost predicate ClientSide(w: World, after: World) {
    && Later(w, after) && |after.links| == |w.links|
    && (forall i :: 0 <= i < |w.links| ==> after.links[i].peer.conn == w.links[i].peer.conn)
    && (forall i :: 0 <= i < |w.links| - 1 ==> after.links[i] == w.links[i])
    && after.lease == w.lease && after.ledger == w.ledger && after.epochs == w.epochs && after.rivals == w.rivals
  }

  lemma ClientStep(w: World, after: World)
    requires Inv(w) && ClientSide(w, after)
    requires ClientOk(after.client, after.submitted) &&
             LedgerOk(after.ledger, after.epochs, after.client, after.submitted)
    requires w.links != [] ==> LinkOk(after.links[|w.links| - 1], after)
    requires Live(after) ==> after.links != [] && CurrentOk(Last(after), after.client)
    requires after.phase == Offline ==> Carries(after.client.out, []) && !after.client.ready
    ensures Inv(after)
  {
    hide LinkOk, ClientOk, LedgerOk, CurrentOk, Later, ConnsOk, LeaseOk;
    SameConns(w.links, after.links, w.rivals);
    forall i | 0 <= i < |w.links| ensures LinkOk(after.links[i], after) {
      if i < |w.links| - 1 { LinkUnmoved(after.links[i], w, after); }
    }
    assert LeaseOk(after.lease, after.links, after.client, after.ledger, after.epochs, after.rivals) by {
      LaterClient(w, after);
      LeaseUnmoved(w, after);
    }
  }

  lemma LinkUnmoved(l: Link, w: World, after: World)
    requires LinkOk(l, w) && Later(w, after) && after.lease == w.lease
    ensures LinkOk(l, after)
  {
    hide LinkOk, SessionOk, Later;
    LinkParts(l, w);
    LaterClient(w, after);
    LinkLater(l, w, after);
  }

  lemma LaterClient(w: World, after: World)
    requires Later(w, after)
    ensures after.client.clientId == w.client.clientId
  {
  }

  lemma LeaseUnmoved(w: World, after: World)
    requires LeaseOk(w.lease, w.links, w.client, w.ledger, w.epochs, w.rivals)
    requires forall conn :: IsConn(after.links, conn) == IsConn(w.links, conn)
    requires after.lease == w.lease && after.ledger == w.ledger && after.epochs == w.epochs && after.rivals == w.rivals
    requires after.client.clientId == w.client.clientId
    ensures LeaseOk(after.lease, after.links, after.client, after.ledger, after.epochs, after.rivals)
  {
    hide Nonzero;
  }
}
