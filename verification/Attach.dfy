/** The client side of acknowledged input (tools/kmx_attach.c): a journal of
unacknowledged payloads, transport generations, an emission ceiling and a
replay pointer, over the outgoing queue. */
module Attach {
  import opened Bytes
  import opened Frame
  import opened InputSession
  import opened InputWire
  import opened Outgoing

  const JOURNAL_BYTES: nat := 256 * 1024
  const JOURNAL_ENTRIES: nat := 4096
  const MSG_RESIZE: Byte := 4

  /** `generation` and `wireEnd` say where the entry last went on the wire. */
  datatype Entry = Entry(sequence: nat, generation: nat, wireEnd: nat, data: seq<Byte>)

  /** The replay pointer is represented by the number of entries from it to the
  journal's end: zero stands for no pointer. */
  datatype Client = Client(
    out: Queue, ready: bool, identified: bool, epoch: seq<Byte>, clientId: seq<Byte>,
    acknowledged: nat, sequence: nat, eligible: nat, generation: nat,
    journal: seq<Entry>, unsent: nat)

  datatype Step = Step(client: Client, ok: bool)

  function InitialClient(clientId: seq<Byte>): Client {
    Client(EMPTY_QUEUE, false, false, NO_TOKEN, clientId, 0, 0, 0, 0, [], 0)
  }

  function DataMessage(entry: Entry): Message {
    Message(MSG_INPUT_DATA, PutData(entry.sequence, entry.data))
  }

  function JournalBytes(journal: seq<Entry>): nat {
    if journal == [] then 0 else |journal[0].data| + JournalBytes(journal[1..])
  }

  predicate HasRoom(c: Client) {
    c.ready && c.unsent == 0 && JournalBytes(c.journal) < JOURNAL_BYTES && |c.journal| < JOURNAL_ENTRIES
  }

  /** input_emitted_through: the ceiling after walking the journal. */
  function Emitted(journal: seq<Entry>, eligible: nat, generation: nat, through: nat): nat {
    if journal == [] then eligible
    else if journal[0].sequence <= eligible then Emitted(journal[1..], eligible, generation, through)
    else if journal[0].generation != generation || journal[0].wireEnd > through then eligible
    else Emitted(journal[1..], journal[0].sequence, generation, through)
  }

  /** send_message: any failure ends the client. */
  function PostTo(c: Client, message: Message): Step {
    var out := Post(c.out, message);
    Step(c.(out := out), !out.failed)
  }

  function OpenSession(c: Client): Step {
    if c.generation == TWO64 - 1 then Step(c, false)
    else
      var request := OpenRequest(c.epoch, c.clientId, c.acknowledged);
      PostTo(c.(generation := c.generation + 1, ready := false), Message(MSG_INPUT_OPEN, PutOpen(request)))
  }

  function DropThrough(journal: seq<Entry>, accepted: nat): (rest: seq<Entry>)
    ensures |rest| <= |journal|
  {
    if journal != [] && journal[0].sequence <= accepted then DropThrough(journal[1..], accepted) else journal
  }

  /** input_acknowledge: an acknowledgement outside the two counters is refused. */
  function Acknowledge(c: Client, accepted: nat): Step {
    if accepted < c.acknowledged || accepted > c.eligible then Step(c, false)
    else
      var journal := DropThrough(c.journal, accepted);
      Step(c.(journal := journal, unsent := if c.unsent <= |journal| then c.unsent else |journal|,
              acknowledged := accepted), true)
  }

  function Stamped(c: Client, index: nat): Client
    requires index < |c.journal|
  {
    c.(journal := c.journal[index := c.journal[index].(generation := c.generation, wireEnd := c.out.queued)])
  }

  /** input_replay. */
  function Replay(c: Client): Step
    requires c.unsent <= |c.journal|
    decreases c.unsent
  {
    if !c.ready || c.unsent == 0 || Pending(c.out) >= SOFT_LIMIT then Step(c, true)
    else
      var index := |c.journal| - c.unsent;
      var posted := PostTo(c, DataMessage(c.journal[index]));
      if !posted.ok then posted
      else Replay(Stamped(posted.client, index).(unsent := c.unsent - 1))
  }

  /** input_send. */
  function SendInput(c: Client, data: seq<Byte>): Step {
    if data == [] then Step(c, true)
    else if !HasRoom(c) || |data| > DATA_MAX || c.sequence == TWO64 - 1 then Step(c, false)
    else
      var entry := Entry(c.sequence + 1, 0, 0, data);
      var kept := c.(journal := c.journal + [entry], sequence := c.sequence + 1);
      var posted := PostTo(kept, DataMessage(entry));
      if !posted.ok then posted else Step(Stamped(posted.client, |c.journal|), true)
  }

  /** input_close, which only a fully acknowledged journal may send. */
  function CloseSession(c: Client): Client {
    if !c.ready || c.journal != [] || c.out.failed then c
    else PostTo(c, Message(MSG_INPUT_CLOSE, PutAck(c.acknowledged))).client
  }

  /** The INPUT_STATE arm; `size` is the RESIZE payload that follows it. */
  function HandleState(c: Client, state: State, size: seq<Byte>): Step
    requires c.unsent <= |c.journal|
  {
    if c.ready || state.clientId != c.clientId then Step(c, false)
    else if state.status != READY then Step(c, false)
    else if state.graceMs == 0 || (c.identified && state.epoch != c.epoch) then Step(c, false)
    else
      var acked := Acknowledge(c, state.accepted);
      if !acked.ok then Step(c, false)
      else
        var selected :=
          acked.client.(epoch := state.epoch, identified := true, ready := true, unsent := |acked.client.journal|);
        var posted := PostTo(selected, Message(MSG_RESIZE, size));
        if !posted.ok then posted else Replay(posted.client)
  }

  /** The INPUT_ACK arm. */
  function HandleAck(c: Client, accepted: nat): Step {
    if !c.ready then Step(c, false) else Acknowledge(c, accepted)
  }

  /** outgoing_flush with its two emission points: before a TLS write, which may
  deliver whole records and still fail, and after a plain one. */
  function FlushOut(c: Client, tls: bool, wrote: Wrote): Step
    requires c.out.offset <= |c.out.bytes|
  {
    if Pending(c.out) == 0 then Step(c, true)
    else
      var (after, ok) := Flush(c.out, tls, wrote);
      var through := if tls then c.out.written + Attempt(c.out) else after.written;
      var eligible :=
        if tls || (ok && wrote.Took?) then Emitted(c.journal, c.eligible, c.generation, through) else c.eligible;
      Step(c.(out := after, eligible := eligible), ok)
  }

  /** The connection is gone; the journal is not. */
  function Lose(c: Client): Client {
    c.(ready := false, out := Discard(c.out))
  }

  // ---- what each call brings about -------------------------------------------------------

  /** An entry whose payload went on the wire again in this generation. */
  ghost predicate Resent(before: Entry, after: Entry, generation: nat) {
    && after.sequence == before.sequence && after.data == before.data
    && after.generation == generation
  }

  /** Exactly the entries from the replay pointer of `c` to that of `after` were. */
  ghost predicate ResentUpTo(c: Client, after: Client) {
    && after.unsent <= c.unsent <= |c.journal| == |after.journal|
    && forall k :: 0 <= k < |c.journal| ==>
         if |c.journal| - c.unsent <= k < |c.journal| - after.unsent
         then Resent(c.journal[k], after.journal[k], c.generation) else after.journal[k] == c.journal[k]
  }

  /** Replay goes on until nothing is left to replay or 256 KiB are pending. It queues
  entry by entry, stamps exactly those it queued, and fails only with the queue. */
  lemma {:induction false} ReplayGoesOn(c: Client)
    requires c.unsent <= |c.journal|
    ensures var r := Replay(c);
            && r.client == c.(out := r.client.out, journal := r.client.journal, unsent := r.client.unsent)
            && (r.ok && c.ready ==> r.client.unsent == 0 || Pending(r.client.out) >= 256 * 1024)
            && (!r.ok ==> r.client.out.failed)
            && (c.unsent > 0 && c.ready && r.ok && Pending(c.out) < 256 * 1024 ==> r.client.unsent < c.unsent)
            && ResentUpTo(c, r.client)
    decreases c.unsent
  {
    hide Outgoing.Post, FrameBytes, PutData, ResentUpTo;
    if c.ready && c.unsent != 0 && Pending(c.out) < SOFT_LIMIT {
      var index := |c.journal| - c.unsent;
      var posted := PostTo(c, DataMessage(c.journal[index]));
      if posted.ok {
        var next := Stamped(posted.client, index).(unsent := c.unsent - 1);
        ReplayGoesOn(next);
        ResentOne(c, posted.client.out, Replay(next).client);
      } else {
        ResentNone(c, posted.client);
      }
    } else {
      ResentNone(c, c);
    }
    assert Replay(c).client.unsent <= c.unsent by { ResentLess(c, Replay(c).client); }
  }

  lemma ResentNone(c: Client, after: Client)
    requires c.unsent <= |c.journal| && after == c.(out := after.out)
    ensures ResentUpTo(c, after)
  {
  }

  lemma ResentLess(c: Client, after: Client)
    requires ResentUpTo(c, after)
    ensures after.unsent <= c.unsent
  {
  }

  lemma ResentOne(c: Client, out: Queue, after: Client)
    requires 0 < c.unsent <= |c.journal|
    requires var next := Stamped(c.(out := out), |c.journal| - c.unsent).(unsent := c.unsent - 1);
             ResentUpTo(next, after)
    ensures ResentUpTo(c, after)
  {
    var next := Stamped(c.(out := out), |c.journal| - c.unsent).(unsent := c.unsent - 1);
    assert forall k :: 0 <= k < |c.journal| && k != |c.journal| - c.unsent ==> next.journal[k] == c.journal[k];
  }

  /** Exactly when typing is journalled: in a ready session with nothing left to
  replay, fewer than 256 KiB and 4096 entries in the journal, at most 32 KiB at
  once, and a number left. It is then sent too, or the queue failed. */
  lemma TypedIff(c: Client, data: seq<Byte>)
    requires data != []
    ensures var r := SendInput(c, data);
            if c.ready && c.unsent == 0 && JournalBytes(c.journal) < 256 * 1024 && |c.journal| < 4096 &&
               |data| <= 32 * 1024 && c.sequence != TWO64 - 1
            then
              && r.client.sequence == c.sequence + 1 && |r.client.journal| == |c.journal| + 1
              && r.client.journal[..|c.journal|] == c.journal && r.client.unsent == 0
              && r.client.journal[|c.journal|].sequence == c.sequence + 1
              && r.client.journal[|c.journal|].data == data
              && (r.ok <==> !r.client.out.failed)
              && (r.ok ==> r.client.journal[|c.journal|].generation == c.generation)
            else r == Step(c, false)
  {
    hide Outgoing.Post, FrameBytes, PutData, JournalBytes;
    assert HasRoom(c) <==>
           c.ready && c.unsent == 0 && JournalBytes(c.journal) < 256 * 1024 && |c.journal| < 4096;
  }

  /** Exactly which grants a client that may take one accepts: its own, ready, with a
  grace, in the epoch it knows if it knows one, and with a counter between what it
  knows to be counted and what can have been sent. */
  lemma GrantAcceptedIff(c: Client, state: State, size: seq<Byte>)
    requires c.unsent <= |c.journal|
    ensures var r := HandleState(c, state, size);
            if !c.ready && state.clientId == c.clientId && state.status == READY && state.graceMs > 0 &&
               (c.identified ==> state.epoch == c.epoch) && c.acknowledged <= state.accepted <= c.eligible
            then
              && r.client.epoch == state.epoch && r.client.identified && r.client.ready
              && r.client.acknowledged == state.accepted && r.client.sequence == c.sequence
              && (r.ok <==> !r.client.out.failed)
              && (r.ok ==> r.client.unsent == 0 || Pending(r.client.out) >= 256 * 1024)
            else r == Step(c, false)
  {
    hide Replay, Outgoing.Post, DropThrough, FrameBytes;
    var acked := Acknowledge(c, state.accepted);
    assert acked.ok <==> c.acknowledged <= state.accepted <= c.eligible;
    if acked.ok {
      var selected :=
        acked.client.(epoch := state.epoch, identified := true, ready := true, unsent := |acked.client.journal|);
      var posted := PostTo(selected, Message(MSG_RESIZE, size));
      ReplayGoesOn(posted.client);
      if posted.ok { ReplayWorks(posted.client); }
    }
  }

  /** Exactly which acknowledgements a client in a session takes. */
  lemma AckAcceptedIff(c: Client, accepted: nat)
    ensures var r := HandleAck(c, accepted);
            if c.ready && c.acknowledged <= accepted <= c.eligible
            then r.ok && r.client.acknowledged == accepted && r.client.sequence == c.sequence && r.client.out == c.out
            else r == Step(c, false)
  {
  }

  /** A replay that succeeds leaves a queue that works. */
  lemma {:induction false} ReplayWorks(c: Client)
    requires c.unsent <= |c.journal| && !c.out.failed
    ensures Replay(c).ok <==> !Replay(c).client.out.failed
    decreases c.unsent
  {
    hide Outgoing.Post, FrameBytes, PutData;
    if c.ready && c.unsent != 0 && Pending(c.out) < SOFT_LIMIT {
      var index := |c.journal| - c.unsent;
      var posted := PostTo(c, DataMessage(c.journal[index]));
      if posted.ok { ReplayWorks(Stamped(posted.client, index).(unsent := c.unsent - 1)); }
    }
  }

  /** A goodbye is queued exactly by a ready client with an empty journal whose queue
  takes it, and carries the counter. */
  lemma ClosesIff(c: Client, stream: seq<Byte>)
    requires Carries(c.out, stream)
    ensures var after := CloseSession(c);
            var goodbye := Message(MSG_INPUT_CLOSE, PutAck(c.acknowledged));
            if c.ready && c.journal == [] && !c.out.failed then
              && after == c.(out := after.out)
              && Carries(after.out, if after.out.failed then stream else stream + FrameBytes(goodbye))
              && (Pending(c.out) < 256 * 1024 && c.out.queued + 64 < TWO64 ==> !after.out.failed)
            else after == c
  {
    hide Outgoing.Post, FrameBytes, PutAck, Carries;
    var goodbye := Message(MSG_INPUT_CLOSE, PutAck(c.acknowledged));
    PostCarries(c.out, stream, goodbye);
    if c.ready && c.journal == [] && !c.out.failed && Pending(c.out) < 256 * 1024 && c.out.queued + 64 < TWO64 {
      AckSize(c.acknowledged);
      CarriesBounds(c.out, stream);
      RoomBelowSoftLimit(c.out, goodbye);
    }
  }

  lemma CarriesBounds(q: Queue, stream: seq<Byte>)
    requires Carries(q, stream)
    ensures q.offset <= |q.bytes|
  {
  }

  lemma AckSize(value: nat)
    ensures |PutAck(value)| <= 16
  {
  }

  // ---- the client as the source runs it -----------------------------------------------------

  class InputClient {
    const out: SendQueue
    var ready: bool
    var identified: bool
    var epoch: seq<Byte>
    const clientId: seq<Byte>
    var acknowledged: nat
    var sequence: nat
    var eligible: nat
    var generation: nat
    var bytes: nat
    var entries: nat
    var journal: seq<Entry>
    var unsent: nat

    ghost predicate Valid()
      reads this, out
    {
      out.Valid() && bytes == JournalBytes(journal) && entries == |journal| && unsent <= |journal|
    }

    ghost function View(): Client
      requires Valid()
      reads this, out, out.data
    {
      Client(out.View(), ready, identified, epoch, clientId, acknowledged, sequence, eligible, generation, journal,
             unsent)
    }

    constructor (clientId: seq<Byte>)
      ensures Valid() && fresh(out) && fresh(out.data) && View() == InitialClient(clientId)
    {
      out := new SendQueue();
      ready, identified, epoch := false, false, NO_TOKEN;
      this.clientId := clientId;
      acknowledged, sequence, eligible, generation := 0, 0, 0, 0;
      bytes, entries, journal, unsent := 0, 0, [], 0;
    }

    /** The message joins the bytes this transport carries, whole, or the client
    is to end and they stay as they were. */
    method SendMessage(message: Message) returns (ok: bool)
      requires Valid()
      modifies out, out.data
      ensures Valid() && (out.data == old(out.data) || fresh(out.data))
      ensures Step(View(), ok) == PostTo(old(View()), message)
      ensures forall stream :: Carries(old(View()).out, stream) ==>
                Carries(View().out, if ok then stream + FrameBytes(message) else stream)
    {
      hide FrameBytes;
      ghost var before := out.View();
      ok := out.Send(message);
      forall stream | Carries(before, stream)
        ensures Carries(out.View(), if ok then stream + FrameBytes(message) else stream)
      {
        PostCarries(before, stream, message);
      }
    }

    method EmittedThrough(through: nat)
      requires Valid()
      modifies this`eligible
      ensures Valid() && View() == old(View()).(eligible := Emitted(journal, old(eligible), generation, through))
    {
      var index := 0;
      ghost var all := Emitted(journal, eligible, generation, through);
      assert journal[0..] == journal;
      while index < |journal|
        invariant index <= |journal|
        invariant all == Emitted(journal[index..], eligible, generation, through)
      {
        var entry := journal[index];
        assert journal[index..][1..] == journal[index + 1..];
        if entry.sequence > eligible {
          if entry.generation != generation || entry.wireEnd > through { break; }
          eligible := entry.sequence;
        }
        index := index + 1;
      }
    }

    method FlushTo(tls: bool, wrote: Wrote) returns (ok: bool)
      requires Valid()
      modifies this`eligible, out, out.data
      ensures Valid() && out.data == old(out.data)
      ensures Step(View(), ok) == FlushOut(old(View()), tls, wrote)
    {
      var pending := out.PendingBytes();
      if pending == 0 { return true; }
      if tls {
        var length := if out.attempt != 0 then out.attempt else Min(pending, WRITE_BUDGET);
        EmittedThrough(out.written + length);
      }
      ok := out.FlushOnce(tls, wrote);
      if !tls && ok && wrote.Took? { EmittedThrough(out.written); }
    }

    method OpenInput() returns (ok: bool)
      requires Valid()
      modifies this`ready, this`generation, out, out.data
      ensures Valid() && (out.data == old(out.data) || fresh(out.data))
      ensures Step(View(), ok) == OpenSession(old(View()))
    {
      if generation == TWO64 - 1 { return false; }
      generation := generation + 1;
      ready := false;
      ok := SendMessage(Message(MSG_INPUT_OPEN, PutOpen(OpenRequest(epoch, clientId, acknowledged))));
    }

    method AcknowledgeThrough(accepted: nat) returns (ok: bool)
      requires Valid()
      modifies this`journal, this`unsent, this`bytes, this`entries, this`acknowledged
      ensures Valid() && Step(View(), ok) == Acknowledge(old(View()), accepted)
    {
      if accepted < acknowledged || accepted > eligible { return false; }
      while journal != [] && journal[0].sequence <= accepted
        invariant DropThrough(journal, accepted) == DropThrough(old(journal), accepted)
        invariant unsent == (if old(unsent) <= |journal| then old(unsent) else |journal|)
        invariant bytes == JournalBytes(journal) && entries == |journal|
        decreases |journal|
      {
        if unsent == |journal| { unsent := unsent - 1; }
        bytes, entries := bytes - |journal[0].data|, entries - 1;
        journal := journal[1..];
      }
      acknowledged := accepted;
      ok := true;
    }

    method Stamp(index: nat)
      requires Valid() && index < |journal|
      modifies this`journal
      ensures Valid() && View() == Stamped(old(View()), index)
    {
      SameBytes(journal, index, journal[index].(generation := generation, wireEnd := out.queued));
      journal := journal[index := journal[index].(generation := generation, wireEnd := out.queued)];
    }

    lemma SameBytes(entries: seq<Entry>, index: nat, entry: Entry)
      requires index < |entries| && |entry.data| == |entries[index].data|
      ensures JournalBytes(entries[index := entry]) == JournalBytes(entries)
    {
      if index > 0 {
        SameBytes(entries[1..], index - 1, entry);
        assert entries[index := entry][1..] == entries[1..][index - 1 := entry];
      } else {
        assert entries[index := entry][1..] == entries[1..];
      }
    }

    lemma MoreBytes(entries: seq<Entry>, entry: Entry)
      ensures JournalBytes(entries + [entry]) == JournalBytes(entries) + |entry.data|
    {
      if entries != [] {
        MoreBytes(entries[1..], entry);
        assert (entries + [entry])[1..] == entries[1..] + [entry];
      }
    }

    method ReplayPending() returns (ok: bool)
      requires Valid()
      modifies this`journal, this`unsent, out, out.data
      ensures Valid() && (out.data == old(out.data) || fresh(out.data))
      ensures Step(View(), ok) == Replay(old(View()))
      ensures ok && ready ==> unsent == 0 || Pending(View().out) >= 256 * 1024
      ensures ResentUpTo(old(View()), View())
    {
      hide FrameBytes, PutData, Outgoing.Post, Replay, ResentUpTo;
      ReplayGoesOn(View());
      while ready && unsent > 0 && out.PendingBytes() < SOFT_LIMIT
        invariant Valid() && ready == old(ready) && (out.data == old(out.data) || fresh(out.data))
        invariant Replay(View()) == Replay(old(View()))
        decreases unsent
      {
        ReplayNext(View());
        var index := |journal| - unsent;
        var posted := SendMessage(DataMessage(journal[index]));
        if !posted { return false; }
        Stamp(index);
        unsent := unsent - 1;
      }
      ReplayNext(View());
      ok := true;
    }

    lemma ReplayNext(c: Client)
      requires c.unsent <= |c.journal|
      ensures !c.ready || c.unsent == 0 || Pending(c.out) >= SOFT_LIMIT ==> Replay(c) == Step(c, true)
      ensures c.ready && c.unsent != 0 && Pending(c.out) < SOFT_LIMIT ==>
        var index := |c.journal| - c.unsent;
        var posted := PostTo(c, DataMessage(c.journal[index]));
        Replay(c) == if !posted.ok then posted else Replay(Stamped(posted.client, index).(unsent := c.unsent - 1))
    {
      hide Outgoing.Post, DataMessage;
    }

    method Type(data: seq<Byte>) returns (ok: bool)
      requires Valid()
      modifies this`journal, this`bytes, this`entries, this`sequence, out, out.data
      ensures Valid() && (out.data == old(out.data) || fresh(out.data))
      ensures Step(View(), ok) == SendInput(old(View()), data)
    {
      hide FrameBytes, PutData;
      if data == [] { return true; }
      if !ready || unsent != 0 || bytes >= JOURNAL_BYTES || entries >= JOURNAL_ENTRIES ||
         |data| > DATA_MAX || sequence == TWO64 - 1 { return false; }
      var entry := Entry(sequence + 1, 0, 0, data);
      MoreBytes(journal, entry);
      journal, bytes, entries, sequence := journal + [entry], bytes + |data|, entries + 1, sequence + 1;
      ok := SendMessage(DataMessage(entry));
      if ok { Stamp(|journal| - 1); }
    }

    method CloseInput()
      requires Valid()
      modifies out, out.data
      ensures Valid() && (out.data == old(out.data) || fresh(out.data))
      ensures View() == CloseSession(old(View()))
    {
      if !ready || journal != [] || out.failed { return; }
      var _ := SendMessage(Message(MSG_INPUT_CLOSE, PutAck(acknowledged)));
    }

    method OnState(state: State, size: seq<Byte>) returns (ok: bool)
      requires Valid()
      modifies this, out, out.data
      ensures Valid() && (out.data == old(out.data) || fresh(out.data))
      ensures Step(View(), ok) == HandleState(old(View()), state, size)
    {
      hide FrameBytes, Replay, Post;
      if ready || state.clientId != clientId { return false; }
      if state.status != READY { return false; }
      if state.graceMs == 0 || (identified && state.epoch != epoch) { return false; }
      ok := AcknowledgeThrough(state.accepted);
      if !ok { return; }
      epoch, identified, ready, unsent := state.epoch, true, true, |journal|;
      ok := SendMessage(Message(MSG_RESIZE, size));
      if !ok { return; }
      ok := ReplayPending();
    }

    method OnAck(accepted: nat) returns (ok: bool)
      requires Valid()
      modifies this
      ensures Valid() && Step(View(), ok) == HandleAck(old(View()), accepted)
    {
      if !ready { return false; }
      ok := AcknowledgeThrough(accepted);
    }

    /** Nothing is carried any more and the session must be asked for again; the
    journal, the counters and the epoch are what they were. */
    method ConnectionLost()
      requires Valid()
      modifies this`ready, out
      ensures Valid() && out.data == old(out.data)
      ensures Carries(View().out, []) && !ready && out.failed == old(out.failed)
      ensures View() == Lose(old(View()))
    {
      hide JournalBytes, Carries;
      ready := false;
      out.DiscardAll();
    }
  }
}
