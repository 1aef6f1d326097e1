/** Screen synchronisation as a protocol: a sender, an ordered stream whose
messages may be skipped, a receiver, and acknowledgements that may be late,
repeated or lost. */
module SyncProtocol {
  import opened Bytes
  import opened Screen
  import opened Codec
  import opened Wire
  import opened Sync

  /** screens[s - 1] is the snapshot sequence s was sent for; `floor` is the last
  sequence issued before the baseline was last reset. */
  datatype History = History(screens: seq<Grid>, floor: nat)

  function ScreenAt(h: History, s: nat): Grid
    requires 1 <= s <= |h.screens|
  {
    h.screens[s - 1]
  }

  // ---- what the sender's state means -------------------------------------------------

  ghost predicate Shaped(sender: Sender) {
    |sender.rowChangedAt| == MAX_DIMENSION && |sender.history| == HISTORY
  }

  ghost predicate SlotsTrue(sender: Sender, h: History) {
    && Distinct(sender.history)
    && forall k :: 0 <= k < |sender.history| && sender.history[k].used ==>
         h.floor < sender.history[k].sequence <= |h.screens| &&
         sender.history[k].state == ScreenAt(h, sender.history[k].sequence)
  }

  ghost predicate Retains(sender: Sender, sequence: nat) {
    exists k :: 0 <= k < |sender.history| && sender.history[k].used && sender.history[k].sequence == sequence
  }

  /** Every change between neighbouring screens since the reset is owed at least
  until its sequence is acknowledged. A row a smaller screen lacks is owed when
  it comes back. */
  ghost predicate RowOwed(sender: Sender, h: History, t: nat, row: nat)
    requires 1 <= t <= |h.screens| && row < |sender.rowChangedAt|
  {
    (t == 1 || t == h.floor + 1 || !SameRow(ScreenAt(h, t - 1), ScreenAt(h, t), row)) ==> sender.rowChangedAt[row] >= t
  }

  ghost predicate RowsOwed(sender: Sender, h: History)
    requires |sender.rowChangedAt| == MAX_DIMENSION
  {
    forall t, row :: h.floor < t <= |h.screens| && 0 <= row < ScreenAt(h, t).rows && row < MAX_DIMENSION ==>
      RowOwed(sender, h, t, row)
  }

  ghost predicate CursorOwed(sender: Sender, h: History, t: nat)
    requires 1 <= t <= |h.screens|
  {
    (t == 1 || t == h.floor + 1 || !SameCursor(ScreenAt(h, t - 1), ScreenAt(h, t))) ==> sender.cursorChangedAt >= t
  }

  ghost predicate CursorsOwed(sender: Sender, h: History) {
    forall t :: h.floor < t <= |h.screens| ==> CursorOwed(sender, h, t)
  }

  ghost predicate ScreensWellFormed(h: History) {
    forall k :: 0 <= k < |h.screens| ==> WellFormedGrid(h.screens[k])
  }

  ghost predicate OwedAtMost(sender: Sender, newest: nat) {
    && (forall r :: 0 <= r < |sender.rowChangedAt| ==> sender.rowChangedAt[r] <= newest)
    && sender.cursorChangedAt <= newest
  }

  /** Nothing is owed without a change: what is marked was new at the sequence it is
  marked with. */
  ghost predicate RowEarned(sender: Sender, h: History, row: nat)
    requires row < |sender.rowChangedAt|
  {
    var t := sender.rowChangedAt[row];
    t == 0 ||
    (h.floor < t <= |h.screens| && (t == h.floor + 1 || !SameRow(ScreenAt(h, t - 1), ScreenAt(h, t), row)))
  }

  ghost predicate CursorEarned(sender: Sender, h: History) {
    var t := sender.cursorChangedAt;
    t == 0 || (h.floor < t <= |h.screens| && (t == h.floor + 1 || !SameCursor(ScreenAt(h, t - 1), ScreenAt(h, t))))
  }

  ghost predicate Earned(sender: Sender, h: History) {
    (forall row :: 0 <= row < |sender.rowChangedAt| ==> RowEarned(sender, h, row)) && CursorEarned(sender, h)
  }

  ghost predicate SenderInv(sender: Sender, h: History) {
    && Shaped(sender) && ScreensWellFormed(h) && OwedAtMost(sender, |h.screens|) && Earned(sender, h)
    && sender.nextSequence == |h.screens| + 1
    && h.floor <= sender.ackedSequence <= |h.screens|
    && (sender.ackedValid ==> sender.ackedSequence > h.floor && sender.acked == ScreenAt(h, sender.ackedSequence))
    && (!sender.ackedValid ==> sender.ackedSequence == h.floor)
    && SlotsTrue(sender, h)
    && (h.floor < |h.screens| ==> Retains(sender, |h.screens|))
    && RowsOwed(sender, h) && CursorsOwed(sender, h)
  }

  lemma InitialSenderInv(rows: nat, cols: nat)
    requires ValidDimensions(rows, cols)
    ensures SenderInv(InitialSender(rows, cols), History([], 0))
  {
  }

  /** The screen compared against is the newest one sent since the reset. */
  lemma LastSentIsNewest(sender: Sender, h: History)
    requires SenderInv(sender, h)
    ensures LastSent(sender) == if h.floor < |h.screens| then Some(ScreenAt(h, |h.screens|)) else None
  {
    var newest := |h.screens|;
    AtOrBeforeIsBest(sender.history, newest, 0, None);
    var best := AtOrBefore(sender.history, newest);
    if h.floor < newest {
      var k :| 0 <= k < |sender.history| && sender.history[k].used && sender.history[k].sequence == newest;
      assert sender.history[k].sequence <= sender.history[best.value].sequence;
    }
  }

  lemma NextSlotSafe(sender: Sender, h: History)
    requires SenderInv(sender, h)
    ensures var r := NextSlot(sender.history, sender.ackedSequence);
            && r.Some? && Chosen(sender.history, sender.ackedSequence, r.value)
            && Expendable(sender.history, sender.ackedSequence, r.value)
  {
    hide Chosen, Expendable;
    NextSlotExpendable(sender.history, sender.ackedSequence);
  }

  // ---- the key lemma --------------------------------------------------------------------

  /** A row not owed has not changed - nor has the screen's size - in any screen
  from the acknowledged one to the newest. */
  lemma {:induction false} UnowedRowConstant(sender: Sender, h: History, row: nat, t: nat)
    requires SenderInv(sender, h) && h.floor < sender.ackedSequence <= t <= |h.screens|
    requires row < ScreenAt(h, |h.screens|).rows && row < MAX_DIMENSION
    requires sender.rowChangedAt[row] <= sender.ackedSequence
    ensures SameRow(ScreenAt(h, t), ScreenAt(h, |h.screens|), row)
    decreases |h.screens| - t
  {
    assert WellFormedGrid(h.screens[|h.screens| - 1]);
    if t < |h.screens| {
      UnowedRowConstant(sender, h, row, t + 1);
      assert RowOwed(sender, h, t + 1, row);
    }
  }

  lemma {:induction false} UnowedCursorConstant(sender: Sender, h: History, t: nat)
    requires SenderInv(sender, h) && h.floor < sender.ackedSequence <= t <= |h.screens|
    requires sender.cursorChangedAt <= sender.ackedSequence
    ensures SameCursor(ScreenAt(h, t), ScreenAt(h, |h.screens|))
    decreases |h.screens| - t
  {
    if t < |h.screens| {
      UnowedCursorConstant(sender, h, t + 1);
      assert CursorOwed(sender, h, t + 1);
    }
  }

  // ---- what every sender step keeps ----------------------------------------------------------

  function Extend(h: History, current: Grid): History {
    h.(screens := h.screens + [current])
  }

  lemma RememberedRowsOwed(sender: Sender, h: History, current: Grid, slot: nat)
    requires SenderInv(sender, h) && WellFormedGrid(current) && slot < HISTORY
    ensures RowsOwed(Remembered(sender, current, slot), Extend(h, current))
  {
    hide WellFormedRow, RowInRange, Distinct;
    var after, h' := Remembered(sender, current, slot), Extend(h, current);
    LastSentIsNewest(sender, h);
    forall t, row | h'.floor < t <= |h'.screens| && 0 <= row < ScreenAt(h', t).rows && row < MAX_DIMENSION
      ensures RowOwed(after, h', t, row)
    {
      if t <= |h.screens| {
        assert ScreenAt(h', t) == ScreenAt(h, t);
        assert t > 1 ==> ScreenAt(h', t - 1) == ScreenAt(h, t - 1);
        assert RowOwed(sender, h, t, row);
      } else {
        assert ScreenAt(h', t) == current;
        assert t > 1 ==> ScreenAt(h', t - 1) == ScreenAt(h, t - 1);
      }
    }
  }

  lemma RememberedCursorsOwed(sender: Sender, h: History, current: Grid, slot: nat)
    requires SenderInv(sender, h) && WellFormedGrid(current) && slot < HISTORY
    ensures CursorsOwed(Remembered(sender, current, slot), Extend(h, current))
  {
    hide WellFormedRow, RowInRange, Distinct;
    var after, h' := Remembered(sender, current, slot), Extend(h, current);
    LastSentIsNewest(sender, h);
    forall t | h'.floor < t <= |h'.screens| ensures CursorOwed(after, h', t) {
      assert t > 1 ==> ScreenAt(h', t - 1) == ScreenAt(h, t - 1);
      if t <= |h.screens| {
        assert ScreenAt(h', t) == ScreenAt(h, t);
        assert CursorOwed(sender, h, t);
      }
    }
  }

  lemma RememberedEarned(sender: Sender, h: History, current: Grid, slot: nat)
    requires SenderInv(sender, h) && WellFormedGrid(current) && slot < HISTORY
    ensures Earned(Remembered(sender, current, slot), Extend(h, current))
  {
    LastSentIsNewest(sender, h);
    hide WellFormedRow, RowInRange, Distinct, RowsOwed, CursorsOwed, SlotsTrue, LastSent;
    var after, h' := Remembered(sender, current, slot), Extend(h, current);
    assert forall s :: 1 <= s <= |h.screens| ==> ScreenAt(h', s) == ScreenAt(h, s);
    forall row | 0 <= row < |after.rowChangedAt| ensures RowEarned(after, h', row) {
      assert RowEarned(sender, h, row);
    }
  }

  lemma RememberedInv(sender: Sender, h: History, current: Grid, slot: nat)
    requires SenderInv(sender, h) && WellFormedGrid(current) && slot < HISTORY
    ensures SenderInv(Remembered(sender, current, slot), Extend(h, current))
  {
    RememberedRowsOwed(sender, h, current, slot);
    RememberedCursorsOwed(sender, h, current, slot);
    RememberedEarned(sender, h, current, slot);
    hide RowsOwed, CursorsOwed, Earned, WellFormedGrid, LastSent;
    var after, h' := Remembered(sender, current, slot), Extend(h, current);
    assert after.history[slot].used && after.history[slot].sequence == |h'.screens|;
    assert forall s :: 1 <= s <= |h.screens| ==> ScreenAt(h', s) == ScreenAt(h, s);
  }

  lemma PollKeepsInv(sender: Sender, h: History, current: Grid, due: bool)
    requires SenderInv(sender, h) && WellFormedGrid(current)
    ensures NextSlot(sender.history, sender.ackedSequence).Some?
    ensures var (after, outcome) := PollResult(sender, current, due);
            SenderInv(after, if outcome.Sent? then Extend(h, current) else h)
  {
    hide SenderInv, Remembered, EncodeRows;
    assert Shaped(sender) by { ShapedInv(sender, h); }
    NextSlotSafe(sender, h);
    var slot := NextSlot(sender.history, sender.ackedSequence);
    RememberedInv(sender, h, current, slot.value);
  }

  lemma ShapedInv(sender: Sender, h: History)
    requires SenderInv(sender, h)
    ensures Shaped(sender)
  {
  }

  lemma AckKeepsInv(sender: Sender, h: History, sequence: nat)
    requires SenderInv(sender, h)
    ensures SenderInv(AckResult(sender, sequence).0, h)
  {
    hide ScreensWellFormed, Distinct;
    AtOrBeforeIsBest(sender.history, sequence, 0, None);
    var after := AckResult(sender, sequence).0;
    assert after.history == sender.history && after.rowChangedAt == sender.rowChangedAt;
    assert Earned(after, h) by {
      forall row | 0 <= row < |after.rowChangedAt| ensures RowEarned(after, h, row) {
        assert RowEarned(sender, h, row);
      }
    }
    assert h.floor < |h.screens| ==> Retains(after, |h.screens|);
    assert RowsOwed(after, h) by {
      forall t, row | h.floor < t <= |h.screens| && 0 <= row < ScreenAt(h, t).rows && row < MAX_DIMENSION
        ensures RowOwed(after, h, t, row)
      {
        assert RowOwed(sender, h, t, row);
      }
    }
    assert CursorsOwed(after, h) by {
      forall t | h.floor < t <= |h.screens| ensures CursorOwed(after, h, t) {
        assert CursorOwed(sender, h, t);
      }
    }
  }

  lemma ResetKeepsInv(sender: Sender, h: History)
    requires SenderInv(sender, h)
    ensures SenderInv(ResetResult(sender), h.(floor := |h.screens|))
  {
    hide WellFormedGrid;
  }

  // ---- messages -------------------------------------------------------------------------------

  /** A message applies correctly over the screen of every sequence from its base
  on, and over any grid at all when it has none (base zero). */
  datatype Packet = Packet(sequence: nat, base: nat, bytes: seq<Byte>)

  ghost predicate Delivers(zstd: Zstd, h: History, packet: Packet, held: Grid) {
    && ValidGrid(held) && 1 <= packet.sequence <= |h.screens|
    && ReceiverApply(zstd, held, packet.bytes) == Received(ScreenAt(h, packet.sequence), Ok, packet.sequence)
  }

  ghost predicate PacketGood(zstd: Zstd, h: History, packet: Packet) {
    && 1 <= packet.sequence <= |h.screens| && packet.base < packet.sequence
    && (packet.base > 0 ==>
          forall p :: packet.base <= p < packet.sequence ==> Delivers(zstd, h, packet, ScreenAt(h, p)))
    && (packet.base == 0 ==> forall held: Grid :: ValidGrid(held) ==> Delivers(zstd, h, packet, held))
  }

  function PacketFor(zstd: Zstd, sender: Sender, outcome: Outcome): Packet
    requires outcome.Sent?
  {
    Packet(outcome.sequence, if outcome.fromScratch then 0 else sender.ackedSequence,
           PutCells(zstd, outcome.sequence, outcome.body))
  }

  /** The screens the receiver may show agree with the baseline on every row the
  message will not replace whole. */
  lemma HeldAgrees(sender: Sender, h: History, current: Grid, p: nat)
    requires SenderInv(sender, h) && WellFormedGrid(current) && Baseline(sender, current).Some?
    requires sender.ackedSequence <= p <= |h.screens|
    ensures var held := ScreenAt(h, p);
            var mask := RepairMask(sender, LastSent(sender), current);
            && ValidGrid(held) && ValidGrid(sender.acked)
            && forall r :: 0 <= r < current.rows && !mask[r] ==>
                 SameSize(held, current) && held.cells[r] == sender.acked.cells[r]
  {
    hide WellFormedRow, RowInRange, RowsOwed, CursorsOwed, SlotsTrue;
    var held, mask := ScreenAt(h, p), RepairMask(sender, LastSent(sender), current);
    assert WellFormedGrid(h.screens[p - 1]) && WellFormedGrid(h.screens[sender.ackedSequence - 1]);
    LastSentIsNewest(sender, h);
    forall r | 0 <= r < current.rows && !mask[r]
      ensures SameSize(held, current) && held.cells[r] == sender.acked.cells[r]
    {
      assert !NeedsRepair(sender, LastSent(sender), current, r);
      UnowedRowConstant(sender, h, r, p);
      UnowedRowConstant(sender, h, r, sender.ackedSequence);
    }
  }

  /** Every message poll produces is good for every screen its receiver may show. */
  lemma PollPacketGood(zstd: Zstd, sender: Sender, h: History, current: Grid, due: bool)
    requires Lossless(zstd) && SenderInv(sender, h) && WellFormedGrid(current) && |h.screens| + 1 < TWO64
    requires NextSlot(sender.history, sender.ackedSequence).Some?
    requires PollResult(sender, current, due).1.Sent?
    ensures PacketGood(zstd, Extend(h, current), PacketFor(zstd, sender, PollResult(sender, current, due).1))
  {
    hide SenderInv, WellFormedGrid, ReceiverApply, PutCells, EncodeRows, NeedsRepair, IsQuiet;
    assert Shaped(sender) && sender.nextSequence == |h.screens| + 1 && sender.ackedSequence <= |h.screens| by {
      SequenceInv(sender, h);
    }
    WellFormedIsValid(current);
    var base, mask := Baseline(sender, current), RepairMask(sender, LastSent(sender), current);
    var packet, h' := PacketFor(zstd, sender, PollResult(sender, current, due).1), Extend(h, current);
    assert packet.bytes == PutCells(zstd, packet.sequence, EncodeRows(base, current, mask));
    assert ScreenAt(h', packet.sequence) == current;
    if base.None? {
      forall held: Grid | ValidGrid(held) ensures Delivers(zstd, h', packet, held) {
        ReceiverInvertsSender(zstd, packet.sequence, base, current, mask, held);
      }
    } else {
      assert sender.ackedSequence > 0 by { SequenceInv(sender, h); }
      forall p | packet.base <= p < packet.sequence ensures Delivers(zstd, h', packet, ScreenAt(h', p)) {
        assert ScreenAt(h', p) == ScreenAt(h, p);
        HeldAgrees(sender, h, current, p);
        ReceiverInvertsSender(zstd, packet.sequence, base, current, mask, ScreenAt(h, p));
      }
    }
  }

  lemma SequenceInv(sender: Sender, h: History)
    requires SenderInv(sender, h)
    ensures Shaped(sender) && sender.nextSequence == |h.screens| + 1 && h.floor <= sender.ackedSequence <= |h.screens|
    ensures sender.ackedValid ==> sender.ackedSequence > h.floor
  {
  }

  lemma WellFormedIsValid(grid: Grid)
    requires WellFormedGrid(grid)
    ensures ValidGrid(grid) && |grid.cells| == grid.rows
  {
  }

  lemma PacketStaysGood(zstd: Zstd, h: History, current: Grid, packet: Packet)
    requires PacketGood(zstd, h, packet)
    ensures PacketGood(zstd, Extend(h, current), packet)
  {
    hide ReceiverApply, ValidGrid;
    var h' := Extend(h, current);
    assert ScreenAt(h', packet.sequence) == ScreenAt(h, packet.sequence);
    if packet.base == 0 {
      forall held: Grid | ValidGrid(held) ensures Delivers(zstd, h', packet, held) {
        assert Delivers(zstd, h, packet, held);
      }
    } else {
      forall p | packet.base <= p < packet.sequence ensures Delivers(zstd, h', packet, ScreenAt(h', p)) {
        assert ScreenAt(h', p) == ScreenAt(h, p);
        assert Delivers(zstd, h, packet, ScreenAt(h, p));
      }
    }
  }

  // ---- the protocol ------------------------------------------------------------------------------

  /** `position` is the sequence of the screen the receiver shows, zero while it
  has applied nothing; `acks` are all acknowledgements ever sent, since any may
  arrive at any time and any number of times. */
  datatype World = World(sender: Sender, h: History, stream: seq<Packet>,
                         receiver: Grid, position: nat, acks: set<nat>)

  datatype Event =
    | Poll(current: Grid, due: bool)
    | Deliver
    | Skip
    | Acknowledge(sequence: nat)
    | Reset
    | Attach(receiver: Grid)

  ghost predicate Enabled(w: World, event: Event) {
    match event
    case Poll(current, _) => WellFormedGrid(current) && |w.h.screens| + 1 < TWO64
    case Deliver => w.stream != []
    case Skip => w.stream != []
    case Acknowledge(sequence) => sequence in w.acks
    case Reset => true
    case Attach(receiver) => ValidGrid(receiver)
  }

  /** What the sender's and receiver's code relies on; every reachable world has it. */
  ghost predicate Defined(w: World) {
    Shaped(w.sender) && NextSlot(w.sender.history, w.sender.ackedSequence).Some? && ValidGrid(w.receiver)
  }

  ghost function Step(zstd: Zstd, w: World, event: Event): World
    requires Enabled(w, event) && Defined(w)
  {
    match event
    case Poll(current, due) =>
      var (sender, outcome) := PollResult(w.sender, current, due);
      if outcome.Sent? then
        w.(sender := sender, h := Extend(w.h, current), stream := w.stream + [PacketFor(zstd, w.sender, outcome)])
      else w.(sender := sender)
    case Deliver =>
      var r := ReceiverApply(zstd, w.receiver, w.stream[0].bytes);
      if r.status == Ok then
        w.(stream := w.stream[1..], receiver := r.grid, position := r.sequence, acks := w.acks + {r.sequence})
      else w.(stream := w.stream[1..], receiver := r.grid)
    case Skip => w.(stream := w.stream[1..])
    case Acknowledge(sequence) => w.(sender := AckResult(w.sender, sequence).0)
    case Reset => w.(sender := ResetResult(w.sender), h := w.h.(floor := |w.h.screens|))
    case Attach(receiver) =>
      w.(sender := ResetResult(w.sender), h := w.h.(floor := |w.h.screens|),
         stream := [], receiver := receiver, position := 0)
  }

  ghost predicate StreamGood(zstd: Zstd, w: World) {
    && (forall i :: 0 <= i < |w.stream| ==> PacketGood(zstd, w.h, w.stream[i]))
    && (forall i :: 0 <= i < |w.stream| ==> w.position < w.stream[i].sequence)
    && (forall i, j :: 0 <= i < j < |w.stream| ==> w.stream[i].sequence < w.stream[j].sequence)
    && (forall i :: 0 <= i < |w.stream| ==> w.stream[i].base <= w.position)
  }

  ghost predicate Honest(w: World) {
    && (forall a :: a in w.acks ==> 1 <= a <= |w.h.screens| && (a <= w.h.floor || a <= w.position))
    && (w.sender.ackedValid ==> w.sender.ackedSequence <= w.position)
  }

  ghost predicate Shows(w: World) {
    && ValidGrid(w.receiver) && w.position <= |w.h.screens|
    && (w.position > 0 ==> w.receiver == ScreenAt(w.h, w.position))
  }

  ghost predicate WorldInv(zstd: Zstd, w: World) {
    SenderInv(w.sender, w.h) && StreamGood(zstd, w) && Honest(w) && Shows(w)
  }

  function InitialWorld(rows: nat, cols: nat, receiver: Grid): World {
    World(InitialSender(rows, cols), History([], 0), [], receiver, 0, {})
  }

  lemma InitialWorldInv(zstd: Zstd, rows: nat, cols: nat, receiver: Grid)
    requires ValidDimensions(rows, cols) && ValidGrid(receiver)
    ensures WorldInv(zstd, InitialWorld(rows, cols, receiver))
  {
    InitialSenderInv(rows, cols);
  }

  /** Whatever was skipped before it, the message at the head of the stream turns
  what the receiver shows into the screen it was sent for. */
  lemma HeadDelivers(zstd: Zstd, w: World)
    requires WorldInv(zstd, w) && w.stream != []
    ensures Delivers(zstd, w.h, w.stream[0], w.receiver)
  {
    hide SenderInv, ReceiverApply, ValidGrid;
    var packet := w.stream[0];
    assert PacketGood(zstd, w.h, packet);
    if packet.base > 0 {
      assert Delivers(zstd, w.h, packet, ScreenAt(w.h, w.position));
    }
  }

  lemma PollOutcome(sender: Sender, current: Grid, due: bool)
    requires Shaped(sender) && ValidGrid(current) && NextSlot(sender.history, sender.ackedSequence).Some?
    ensures var (after, outcome) := PollResult(sender, current, due);
            && after.ackedValid == sender.ackedValid && after.ackedSequence == sender.ackedSequence
            && (outcome.Sent? ==>
                  outcome.sequence == sender.nextSequence && (!outcome.fromScratch ==> sender.ackedValid))
  {
    hide EncodeRows, IsQuiet;
  }

  lemma WorldDefined(zstd: Zstd, w: World)
    requires WorldInv(zstd, w)
    ensures Defined(w)
  {
    NextSlotSafe(w.sender, w.h);
  }

  lemma PollStep(zstd: Zstd, w: World, current: Grid, due: bool)
    requires Lossless(zstd) && WorldInv(zstd, w) && Enabled(w, Event.Poll(current, due)) && Defined(w)
    ensures WorldInv(zstd, Step(zstd, w, Event.Poll(current, due)))
  {
    hide SenderInv, ValidGrid, PacketGood, PollResult;
    WellFormedIsValid(current);
    hide WellFormedGrid;
    PollKeepsInv(w.sender, w.h, current, due);
    SequenceInv(w.sender, w.h);
    PollOutcome(w.sender, current, due);
    var (sender, outcome) := PollResult(w.sender, current, due);
    var w' := Step(zstd, w, Event.Poll(current, due));
    if outcome.Sent? {
      PollPacketGood(zstd, w.sender, w.h, current, due);
      forall i | 0 <= i < |w.stream|
        ensures PacketGood(zstd, w'.h, w.stream[i]) && w.stream[i].sequence <= |w.h.screens|
      {
        PacketInRange(zstd, w.h, w.stream[i]);
        PacketStaysGood(zstd, w.h, current, w.stream[i]);
      }
    }
  }

  lemma PacketInRange(zstd: Zstd, h: History, packet: Packet)
    requires PacketGood(zstd, h, packet)
    ensures 1 <= packet.sequence <= |h.screens|
  {
    hide Delivers, ValidGrid;
  }

  lemma DeliverOutcome(zstd: Zstd, w: World)
    requires WorldInv(zstd, w) && w.stream != [] && Defined(w)
    ensures 1 <= w.stream[0].sequence <= |w.h.screens| && ValidGrid(ScreenAt(w.h, w.stream[0].sequence))
    ensures Step(zstd, w, Deliver) ==
            w.(stream := w.stream[1..], receiver := ScreenAt(w.h, w.stream[0].sequence),
               position := w.stream[0].sequence, acks := w.acks + {w.stream[0].sequence})
  {
    HeadDelivers(zstd, w);
    PacketInRange(zstd, w.h, w.stream[0]);
    ScreenIsWellFormed(w.sender, w.h, w.stream[0].sequence);
    hide SenderInv, ReceiverApply, ValidGrid, PacketGood, StreamGood, Honest, Shows;
    assert WellFormedGrid(ScreenAt(w.h, w.stream[0].sequence));
  }

  lemma DeliverStep(zstd: Zstd, w: World)
    requires WorldInv(zstd, w) && w.stream != [] && Defined(w)
    ensures WorldInv(zstd, Step(zstd, w, Deliver))
  {
    hide SenderInv, ReceiverApply, ValidGrid, PacketGood, Defined;
    DeliverOutcome(zstd, w);
    hide Step;
    var w' := Step(zstd, w, Deliver);
    assert forall i :: 0 <= i < |w'.stream| ==> w'.stream[i] == w.stream[i + 1];
  }

  lemma SkipStep(zstd: Zstd, w: World)
    requires WorldInv(zstd, w) && w.stream != [] && Defined(w)
    ensures WorldInv(zstd, Step(zstd, w, Skip))
  {
    hide SenderInv, ValidGrid, PacketGood;
    var w' := Step(zstd, w, Skip);
    assert forall i :: 0 <= i < |w'.stream| ==> w'.stream[i] == w.stream[i + 1];
  }

  lemma AcknowledgeStep(zstd: Zstd, w: World, sequence: nat)
    requires WorldInv(zstd, w) && sequence in w.acks && Defined(w)
    ensures WorldInv(zstd, Step(zstd, w, Acknowledge(sequence)))
  {
    hide ValidGrid, PacketGood;
    AckKeepsInv(w.sender, w.h, sequence);
    assert w.h.floor <= w.sender.ackedSequence;
    hide SenderInv;
    AtOrBeforeIsBest(w.sender.history, sequence, 0, None);
  }

  lemma ResetStep(zstd: Zstd, w: World, event: Event)
    requires WorldInv(zstd, w) && Enabled(w, event) && Defined(w) && (event.Reset? || event.Attach?)
    ensures WorldInv(zstd, Step(zstd, w, event))
  {
    hide ValidGrid;
    ResetKeepsInv(w.sender, w.h);
    hide SenderInv, Delivers;
    var w' := Step(zstd, w, event);
    forall i | 0 <= i < |w'.stream| ensures PacketGood(zstd, w'.h, w'.stream[i]) {
      PacketKeptByReset(zstd, w.h, w.stream[i]);
    }
  }

  lemma PacketKeptByReset(zstd: Zstd, h: History, packet: Packet)
    requires PacketGood(zstd, h, packet)
    ensures PacketGood(zstd, h.(floor := |h.screens|), packet)
  {
    hide ReceiverApply, ValidGrid;
    var h' := h.(floor := |h.screens|);
    if packet.base == 0 {
      forall held: Grid | ValidGrid(held) ensures Delivers(zstd, h', packet, held) {
        assert Delivers(zstd, h, packet, held);
      }
    } else {
      forall p | packet.base <= p < packet.sequence ensures Delivers(zstd, h', packet, ScreenAt(h', p)) {
        assert Delivers(zstd, h, packet, ScreenAt(h, p));
      }
    }
  }

  lemma StepKeepsInv(zstd: Zstd, w: World, event: Event)
    requires Lossless(zstd) && WorldInv(zstd, w) && Enabled(w, event)
    ensures Defined(w) && WorldInv(zstd, Step(zstd, w, event))
  {
    WorldDefined(zstd, w);
    hide WorldInv, Step;
    match event
    case Poll(current, due) => PollStep(zstd, w, current, due);
    case Deliver => DeliverStep(zstd, w);
    case Skip => SkipStep(zstd, w);
    case Acknowledge(sequence) => AcknowledgeStep(zstd, w, sequence);
    case Reset => ResetStep(zstd, w, event);
    case Attach(_) => ResetStep(zstd, w, event);
  }

  /** A run: worlds[0] is initial and each event leads from one world to the next. */
  ghost predicate IsRun(zstd: Zstd, worlds: seq<World>, events: seq<Event>) {
    && |worlds| == |events| + 1
    && forall i :: 0 <= i < |events| ==>
         Enabled(worlds[i], events[i]) && (Defined(worlds[i]) ==> worlds[i + 1] == Step(zstd, worlds[i], events[i]))
  }

  lemma {:induction false} RunKeepsInv(zstd: Zstd, worlds: seq<World>, events: seq<Event>, i: nat)
    requires Lossless(zstd) && IsRun(zstd, worlds, events) && i < |worlds| && WorldInv(zstd, worlds[0])
    ensures WorldInv(zstd, worlds[i])
  {
    if i > 0 {
      RunKeepsInv(zstd, worlds, events, i - 1);
      hide WorldInv, Step;
      StepKeepsInv(zstd, worlds[i - 1], events[i - 1]);
    }
  }

  /** Convergence. In every run from a fresh sender - any mixture of polls over any
  screens, deliveries, skipped messages, acknowledgements late, repeated or
  lost, baseline resets and newly attached receivers - whenever the receiver
  applies a message it reports that message's sequence and shows exactly the
  screen snapshotted for it. */
  lemma Convergence(zstd: Zstd, rows: nat, cols: nat, receiver: Grid, worlds: seq<World>, events: seq<Event>, i: nat)
    requires Lossless(zstd) && ValidDimensions(rows, cols) && ValidGrid(receiver)
    requires IsRun(zstd, worlds, events) && worlds[0] == InitialWorld(rows, cols, receiver)
    requires i < |events| && events[i] == Deliver
    ensures var sequence := worlds[i].stream[0].sequence;
            && 1 <= sequence <= |worlds[i].h.screens|
            && worlds[i + 1].position == sequence
            && worlds[i + 1].receiver == ScreenAt(worlds[i].h, sequence)
  {
    InitialWorldInv(zstd, rows, cols, receiver);
    RunKeepsInv(zstd, worlds, events, i);
    WorldDefined(zstd, worlds[i]);
    DeliverOutcome(zstd, worlds[i]);
  }

  // ---- silence -----------------------------------------------------------------------------------

  /** When poll has nothing to say, every screen the receiver could hold - the
  acknowledged one or any sent since - is the current one, cursor included. */
  lemma QuietIsSound(sender: Sender, h: History, current: Grid, p: nat)
    requires SenderInv(sender, h) && WellFormedGrid(current) && IsQuiet(sender, current)
    requires sender.ackedSequence <= p <= |h.screens|
    ensures ScreenAt(h, p) == current
  {
    hide SenderInv, WellFormedRow, RowInRange;
    SequenceInv(sender, h);
    LastSentIsNewest(sender, h);
    var newest := ScreenAt(h, |h.screens|);
    assert LastSent(sender) == Some(newest);
    assert !RowChangedSince(LastSent(sender), current, 0);
    assert SameSize(newest, current);
    forall r | 0 <= r < current.rows ensures SameRow(ScreenAt(h, p), current, r) {
      assert !NeedsRepair(sender, LastSent(sender), current, r) && !RowChangedSince(LastSent(sender), current, r);
      UnowedRowConstant(sender, h, r, p);
    }
    UnowedCursorConstant(sender, h, p);
    assert SameRow(ScreenAt(h, p), current, 0);
    ScreenIsWellFormed(sender, h, p);
    forall r | 0 <= r < current.rows ensures ScreenAt(h, p).cells[r] == current.cells[r] {
      assert SameRow(ScreenAt(h, p), current, r);
    }
    assert ScreenAt(h, p).cells == current.cells;
  }

  lemma ScreenIsWellFormed(sender: Sender, h: History, p: nat)
    requires SenderInv(sender, h) && 1 <= p <= |h.screens|
    ensures WellFormedGrid(ScreenAt(h, p))
  {
  }

  /** In the protocol: a silent sender's receiver shows the current screen. */
  lemma QuietReceiverIsCurrent(zstd: Zstd, w: World, current: Grid)
    requires WorldInv(zstd, w) && WellFormedGrid(current)
    requires |w.sender.rowChangedAt| == MAX_DIMENSION && IsQuiet(w.sender, current)
    ensures w.receiver == current
    ensures forall i :: 0 <= i < |w.stream| ==>
              1 <= w.stream[i].sequence <= |w.h.screens| && ScreenAt(w.h, w.stream[i].sequence) == current
  {
    WellFormedIsValid(current);
    assert current.rows <= MAX_DIMENSION;
    hide PacketGood, ValidGrid, IsQuiet;
    assert w.sender.ackedValid by { QuietIsAcked(w.sender, current); }
    SequenceInv(w.sender, w.h);
    QuietIsSound(w.sender, w.h, current, w.position);
    forall i | 0 <= i < |w.stream|
      ensures 1 <= w.stream[i].sequence <= |w.h.screens| && ScreenAt(w.h, w.stream[i].sequence) == current
    {
      PacketInRange(zstd, w.h, w.stream[i]);
      QuietIsSound(w.sender, w.h, current, w.stream[i].sequence);
    }
  }

  lemma QuietIsAcked(sender: Sender, current: Grid)
    requires current.rows <= |sender.rowChangedAt| && IsQuiet(sender, current)
    ensures sender.ackedValid
  {
  }

  /** Acknowledging the newest message makes an unchanged screen silent. */
  lemma NewestAckSilences(sender: Sender, h: History, due: bool)
    requires SenderInv(sender, h) && h.floor < |h.screens|
    ensures var after, screen := AckResult(sender, |h.screens|).0, ScreenAt(h, |h.screens|);
            && Shaped(after) && ValidGrid(screen) && NextSlot(after.history, after.ackedSequence).Some?
            && PollResult(after, screen, due) == (after, Quiet)
  {
    hide Expendable, WellFormedRow, RowInRange, RowsOwed, CursorsOwed;
    var newest, screen := |h.screens|, ScreenAt(h, |h.screens|);
    var after := AckResult(sender, newest).0;
    ScreenIsWellFormed(sender, h, newest);
    AtOrBeforeIsBest(sender.history, newest, 0, None);
    LastSentIsNewest(sender, h);
    AckKeepsInv(sender, h, newest);
    NextSlotSafe(after, h);
    LastSentIsNewest(after, h);
    assert after.ackedSequence == newest && after.acked == screen;
    forall r | 0 <= r < screen.rows
      ensures !RowChangedSince(LastSent(after), screen, r) && !NeedsRepair(after, LastSent(after), screen, r)
    {
      assert after.rowChangedAt[r] <= newest;
    }
  }

  // ---- when something is sent ------------------------------------------------------------------

  /** Every screen the receiver may hold has the size of the current one, and the
  same content in this row. */
  ghost predicate SteadyRow(h: History, from: nat, current: Grid, row: nat)
    requires 1 <= from
  {
    forall p :: from <= p <= |h.screens| ==>
      SameSize(ScreenAt(h, p), current) && SameRow(ScreenAt(h, p), ScreenAt(h, |h.screens|), row)
  }

  lemma SteadyRowUnowed(sender: Sender, h: History, current: Grid, row: nat)
    requires SenderInv(sender, h) && sender.ackedValid && row < MAX_DIMENSION
    ensures SteadyRow(h, sender.ackedSequence, current, row) ==> sender.rowChangedAt[row] <= sender.ackedSequence
  {
    hide ScreensWellFormed, RowsOwed, CursorsOwed, SlotsTrue;
    var t := sender.rowChangedAt[row];
    assert RowEarned(sender, h, row);
    if t > sender.ackedSequence {
      assert !SameRow(ScreenAt(h, t - 1), ScreenAt(h, t), row);
      assert !(SameRow(ScreenAt(h, t - 1), ScreenAt(h, |h.screens|), row) &&
               SameRow(ScreenAt(h, t), ScreenAt(h, |h.screens|), row));
    }
  }

  lemma UnowedRowSteady(sender: Sender, h: History, current: Grid, row: nat)
    requires SenderInv(sender, h) && sender.ackedValid && WellFormedGrid(current) && row < current.rows
    requires sender.rowChangedAt[row] <= sender.ackedSequence && SameSize(ScreenAt(h, |h.screens|), current)
    ensures SteadyRow(h, sender.ackedSequence, current, row)
  {
    hide WellFormedRow, RowInRange;
    assert row < current.rows <= MAX_DIMENSION;
    forall p | sender.ackedSequence <= p <= |h.screens|
      ensures SameSize(ScreenAt(h, p), current) && SameRow(ScreenAt(h, p), ScreenAt(h, |h.screens|), row)
    {
      hide SenderInv;
      UnowedRowConstant(sender, h, row, p);
    }
  }

  /** A row is sent whole if and only if the screens the receiver may hold do not all
  have the current size and the same content in it. */
  lemma RepairedIffInDoubt(sender: Sender, h: History, current: Grid, row: nat)
    requires SenderInv(sender, h) && WellFormedGrid(current) && row < current.rows
    ensures current.rows <= |sender.rowChangedAt|
    ensures RepairMask(sender, LastSent(sender), current)[row] <==>
            !(sender.ackedValid && SteadyRow(h, sender.ackedSequence, current, row))
  {
    WellFormedIsValid(current);
    SequenceInv(sender, h);
    LastSentIsNewest(sender, h);
    hide WellFormedGrid, LastSent, ScreensWellFormed;
    if sender.ackedValid {
      if SteadyRow(h, sender.ackedSequence, current, row) {
        SteadyRowUnowed(sender, h, current, row);
        assert SameSize(ScreenAt(h, |h.screens|), current);
      } else if sender.rowChangedAt[row] <= sender.ackedSequence && SameSize(ScreenAt(h, |h.screens|), current) {
        UnowedRowSteady(sender, h, current, row);
      }
    } else if h.floor < |h.screens| && SameSize(ScreenAt(h, |h.screens|), current) {
      NewOwedRow(sender, h, row);
    }
  }

  /** While nothing is acknowledged every row is owed. */
  lemma NewOwedRow(sender: Sender, h: History, row: nat)
    requires SenderInv(sender, h) && h.floor < |h.screens| && row < ScreenAt(h, |h.screens|).rows && row < MAX_DIMENSION
    requires !sender.ackedValid
    ensures sender.rowChangedAt[row] > sender.ackedSequence
  {
    hide ScreensWellFormed, SlotsTrue, CursorsOwed, Earned;
    if sender.rowChangedAt[row] <= h.floor { UnmarkedRow(sender, h, row, |h.screens|); }
  }

  lemma {:induction false} UnmarkedRow(sender: Sender, h: History, row: nat, t: nat)
    requires SenderInv(sender, h) && h.floor < t <= |h.screens| && row < ScreenAt(h, t).rows && row < MAX_DIMENSION
    ensures sender.rowChangedAt[row] > h.floor
    decreases t
  {
    hide ScreensWellFormed, SlotsTrue, CursorsOwed, Earned;
    assert RowOwed(sender, h, t, row);
    if t > h.floor + 1 && t > 1 && SameRow(ScreenAt(h, t - 1), ScreenAt(h, t), row) {
      UnmarkedRow(sender, h, row, t - 1);
    }
  }

  /** There is something to say: nothing is acknowledged, or some screen the receiver
  may hold is not the current one. */
  ghost predicate News(sender: Sender, h: History, current: Grid)
    requires SenderInv(sender, h)
  {
    !sender.ackedValid || exists p :: sender.ackedSequence <= p <= |h.screens| && ScreenAt(h, p) != current
  }

  lemma SteadyCursorUnowed(sender: Sender, h: History, current: Grid)
    requires SenderInv(sender, h)
    ensures !News(sender, h, current) ==> sender.cursorChangedAt <= sender.ackedSequence
  {
    hide ScreensWellFormed, RowsOwed, CursorsOwed, SlotsTrue;
    var t := sender.cursorChangedAt;
    if sender.ackedValid && t > sender.ackedSequence {
      assert !SameCursor(ScreenAt(h, t - 1), ScreenAt(h, t));
      assert ScreenAt(h, t - 1) != current || ScreenAt(h, t) != current;
    }
  }

  /** With no news there is nothing to say. */
  lemma NoNewsIsQuiet(sender: Sender, h: History, current: Grid)
    requires SenderInv(sender, h) && WellFormedGrid(current) && !News(sender, h, current)
    ensures current.rows <= |sender.rowChangedAt| && IsQuiet(sender, current)
  {
    WellFormedIsValid(current);
    SequenceInv(sender, h);
    LastSentIsNewest(sender, h);
    assert ScreenAt(h, |h.screens|) == current && ScreenAt(h, sender.ackedSequence) == current;
    forall row | 0 <= row < current.rows ensures !NeedsRepair(sender, LastSent(sender), current, row) {
      RepairedIffInDoubt(sender, h, current, row);
      assert SteadyRow(h, sender.ackedSequence, current, row);
    }
    SteadyCursorUnowed(sender, h, current);
    hide LastSent;
    assert sender.acked == current;
  }

  /** Exactly when poll is silent, waits and sends: a poll that is due sends whenever
  there is news, and from scratch only without a baseline of the same size. */
  lemma PollSendsNews(sender: Sender, h: History, current: Grid, due: bool)
    requires SenderInv(sender, h) && WellFormedGrid(current)
    ensures NextSlot(sender.history, sender.ackedSequence).Some?
    ensures var outcome := PollResult(sender, current, due).1;
            && (outcome == Quiet <==> !News(sender, h, current))
            && (outcome == Waiting <==> News(sender, h, current) && !due)
            && (outcome.Sent? <==> News(sender, h, current) && due)
            && (outcome.Sent? ==>
                  && outcome.sequence == |h.screens| + 1
                  && (outcome.fromScratch <==> !sender.ackedValid || !SameSize(sender.acked, current)))
  {
    hide EncodeRows, Remembered, NothingPending;
    NextSlotSafe(sender, h);
    WellFormedIsValid(current);
    if IsQuiet(sender, current) {
      forall p | sender.ackedSequence <= p <= |h.screens| ensures ScreenAt(h, p) == current {
        QuietIsSound(sender, h, current, p);
      }
    } else if !News(sender, h, current) {
      NoNewsIsQuiet(sender, h, current);
    }
  }

  /** Nothing stays unsaid: once the stream is empty, whatever was skipped before, a
  due poll and the delivery of what it sent leave the receiver showing the current
  screen. */
  lemma DuePollIsShown(zstd: Zstd, w: World, current: Grid)
    requires Lossless(zstd) && WorldInv(zstd, w) && Enabled(w, Event.Poll(current, true)) && w.stream == []
    ensures Defined(w)
    ensures var polled := Step(zstd, w, Event.Poll(current, true));
            && Defined(polled) && |polled.stream| <= 1
            && (if polled.stream == [] then polled.receiver == current
                else Enabled(polled, Deliver) && Step(zstd, polled, Deliver).receiver == current)
  {
    WorldDefined(zstd, w);
    var polled := Step(zstd, w, Event.Poll(current, true));
    PollStep(zstd, w, current, true);
    WorldDefined(zstd, polled);
    PollSendsNews(w.sender, w.h, current, true);
    hide SenderInv, ValidGrid, PacketGood, EncodeRows, Remembered, IsQuiet, WorldInv;
    if polled.stream == [] {
      ShownIfNoNews(zstd, w, current);
    } else {
      DeliverOutcome(zstd, polled);
    }
  }

  lemma ShownIfNoNews(zstd: Zstd, w: World, current: Grid)
    requires WorldInv(zstd, w) && !News(w.sender, w.h, current)
    ensures w.receiver == current
  {
    hide SenderInv, StreamGood, ValidGrid;
    SequenceInv(w.sender, w.h);
    assert ScreenAt(w.h, w.position) == current;
  }

  // ---- the anchor ----------------------------------------------------------------------------------

  ghost predicate IsAnchor(sender: Sender, k: nat) {
    && k < |sender.history| && Unacked(sender.history[k], sender.ackedSequence)
    && forall j :: 0 <= j < |sender.history| && Unacked(sender.history[j], sender.ackedSequence) ==>
         sender.history[k].sequence <= sender.history[j].sequence
  }

  /** Polling never evicts the oldest remembered unacknowledged screen. */
  lemma PollKeepsAnchor(sender: Sender, h: History, current: Grid, due: bool, k: nat)
    requires SenderInv(sender, h) && WellFormedGrid(current) && IsAnchor(sender, k)
    ensures NextSlot(sender.history, sender.ackedSequence).Some?
    ensures var after := PollResult(sender, current, due).0;
            after.ackedSequence == sender.ackedSequence && |after.history| == HISTORY &&
            after.history[k] == sender.history[k] && IsAnchor(after, k)
  {
    NextSlotSafe(sender, h);
    hide ScreensWellFormed, RowsOwed, CursorsOwed, IsQuiet, EncodeRows, WellFormedRow, RowInRange, LastSent;
    assert sender.history[k].sequence <= |h.screens|;
    var slot := NextSlot(sender.history, sender.ackedSequence).value;
    assert slot != k;
  }

  /** An acknowledgement moves the baseline exactly when it covers the anchor,
  and then to the newest remembered screen it covers. */
  lemma AckAdvancesIffCoversAnchor(sender: Sender, h: History, sequence: nat)
    requires SenderInv(sender, h)
    ensures var after := AckResult(sender, sequence).0;
            && (after != sender <==> after.ackedSequence > sender.ackedSequence)
            && (after.ackedSequence > sender.ackedSequence <==>
                  && sequence <= |h.screens|
                  && exists k: nat :: IsAnchor(sender, k) && sender.history[k].sequence <= sequence)
            && (after != sender ==>
                  && after.ackedSequence <= sequence && after.acked == ScreenAt(h, after.ackedSequence)
                  && forall k :: 0 <= k < HISTORY && sender.history[k].used &&
                                 sender.history[k].sequence <= sequence ==>
                       sender.history[k].sequence <= after.ackedSequence)
    ensures AckResult(sender, sequence).1 == if sequence == 0 || sequence > |h.screens| then Invalid else Ok
  {
    hide ScreensWellFormed, RowsOwed, CursorsOwed, Distinct;
    AtOrBeforeIsBest(sender.history, sequence, 0, None);
    var best := AtOrBefore(sender.history, sequence);
    if AckResult(sender, sequence).0.ackedSequence > sender.ackedSequence {
      var k := AnchorExists(sender, best.value, HISTORY);
      assert IsAnchor(sender, k);
    }
  }

  lemma {:induction false} AnchorExists(sender: Sender, start: nat, upto: nat) returns (k: nat)
    requires start < |sender.history| && upto <= |sender.history| &&
             Unacked(sender.history[start], sender.ackedSequence)
    ensures k < |sender.history| && Unacked(sender.history[k], sender.ackedSequence)
    ensures sender.history[k].sequence <= sender.history[start].sequence
    ensures forall j :: 0 <= j < upto && Unacked(sender.history[j], sender.ackedSequence) ==>
              sender.history[k].sequence <= sender.history[j].sequence
  {
    if upto == 0 {
      k := start;
    } else {
      k := AnchorExists(sender, start, upto - 1);
      if Unacked(sender.history[upto - 1], sender.ackedSequence) &&
          sender.history[upto - 1].sequence < sender.history[k].sequence {
        k := upto - 1;
      }
    }
  }

  /** A one-cell screen whose cursor blinks. */
  function Blink(n: nat): (screen: Grid)
    ensures WellFormedGrid(screen)
  {
    Grid(1, 1, 0, 0, n % 2 == 0, BlankCells(1, 1))
  }

  /** A fresh sender polled `n` times with nothing acknowledged. */
  ghost function Burst(n: nat): Sender {
    if n == 0 then InitialSender(1, 1)
    else
      var before := Burst(n - 1);
      if Shaped(before) && NextSlot(before.history, before.ackedSequence).Some?
      then PollResult(before, Blink(n - 1), true).0 else before
  }

  function Blinks(n: nat): (screens: seq<Grid>)
    ensures |screens| == n && forall k :: 0 <= k < n ==> screens[k] == Blink(k)
  {
    seq(n, k requires 0 <= k < n => Blink(k))
  }

  ghost predicate FirstSlotsFilled(sender: Sender, n: nat) {
    && Shaped(sender) && !sender.ackedValid && sender.ackedSequence == 0 && sender.nextSequence == n + 1
    && (forall k :: 0 <= k < n && k < HISTORY ==> sender.history[k].used && sender.history[k].sequence == k + 1)
    && (forall k :: n <= k < HISTORY ==> !sender.history[k].used)
  }

  lemma {:induction false} FirstFree(history: seq<Slot>, index: nat, free: nat, oldest: Option<nat>,
                                     second: Option<nat>)
    requires index <= free < |history| && !history[free].used
    requires forall k :: index <= k < free ==> Unacked(history[k], 0)
    requires (oldest.Some? ==> oldest.value < |history|) && (second.Some? ==> second.value < |history|)
    ensures NextSlotFrom(history, 0, index, oldest, second) == Some(free)
    decreases free - index
  {
    if index < free {
      var slot := history[index];
      if oldest.None? || slot.sequence < history[oldest.value].sequence {
        FirstFree(history, index + 1, free, Some(index), oldest);
      } else if second.None? || slot.sequence < history[second.value].sequence {
        FirstFree(history, index + 1, free, oldest, Some(index));
      } else {
        FirstFree(history, index + 1, free, oldest, second);
      }
    }
  }

  lemma {:induction false} AscendingSecond(history: seq<Slot>, index: nat)
    requires 2 <= index <= |history|
    requires forall k :: 0 <= k < |history| ==> history[k].used && history[k].sequence == k + 1
    ensures NextSlotFrom(history, 0, index, Some(0), Some(1)) == Some(1)
    decreases |history| - index
  {
    if index < |history| {
      AscendingSecond(history, index + 1);
    }
  }

  lemma BurstStep(n: nat, slot: nat)
    requires Shaped(Burst(n)) && !Burst(n).ackedValid
    requires NextSlot(Burst(n).history, Burst(n).ackedSequence) == Some(slot)
    ensures Burst(n + 1) == Remembered(Burst(n), Blink(n), slot)
  {
    hide EncodeRows, LastSent, Blink, NextSlot, Remembered, NothingPending;
  }

  lemma RememberedFills(before: Sender, n: nat)
    requires n < HISTORY && FirstSlotsFilled(before, n)
    ensures FirstSlotsFilled(Remembered(before, Blink(n), n), n + 1)
  {
    hide LastSent;
  }

  lemma {:induction false} BurstFillsSlots(n: nat)
    requires n <= HISTORY
    ensures FirstSlotsFilled(Burst(n), n) && SenderInv(Burst(n), History(Blinks(n), 0))
  {
    hide SenderInv, Burst, Blink, LastSent, Remembered, NextSlotFrom;
    if n == 0 {
      InitialSenderInv(1, 1);
      assert Blinks(0) == [];
      assert Burst(0) == InitialSender(1, 1) by { BurstZero(); }
    } else {
      var before, h := Burst(n - 1), History(Blinks(n - 1), 0);
      BurstFillsSlots(n - 1);
      FirstFree(before.history, 0, n - 1, None, None);
      RememberedInv(before, h, Blink(n - 1), n - 1);
      assert h.screens + [Blink(n - 1)] == Blinks(n);
      BurstStep(n - 1, n - 1);
      RememberedFills(before, n - 1);
    }
  }

  lemma BurstZero()
    ensures Burst(0) == InitialSender(1, 1)
  {
  }

  lemma FullBurstReusesSecond(history: seq<Slot>)
    requires |history| == HISTORY && forall k :: 0 <= k < HISTORY ==> history[k].used && history[k].sequence == k + 1
    ensures NextSlot(history, 0) == Some(1)
  {
    AscendingSecond(history, 2);
    assert NextSlotFrom(history, 0, 1, Some(0), None) == Some(1);
  }

  /** The anchor need not be the oldest unacknowledged screen: once the ninth
  message has displaced the second and the first is acknowledged, sequence 2 is
  unacknowledged and no longer remembered. */
  lemma OldestUnacknowledgedCanBeForgotten()
    ensures Shaped(Burst(9))
    ensures var sender := AckResult(Burst(9), 1).0;
            sender.ackedSequence == 1 && sender.nextSequence == 10 && !Retains(sender, 2)
  {
    hide SenderInv, Burst, Blink, LastSent;
    BurstFillsSlots(8);
    FullBurstReusesSecond(Burst(8).history);
    BurstStep(8, 1);
    var nine := Burst(9);
    AtOrBeforeIsBest(nine.history, 1, 0, None);
    assert nine.history[0].used && nine.history[0].sequence == 1;
  }
}
