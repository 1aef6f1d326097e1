/** Which unacknowledged screens the sender still remembers (src/sync.c:325-342):
always one anchor and the newest seven, and so exactly when the oldest
unacknowledged screen is forgotten. */
module Retention {
  import opened Bytes
  import opened Screen
  import opened Codec
  import opened Pigeonhole
  import opened Sync
  import opened Wire
  import opened SyncProtocol

  /** The anchor, and after it the newest seven. */
  ghost predicate InWindow(anchor: nat, newest: nat, s: nat) {
    anchor <= s <= newest && (s == anchor || newest < s + HISTORY - 1)
  }

  /** The remembered unacknowledged sequences are exactly those of the window, and
  a gap below the anchor means eight or more sequences are outstanding. With
  everything acknowledged the anchor is the next sequence to be issued. */
  ghost predicate Window(sender: Sender, newest: nat, anchor: nat) {
    && sender.ackedSequence < anchor <= newest + 1
    && (anchor == sender.ackedSequence + 1 || sender.ackedSequence + HISTORY <= newest)
    && forall s: nat :: sender.ackedSequence < s ==> (Retains(sender, s) <==> InWindow(anchor, newest, s))
  }

  ghost predicate Windowed(sender: Sender, newest: nat) {
    exists anchor: nat :: Window(sender, newest, anchor)
  }

  /** Nothing is outstanding, or the oldest unacknowledged screen is remembered. */
  ghost predicate OldestKept(sender: Sender, newest: nat) {
    sender.ackedSequence == newest || Retains(sender, sender.ackedSequence + 1)
  }

  lemma OldestKeptIff(sender: Sender, newest: nat, anchor: nat)
    requires Window(sender, newest, anchor)
    ensures OldestKept(sender, newest) <==> anchor == sender.ackedSequence + 1
  {
    hide Retains;
  }

  // ---- how full the history is ------------------------------------------------------

  lemma SlotOf(sender: Sender, s: nat) returns (k: nat)
    requires Retains(sender, s)
    ensures k < |sender.history| && sender.history[k].used && sender.history[k].sequence == s
  {
    k :| 0 <= k < |sender.history| && sender.history[k].used && sender.history[k].sequence == s;
  }

  /** The slots that hold the last `count` members of the window's tail. */
  lemma {:induction false} TailSlots(sender: Sender, newest: nat, anchor: nat, count: nat) returns (slots: seq<nat>)
    requires Window(sender, newest, anchor) && count < HISTORY && anchor + count <= newest
    ensures |slots| == count
    ensures forall j :: 0 <= j < count ==>
              slots[j] < |sender.history| && Unacked(sender.history[slots[j]], sender.ackedSequence) &&
              sender.history[slots[j]].sequence == newest - j
  {
    slots := [];
    if count > 0 {
      slots := TailSlots(sender, newest, anchor, count - 1);
      var s: nat := newest - (count - 1);
      assert InWindow(anchor, newest, s);
      var k := SlotOf(sender, s);
      slots := slots + [k];
    }
  }

  /** With the anchor seven or more below the newest, every slot is taken. */
  lemma WideIsFull(sender: Sender, newest: nat, anchor: nat)
    requires |sender.history| == HISTORY && Window(sender, newest, anchor) && anchor + HISTORY - 1 <= newest
    ensures AllUnacked(sender.history, sender.ackedSequence, HISTORY)
  {
    var tail := TailSlots(sender, newest, anchor, HISTORY - 1);
    assert InWindow(anchor, newest, anchor);
    var k := SlotOf(sender, anchor);
    var all := tail + [k];
    hide Window;
    DistinctCount(all, HISTORY);
    forall i | 0 <= i < HISTORY ensures Unacked(sender.history[i], sender.ackedSequence) {
      assert i in all;
    }
  }

  /** Eight slots all taken need eight sequences. */
  lemma SpreadOut(sender: Sender, newest: nat, anchor: nat)
    requires |sender.history| == HISTORY && Distinct(sender.history) && anchor <= newest
    requires forall k :: 0 <= k < HISTORY ==>
               sender.history[k].used && anchor <= sender.history[k].sequence <= newest
    ensures anchor + HISTORY - 1 <= newest
  {
    var above: seq<nat> := seq(HISTORY, k requires 0 <= k < HISTORY => sender.history[k].sequence - anchor);
    DistinctCount(above, newest - anchor + 1);
  }

  /** With fewer outstanding, some slot is not. */
  lemma NarrowHasRoom(sender: Sender, newest: nat, anchor: nat)
    requires |sender.history| == HISTORY && Distinct(sender.history) && Window(sender, newest, anchor)
    requires newest < anchor + HISTORY - 1
    ensures !AllUnacked(sender.history, sender.ackedSequence, HISTORY)
  {
    if AllUnacked(sender.history, sender.ackedSequence, HISTORY) {
      forall k | 0 <= k < HISTORY ensures InWindow(anchor, newest, sender.history[k].sequence) {
        assert Unacked(sender.history[k], sender.ackedSequence);
        assert Retains(sender, sender.history[k].sequence);
      }
      assert InWindow(anchor, newest, sender.history[0].sequence);
      SpreadOut(sender, newest, anchor);
    }
  }

  // ---- polling ------------------------------------------------------------------------

  lemma RetainsAfter(sender: Sender, current: Grid, slot: nat, s: nat)
    requires Shaped(sender) && Distinct(sender.history) && slot < HISTORY && current.rows <= MAX_DIMENSION
    ensures var after := Remembered(sender, current, slot);
            Retains(after, s) <==>
              s == sender.nextSequence ||
              (Retains(sender, s) && !(sender.history[slot].used && sender.history[slot].sequence == s))
  {
    hide LastSent, RowChangedSince, CursorChangedSince;
    var after := Remembered(sender, current, slot);
    assert after.history == sender.history[slot := Slot(true, sender.nextSequence, current)];
    if Retains(after, s) {
      var k := SlotOf(after, s);
      assert k != slot ==> sender.history[k] == after.history[k];
    }
    if s == sender.nextSequence {
      assert after.history[slot].sequence == s;
    } else if Retains(sender, s) && !(sender.history[slot].used && sender.history[slot].sequence == s) {
      var k := SlotOf(sender, s);
      assert after.history[k] == sender.history[k];
    }
  }

  /** A full history gives up the oldest of the newest seven. */
  lemma FullGivesUp(sender: Sender, newest: nat, anchor: nat, oldest: nat, slot: nat)
    requires Shaped(sender) && Distinct(sender.history) && Window(sender, newest, anchor)
    requires anchor + HISTORY - 1 <= newest && slot < HISTORY && oldest < HISTORY
    requires AllUnacked(sender.history, sender.ackedSequence, HISTORY)
    requires OldestIs(sender.history, HISTORY, Some(oldest)) &&
             SecondIs(sender.history, HISTORY, Some(oldest), Some(slot))
    ensures sender.history[slot].used && sender.history[slot].sequence == newest - (HISTORY - 2)
  {
    var s: nat := newest - (HISTORY - 2);
    assert InWindow(anchor, newest, s) && InWindow(anchor, newest, anchor);
    var k := SlotOf(sender, s);
    var first := SlotOf(sender, anchor);
    assert Unacked(sender.history[slot], sender.ackedSequence) && Unacked(sender.history[oldest], sender.ackedSequence);
    assert Retains(sender, sender.history[slot].sequence) && Retains(sender, sender.history[oldest].sequence);
    assert sender.history[oldest].sequence == anchor;
    assert sender.history[slot].sequence != anchor;
  }

  lemma RememberedKeepsWindow(sender: Sender, h: History, current: Grid, slot: nat, anchor: nat)
    requires SenderInv(sender, h) && current.rows <= MAX_DIMENSION && Window(sender, |h.screens|, anchor)
    requires slot < HISTORY && Chosen(sender.history, sender.ackedSequence, slot)
    ensures Window(Remembered(sender, current, slot), |h.screens| + 1, anchor)
  {
    hide LastSent, RowChangedSince, CursorChangedSince, RowsOwed, CursorsOwed, ScreensWellFormed;
    var after, newest := Remembered(sender, current, slot), |h.screens|;
    assert after.ackedSequence == sender.ackedSequence;
    if anchor + HISTORY - 1 <= newest {
      WideIsFull(sender, newest, anchor);
      var oldest: nat :| oldest < HISTORY && OldestIs(sender.history, HISTORY, Some(oldest)) &&
                         SecondIs(sender.history, HISTORY, Some(oldest), Some(slot));
      FullGivesUp(sender, newest, anchor, oldest, slot);
    } else {
      NarrowHasRoom(sender, newest, anchor);
      assert !Unacked(sender.history[slot], sender.ackedSequence);
    }
    assert Distinct(sender.history);
    forall s: nat | sender.ackedSequence < s ensures Retains(after, s) <==> InWindow(anchor, newest + 1, s) {
      RetainsAfter(sender, current, slot, s);
    }
  }

  /** A poll adds the new sequence to the window's tail and moves no anchor. */
  lemma PollKeepsWindow(sender: Sender, h: History, current: Grid, due: bool, anchor: nat)
    requires SenderInv(sender, h) && WellFormedGrid(current) && Window(sender, |h.screens|, anchor)
    ensures NextSlot(sender.history, sender.ackedSequence).Some?
    ensures var (after, outcome) := PollResult(sender, current, due);
            Window(after, if outcome.Sent? then |h.screens| + 1 else |h.screens|, anchor)
  {
    NextSlotSafe(sender, h);
    ShapedInv(sender, h);
    WellFormedIsValid(current);
    assert current.rows <= MAX_DIMENSION;
    hide SenderInv, Window, Chosen, Remembered, EncodeRows, WellFormedGrid, IsQuiet;
    RememberedKeepsWindow(sender, h, current, NextSlot(sender.history, sender.ackedSequence).value, anchor);
  }

  // ---- acknowledging --------------------------------------------------------------------

  /** Where acknowledging `sequence` leaves the baseline and the anchor. */
  ghost function Landing(anchor: nat, newest: nat, sequence: nat): nat {
    if InWindow(anchor, newest, sequence) then sequence else anchor
  }

  ghost function NextAnchor(anchor: nat, newest: nat, sequence: nat): nat {
    var landing := Landing(anchor, newest, sequence);
    if landing + HISTORY - 1 <= newest then newest - (HISTORY - 2) else landing + 1
  }

  /** The baseline moves to the sequence named if that is remembered, to the anchor
  if it is not, and not at all before the anchor or past the newest. */
  lemma AckLands(sender: Sender, h: History, anchor: nat, sequence: nat)
    requires SenderInv(sender, h) && Window(sender, |h.screens|, anchor)
    ensures var after := AckResult(sender, sequence).0;
            && after.history == sender.history
            && (sequence < anchor || sequence > |h.screens| ==> after == sender)
            && (anchor <= sequence <= |h.screens| ==>
                  after.ackedSequence == Landing(anchor, |h.screens|, sequence))
  {
    hide RowsOwed, CursorsOwed, ScreensWellFormed;
    AtOrBeforeIsBest(sender.history, sequence, 0, None);
    var best, after := AtOrBefore(sender.history, sequence), AckResult(sender, sequence).0;
    if best.Some? && sender.history[best.value].sequence > sender.ackedSequence {
      assert Retains(sender, sender.history[best.value].sequence);
      assert InWindow(anchor, |h.screens|, sender.history[best.value].sequence);
    }
    if anchor <= sequence <= |h.screens| {
      assert InWindow(anchor, |h.screens|, anchor);
      var landing := Landing(anchor, |h.screens|, sequence);
      assert InWindow(anchor, |h.screens|, landing);
      var k := SlotOf(sender, landing);
      assert sender.history[k].sequence <= sender.history[best.value].sequence;
    }
  }

  lemma AckKeepsWindow(sender: Sender, h: History, anchor: nat, sequence: nat)
    requires SenderInv(sender, h) && Window(sender, |h.screens|, anchor)
    ensures Window(AckResult(sender, sequence).0, |h.screens|,
                   if anchor <= sequence <= |h.screens| then NextAnchor(anchor, |h.screens|, sequence) else anchor)
  {
    AckLands(sender, h, anchor, sequence);
    hide SenderInv, AckResult;
    var after, newest := AckResult(sender, sequence).0, |h.screens|;
    if anchor <= sequence <= newest {
      var next := NextAnchor(anchor, newest, sequence);
      forall s: nat | after.ackedSequence < s ensures Retains(after, s) <==> InWindow(next, newest, s) {
        assert Retains(after, s) <==> Retains(sender, s);
      }
    }
  }

  lemma ResetKeepsWindow(sender: Sender, h: History)
    requires SenderInv(sender, h)
    ensures Window(ResetResult(sender), |h.screens|, |h.screens| + 1)
  {
    hide RowsOwed, CursorsOwed, ScreensWellFormed, SlotsTrue;
    var after := ResetResult(sender);
    forall s: nat | after.ackedSequence < s ensures Retains(after, s) <==> InWindow(|h.screens| + 1, |h.screens|, s) {
    }
  }

  // ---- when the oldest unacknowledged screen is lost -----------------------------------------

  /** Polling neither loses nor recovers it. */
  lemma PollKeepsOldest(sender: Sender, h: History, current: Grid, due: bool)
    requires SenderInv(sender, h) && WellFormedGrid(current) && Windowed(sender, |h.screens|)
    ensures NextSlot(sender.history, sender.ackedSequence).Some?
    ensures var (after, outcome) := PollResult(sender, current, due);
            var newest := if outcome.Sent? then |h.screens| + 1 else |h.screens|;
            OldestKept(after, newest) <==> OldestKept(sender, |h.screens|)
  {
    var anchor: nat :| Window(sender, |h.screens|, anchor);
    PollKeepsWindow(sender, h, current, due, anchor);
    ShapedInv(sender, h);
    WellFormedIsValid(current);
    PollOutcome(sender, current, due);
    hide SenderInv, Window, PollResult, OldestKept;
    var (after, outcome) := PollResult(sender, current, due);
    OldestKeptIff(sender, |h.screens|, anchor);
    OldestKeptIff(after, if outcome.Sent? then |h.screens| + 1 else |h.screens|, anchor);
  }

  /** What an acknowledgement does to it, in terms of the oldest remembered
  unacknowledged sequence and the newest issued one. One that covers the anchor
  loses the screen after the new baseline exactly when eight or more were issued
  since the anchor and it names none of the newest seven; any other changes
  nothing. */
  lemma AckLosesOldestIff(sender: Sender, h: History, k: nat, sequence: nat)
    requires SenderInv(sender, h) && Windowed(sender, |h.screens|) && IsAnchor(sender, k)
    ensures var (after, anchor, newest) := (AckResult(sender, sequence).0, sender.history[k].sequence, |h.screens|);
            && (sequence < anchor || sequence > newest ==> after == sender)
            && (anchor <= sequence <= newest ==>
                  (!OldestKept(after, newest) <==> newest - anchor >= HISTORY && sequence < newest - 6))
  {
    var newest := |h.screens|;
    var anchor: nat :| Window(sender, newest, anchor);
    AnchorIs(sender, newest, anchor, k);
    AckLands(sender, h, anchor, sequence);
    AckKeepsWindow(sender, h, anchor, sequence);
    hide SenderInv, Window, AckResult, OldestKept, IsAnchor;
    OldestKeptIff(AckResult(sender, sequence).0, newest,
                  if anchor <= sequence <= newest then NextAnchor(anchor, newest, sequence) else anchor);
  }

  lemma AnchorIs(sender: Sender, newest: nat, anchor: nat, k: nat)
    requires Window(sender, newest, anchor) && IsAnchor(sender, k)
    ensures sender.history[k].sequence == anchor <= newest
  {
    assert Retains(sender, sender.history[k].sequence);
    assert InWindow(anchor, newest, sender.history[k].sequence);
    assert InWindow(anchor, newest, anchor);
    var j := SlotOf(sender, anchor);
    assert Unacked(sender.history[j], sender.ackedSequence);
  }

  // ---- whole runs ------------------------------------------------------------------------------

  lemma InitialWindow(rows: nat, cols: nat)
    requires ValidDimensions(rows, cols)
    ensures Window(InitialSender(rows, cols), 0, 1)
  {
    var sender := InitialSender(rows, cols);
    forall s: nat | 0 < s ensures Retains(sender, s) <==> InWindow(1, 0, s) {
    }
  }

  /** How a step of the protocol moves the anchor. */
  ghost function AnchorAfter(w: World, event: Event, anchor: nat): nat {
    match event
    case Acknowledge(sequence) =>
      if anchor <= sequence <= |w.h.screens| then NextAnchor(anchor, |w.h.screens|, sequence) else anchor
    case Reset => |w.h.screens| + 1
    case Attach(_) => |w.h.screens| + 1
    case _ => anchor
  }

  lemma StepKeepsWindow(zstd: Zstd, w: World, event: Event, anchor: nat)
    requires Lossless(zstd) && WorldInv(zstd, w) && Enabled(w, event) && Window(w.sender, |w.h.screens|, anchor)
    ensures Defined(w)
    ensures var w' := Step(zstd, w, event); Window(w'.sender, |w'.h.screens|, AnchorAfter(w, event, anchor))
  {
    WorldDefined(zstd, w);
    hide SenderInv, Window, WellFormedGrid, ReceiverApply, PollResult, AckResult, ResetResult, NextAnchor, Defined,
         Enabled;
    match event
    case Poll(current, due) =>
      assert WellFormedGrid(current) by { PollEnabled(w, current, due); }
      WellFormedIsValid(current);
      PollKeepsWindow(w.sender, w.h, current, due, anchor);
    case Acknowledge(sequence) => AckKeepsWindow(w.sender, w.h, anchor, sequence);
    case Reset => ResetKeepsWindow(w.sender, w.h);
    case Attach(_) => ResetKeepsWindow(w.sender, w.h);
    case _ =>
  }

  lemma PollEnabled(w: World, current: Grid, due: bool)
    requires Enabled(w, Event.Poll(current, due))
    ensures WellFormedGrid(current)
  {
  }

  lemma {:induction false} RunKeepsWindow(zstd: Zstd, worlds: seq<World>, events: seq<Event>, i: nat)
    requires Lossless(zstd) && IsRun(zstd, worlds, events) && i < |worlds|
    requires WorldInv(zstd, worlds[0]) && Windowed(worlds[0].sender, |worlds[0].h.screens|)
    ensures WorldInv(zstd, worlds[i]) && Windowed(worlds[i].sender, |worlds[i].h.screens|)
  {
    if i > 0 {
      RunKeepsWindow(zstd, worlds, events, i - 1);
      RunKeepsInv(zstd, worlds, events, i);
      hide WorldInv, Step, Window;
      var before, event := worlds[i - 1], events[i - 1];
      var anchor: nat :| Window(before.sender, |before.h.screens|, anchor);
      StepKeepsWindow(zstd, before, event, anchor);
      assert Window(worlds[i].sender, |worlds[i].h.screens|, AnchorAfter(before, event, anchor));
    }
  }

  /** In every run, what is remembered of the unacknowledged is one anchor and the
  newest seven, and with fewer than eight unacknowledged the oldest is among it. */
  lemma OldestKeptWhileFew(zstd: Zstd, rows: nat, cols: nat, receiver: Grid, worlds: seq<World>, events: seq<Event>,
                           i: nat)
    requires Lossless(zstd) && ValidDimensions(rows, cols) && ValidGrid(receiver)
    requires IsRun(zstd, worlds, events) && worlds[0] == InitialWorld(rows, cols, receiver) && i < |worlds|
    ensures var (sender, newest) := (worlds[i].sender, |worlds[i].h.screens|);
            && Windowed(sender, newest)
            && (newest < sender.ackedSequence + HISTORY ==> OldestKept(sender, newest))
  {
    InitialWorldInv(zstd, rows, cols, receiver);
    InitialWindow(rows, cols);
    assert Windowed(worlds[0].sender, |worlds[0].h.screens|);
    RunKeepsWindow(zstd, worlds, events, i);
    hide WorldInv, Step, Window, InitialSender, OldestKept, IsRun;
    var (sender, newest) := (worlds[i].sender, |worlds[i].h.screens|);
    var anchor: nat :| Window(sender, newest, anchor);
    OldestKeptIff(sender, newest, anchor);
    FewMeansAdjacent(sender, newest, anchor);
  }

  lemma FewMeansAdjacent(sender: Sender, newest: nat, anchor: nat)
    requires Window(sender, newest, anchor)
    ensures newest < sender.ackedSequence + HISTORY ==> anchor == sender.ackedSequence + 1
  {
  }

  /** Everything from the one after the baseline to the newest is remembered. */
  ghost predicate AllKept(sender: Sender, newest: nat) {
    forall s: nat :: sender.ackedSequence < s <= newest ==> Retains(sender, s)
  }

  ghost predicate AtMostEight(w: World) {
    |w.h.screens| <= w.sender.ackedSequence + HISTORY
  }

  lemma AdjacentStays(zstd: Zstd, w: World, event: Event)
    requires Lossless(zstd) && WorldInv(zstd, w) && Enabled(w, event) && AtMostEight(w)
    requires Window(w.sender, |w.h.screens|, w.sender.ackedSequence + 1)
    ensures Defined(w)
    ensures var w' := Step(zstd, w, event); Window(w'.sender, |w'.h.screens|, w'.sender.ackedSequence + 1)
  {
    var anchor := w.sender.ackedSequence + 1;
    StepKeepsWindow(zstd, w, event, anchor);
    StepBaseline(zstd, w, event, anchor);
    hide Window, Step, WorldInv, Defined, Enabled;
  }

  lemma StepBaseline(zstd: Zstd, w: World, event: Event, anchor: nat)
    requires WorldInv(zstd, w) && Enabled(w, event) && Defined(w) && Window(w.sender, |w.h.screens|, anchor)
    ensures var w' := Step(zstd, w, event);
            match event
            case Acknowledge(sequence) =>
              w'.sender.ackedSequence ==
              if anchor <= sequence <= |w.h.screens| then Landing(anchor, |w.h.screens|, sequence)
              else w.sender.ackedSequence
            case Reset => w'.sender.ackedSequence == |w.h.screens|
            case Attach(_) => w'.sender.ackedSequence == |w.h.screens|
            case _ => w'.sender.ackedSequence == w.sender.ackedSequence
  {
    SequenceInv(w.sender, w.h);
    hide SenderInv, Window, WellFormedGrid, ReceiverApply, PollResult, AckResult, Landing;
    match event
    case Poll(current, due) =>
      assert WellFormedGrid(current) by { PollEnabled(w, current, due); }
      WellFormedIsValid(current);
      PollOutcome(w.sender, current, due);
    case Acknowledge(sequence) => AckLands(w.sender, w.h, anchor, sequence);
    case _ =>
  }

  lemma {:induction false} RunStaysAdjacent(zstd: Zstd, worlds: seq<World>, events: seq<Event>, i: nat)
    requires Lossless(zstd) && IsRun(zstd, worlds, events) && i < |worlds| && WorldInv(zstd, worlds[0])
    requires Window(worlds[0].sender, |worlds[0].h.screens|, worlds[0].sender.ackedSequence + 1)
    requires forall j :: 0 <= j < i ==> AtMostEight(worlds[j])
    ensures Window(worlds[i].sender, |worlds[i].h.screens|, worlds[i].sender.ackedSequence + 1)
  {
    if i > 0 {
      RunStaysAdjacent(zstd, worlds, events, i - 1);
      RunKeepsInv(zstd, worlds, events, i - 1);
      hide WorldInv, Step, Window;
      AdjacentStays(zstd, worlds[i - 1], events[i - 1]);
    }
  }

  /** In a run that never leaves more than eight messages outstanding, no
  unacknowledged screen is ever forgotten. */
  lemma NothingForgotten(zstd: Zstd, rows: nat, cols: nat, receiver: Grid, worlds: seq<World>, events: seq<Event>,
                         i: nat)
    requires Lossless(zstd) && ValidDimensions(rows, cols) && ValidGrid(receiver)
    requires IsRun(zstd, worlds, events) && worlds[0] == InitialWorld(rows, cols, receiver) && i < |worlds|
    requires forall j :: 0 <= j <= i ==> AtMostEight(worlds[j])
    ensures AllKept(worlds[i].sender, |worlds[i].h.screens|)
  {
    InitialWorldInv(zstd, rows, cols, receiver);
    InitialWindow(rows, cols);
    RunStaysAdjacent(zstd, worlds, events, i);
    assert AtMostEight(worlds[i]);
    hide WorldInv, Step, InitialSender, IsRun, Retains;
  }
}
