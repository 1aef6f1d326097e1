/** The sender half of screen synchronisation (src/sync.c): an acknowledged
baseline, eight remembered screens, and per-row repair obligations.

Pacing decides only when a message may go, so it is one boolean here. */
module Sync {
  import opened Bytes
  import opened Screen
  import opened Codec
  import CellPlane

  const HISTORY: nat := 8

  datatype Slot = Slot(used: bool, sequence: nat, state: Grid)

  datatype Sender = Sender(
    acked: Grid, ackedValid: bool, ackedSequence: nat,
    rowChangedAt: seq<nat>, cursorChangedAt: nat,
    history: seq<Slot>, nextSequence: nat)

  // ---- the remembered screens -----------------------------------------------------

  function AtOrBeforeFrom(history: seq<Slot>, sequence: nat, index: nat, best: Option<nat>): (r: Option<nat>)
    requires index <= |history| && (best.Some? ==> best.value < |history|)
    ensures r.Some? ==> r.value < |history|
    decreases |history| - index
  {
    if index == |history| then best
    else
      var slot := history[index];
      var better := slot.used && slot.sequence <= sequence &&
                    (best.None? || slot.sequence > history[best.value].sequence);
      AtOrBeforeFrom(history, sequence, index + 1, if better then Some(index) else best)
  }

  /** history_at_or_before. */
  function AtOrBefore(history: seq<Slot>, sequence: nat): (r: Option<nat>)
    ensures r.Some? ==> r.value < |history|
  {
    AtOrBeforeFrom(history, sequence, 0, None)
  }

  ghost predicate IsBest(history: seq<Slot>, sequence: nat, upto: nat, best: Option<nat>)
    requires upto <= |history|
  {
    match best
    case None => forall k :: 0 <= k < upto ==> !(history[k].used && history[k].sequence <= sequence)
    case Some(b) =>
      && b < upto && history[b].used && history[b].sequence <= sequence
      && forall k :: 0 <= k < upto && history[k].used && history[k].sequence <= sequence ==>
           history[k].sequence <= history[b].sequence
  }

  /** The newest remembered screen the sequence covers, if there is one. */
  lemma {:induction false} AtOrBeforeIsBest(history: seq<Slot>, sequence: nat, index: nat, best: Option<nat>)
    requires index <= |history| && IsBest(history, sequence, index, best)
    ensures IsBest(history, sequence, |history|, AtOrBeforeFrom(history, sequence, index, best))
    decreases |history| - index
  {
    if index < |history| {
      var slot := history[index];
      var better := slot.used && slot.sequence <= sequence &&
                    (best.None? || slot.sequence > history[best.value].sequence);
      AtOrBeforeIsBest(history, sequence, index + 1, if better then Some(index) else best);
    }
  }

  /** history_next_slot: the first slot that is free or acknowledged, else the
  second oldest. */
  function NextSlotFrom(history: seq<Slot>, acked: nat, index: nat, oldest: Option<nat>,
                        second: Option<nat>): (r: Option<nat>)
    requires index <= |history|
    requires (oldest.Some? ==> oldest.value < |history|) && (second.Some? ==> second.value < |history|)
    ensures r.Some? ==> r.value < |history|
    decreases |history| - index
  {
    if index == |history| then second
    else
      var slot := history[index];
      if !slot.used || slot.sequence <= acked then Some(index)
      else if oldest.None? || slot.sequence < history[oldest.value].sequence then
        NextSlotFrom(history, acked, index + 1, Some(index), oldest)
      else if second.None? || slot.sequence < history[second.value].sequence then
        NextSlotFrom(history, acked, index + 1, oldest, Some(index))
      else NextSlotFrom(history, acked, index + 1, oldest, second)
  }

  function NextSlot(history: seq<Slot>, acked: nat): (r: Option<nat>)
    ensures r.Some? ==> r.value < |history|
  {
    NextSlotFrom(history, acked, 0, None, None)
  }

  ghost predicate Unacked(slot: Slot, acked: nat) {
    slot.used && slot.sequence > acked
  }

  /** No two unacknowledged screens share a sequence. */
  ghost predicate Distinct(history: seq<Slot>) {
    forall i, j :: 0 <= i < j < |history| && history[i].used && history[j].used ==>
      history[i].sequence != history[j].sequence
  }

  ghost predicate OldestIs(history: seq<Slot>, upto: nat, oldest: Option<nat>)
    requires upto <= |history|
  {
    match oldest
    case None => upto == 0
    case Some(o) => o < upto && forall k :: 0 <= k < upto ==> history[o].sequence <= history[k].sequence
  }

  ghost predicate SecondIs(history: seq<Slot>, upto: nat, oldest: Option<nat>, second: Option<nat>)
    requires upto <= |history|
  {
    match second
    case None => upto <= 1
    case Some(s) =>
      && s < upto && oldest.Some? && oldest.value != s
      && forall k :: 0 <= k < upto && k != oldest.value ==> history[s].sequence <= history[k].sequence
  }

  ghost predicate AllUnacked(history: seq<Slot>, acked: nat, upto: nat)
    requires upto <= |history|
  {
    forall k :: 0 <= k < upto ==> Unacked(history[k], acked)
  }

  /** The slot about to be reused holds nothing still needed: it is free or
  acknowledged, or there are both an older and a newer unacknowledged screen. */
  ghost predicate Expendable(history: seq<Slot>, acked: nat, slot: nat)
    requires slot < |history|
  {
    || !Unacked(history[slot], acked)
    || (&& (exists k :: 0 <= k < |history| && Unacked(history[k], acked) &&
                        history[k].sequence < history[slot].sequence)
        && (exists k :: 0 <= k < |history| && Unacked(history[k], acked) &&
                        history[k].sequence > history[slot].sequence))
  }

  lemma SecondExpendable(history: seq<Slot>, acked: nat, oldest: nat, second: nat)
    requires 3 <= |history| && Distinct(history) && AllUnacked(history, acked, |history|)
    requires OldestIs(history, |history|, Some(oldest)) && SecondIs(history, |history|, Some(oldest), Some(second))
    ensures Expendable(history, acked, second)
  {
    var k := if oldest != 0 && second != 0 then 0 else if oldest != 1 && second != 1 then 1 else 2;
    assert Unacked(history[k], acked) && history[k].sequence > history[second].sequence;
    assert Unacked(history[oldest], acked) && history[oldest].sequence < history[second].sequence;
  }

  /** What the scan settles on: a slot that is free or acknowledged, or the second
  oldest of eight that are neither. */
  ghost predicate Chosen(history: seq<Slot>, acked: nat, slot: nat)
    requires slot < |history|
  {
    || !Unacked(history[slot], acked)
    || (AllUnacked(history, acked, |history|) &&
        exists oldest: nat :: oldest < |history| && OldestIs(history, |history|, Some(oldest)) &&
                              SecondIs(history, |history|, Some(oldest), Some(slot)))
  }

  lemma {:induction false} NextSlotChosen(history: seq<Slot>, acked: nat, index: nat, oldest: Option<nat>,
                                          second: Option<nat>)
    requires index <= |history| && 3 <= |history| && Distinct(history) && AllUnacked(history, acked, index)
    requires OldestIs(history, index, oldest) && SecondIs(history, index, oldest, second)
    ensures var r := NextSlotFrom(history, acked, index, oldest, second); r.Some? && Chosen(history, acked, r.value)
    decreases |history| - index
  {
    hide Distinct;
    if index < |history| {
      var slot := history[index];
      if !Unacked(slot, acked) {
      } else if oldest.None? || slot.sequence < history[oldest.value].sequence {
        NextSlotChosen(history, acked, index + 1, Some(index), oldest);
      } else if second.None? || slot.sequence < history[second.value].sequence {
        NextSlotChosen(history, acked, index + 1, oldest, Some(index));
      } else {
        NextSlotChosen(history, acked, index + 1, oldest, second);
      }
    }
  }

  lemma NextSlotExpendable(history: seq<Slot>, acked: nat)
    requires 3 <= |history| && Distinct(history)
    ensures var r := NextSlot(history, acked);
            r.Some? && Chosen(history, acked, r.value) && Expendable(history, acked, r.value)
  {
    NextSlotChosen(history, acked, 0, None, None);
    var slot := NextSlot(history, acked).value;
    if Unacked(history[slot], acked) {
      var oldest: nat :| oldest < |history| && OldestIs(history, |history|, Some(oldest)) &&
                         SecondIs(history, |history|, Some(oldest), Some(slot));
      SecondExpendable(history, acked, oldest, slot);
    }
  }

  // ---- one poll ---------------------------------------------------------------------

  predicate SameRow(a: Grid, b: Grid, row: nat) {
    SameSize(a, b) && row < |a.cells| && row < |b.cells| && a.cells[row] == b.cells[row]
  }

  predicate SameCursor(a: Grid, b: Grid) {
    a.cursorRow == b.cursorRow && a.cursorCol == b.cursorCol && a.cursorVisible == b.cursorVisible
  }

  /** The screen sent last, when it is still remembered. */
  function LastSent(sender: Sender): Option<Grid> {
    if sender.nextSequence <= 1 then None
    else match AtOrBefore(sender.history, sender.nextSequence - 1)
      case None => None
      case Some(k) =>
        if sender.history[k].sequence == sender.nextSequence - 1 then Some(sender.history[k].state) else None
  }

  predicate RowChangedSince(last: Option<Grid>, current: Grid, row: nat) {
    last.None? || !SameRow(last.value, current, row)
  }

  predicate CursorChangedSince(last: Option<Grid>, current: Grid) {
    last.None? || !SameCursor(last.value, current)
  }

  predicate NeedsRepair(sender: Sender, last: Option<Grid>, current: Grid, row: nat)
    requires row < |sender.rowChangedAt|
  {
    last.None? || !SameSize(last.value, current) || sender.rowChangedAt[row] > sender.ackedSequence
  }

  function RepairMask(sender: Sender, last: Option<Grid>, current: Grid): (mask: seq<bool>)
    requires current.rows <= |sender.rowChangedAt|
    ensures |mask| == current.rows
  {
    seq(current.rows, row requires 0 <= row < current.rows => NeedsRepair(sender, last, current, row))
  }

  predicate NothingPending(sender: Sender, last: Option<Grid>, current: Grid)
    requires current.rows <= |sender.rowChangedAt|
  {
    && (forall row :: 0 <= row < current.rows ==>
          !RowChangedSince(last, current, row) && !NeedsRepair(sender, last, current, row))
    && !CursorChangedSince(last, current)
    && sender.cursorChangedAt <= sender.ackedSequence
  }

  function Baseline(sender: Sender, current: Grid): Option<Grid> {
    if sender.ackedValid && SameSize(sender.acked, current) then Some(sender.acked) else None
  }

  datatype Outcome = Quiet | Waiting | Sent(sequence: nat, fromScratch: bool, body: seq<Byte>)

  predicate IsQuiet(sender: Sender, current: Grid)
    requires current.rows <= |sender.rowChangedAt|
  {
    sender.ackedValid && NothingPending(sender, LastSent(sender), current) && sender.acked == current
  }

  function Remembered(sender: Sender, current: Grid, slot: nat): Sender
    requires slot < |sender.history| && current.rows <= |sender.rowChangedAt|
  {
    var last := LastSent(sender);
    sender.(
      rowChangedAt := seq(|sender.rowChangedAt|, row requires 0 <= row < |sender.rowChangedAt| =>
        if row < current.rows && RowChangedSince(last, current, row) then sender.nextSequence
        else sender.rowChangedAt[row]),
      cursorChangedAt := if CursorChangedSince(last, current) then sender.nextSequence else sender.cursorChangedAt,
      history := sender.history[slot := Slot(true, sender.nextSequence, current)],
      nextSequence := sender.nextSequence + 1)
  }

  /** kmx_sync_poll over the snapshot `current`. */
  function PollResult(sender: Sender, current: Grid, due: bool): (r: (Sender, Outcome))
    requires |sender.rowChangedAt| == MAX_DIMENSION && |sender.history| == HISTORY
    requires ValidGrid(current) && NextSlot(sender.history, sender.ackedSequence).Some?
  {
    if IsQuiet(sender, current) then (sender, Quiet)
    else if !due then (sender, Waiting)
    else
      var base := Baseline(sender, current);
      var body := EncodeRows(base, current, RepairMask(sender, LastSent(sender), current));
      (Remembered(sender, current, NextSlot(sender.history, sender.ackedSequence).value),
       Sent(sender.nextSequence, base.None?, body))
  }

  /** kmx_sync_ack_at, without the round-trip estimate. */
  function AckResult(sender: Sender, sequence: nat): (r: (Sender, Status))
    requires |sender.history| == HISTORY
  {
    if sequence == 0 || sequence >= sender.nextSequence then (sender, Invalid)
    else if sequence <= sender.ackedSequence then (sender, Ok)
    else match AtOrBefore(sender.history, sequence)
      case None => (sender, Ok)
      case Some(k) =>
        var slot := sender.history[k];
        if slot.sequence <= sender.ackedSequence then (sender, Ok)
        else (sender.(acked := slot.state, ackedValid := true, ackedSequence := slot.sequence), Ok)
  }

  function Forgotten(slot: Slot): Slot { slot.(used := false) }

  /** kmx_sync_reset_baseline. */
  function ResetResult(sender: Sender): Sender {
    sender.(
      ackedValid := false,
      ackedSequence := if sender.nextSequence > 0 then sender.nextSequence - 1 else 0,
      history := seq(|sender.history|, k requires 0 <= k < |sender.history| => Forgotten(sender.history[k])),
      rowChangedAt := seq(|sender.rowChangedAt|, _ => 0),
      cursorChangedAt := 0)
  }

  function InitialSender(rows: nat, cols: nat): Sender {
    var blank := Grid(rows, cols, 0, 0, true, BlankCells(rows, cols));
    Sender(blank, false, 0, seq(MAX_DIMENSION, _ => 0), 0, seq(HISTORY, _ => Slot(false, 0, blank)), 1)
  }

  // ---- the sender as the source runs it -------------------------------------------------

  class SyncSender {
    var acked: Grid
    var ackedValid: bool
    var ackedSequence: nat
    const rowChangedAt: array<nat>
    var cursorChangedAt: nat
    const history: array<Slot>
    var nextSequence: nat

    ghost predicate Valid()
      reads this, rowChangedAt, history
    {
      && rowChangedAt.Length == MAX_DIMENSION && history.Length == HISTORY
      && Distinct(history[..]) && 1 <= nextSequence
      && forall k :: 0 <= k < HISTORY && history[k].used ==> history[k].sequence < nextSequence
    }

    ghost function View(): Sender
      reads this, rowChangedAt, history
    {
      Sender(acked, ackedValid, ackedSequence, rowChangedAt[..], cursorChangedAt, history[..], nextSequence)
    }

    constructor (rows: nat, cols: nat)
      requires ValidDimensions(rows, cols)
      ensures Valid() && fresh(rowChangedAt) && fresh(history)
      ensures View() == InitialSender(rows, cols)
    {
      var blank := Grid(rows, cols, 0, 0, true, BlankCells(rows, cols));
      acked, ackedValid, ackedSequence := blank, false, 0;
      rowChangedAt := new nat[MAX_DIMENSION](_ => 0);
      history := new Slot[HISTORY](_ => Slot(false, 0, blank));
      cursorChangedAt, nextSequence := 0, 1;
      new;
      assert rowChangedAt[..] == InitialSender(rows, cols).rowChangedAt;
      assert history[..] == InitialSender(rows, cols).history;
    }

    method HistoryAtOrBefore(sequence: nat) returns (best: Option<nat>)
      ensures best == AtOrBefore(history[..], sequence)
    {
      best := None;
      var index := 0;
      while index < history.Length
        invariant index <= history.Length && (best.Some? ==> best.value < history.Length)
        invariant AtOrBefore(history[..], sequence) == AtOrBeforeFrom(history[..], sequence, index, best)
      {
        var slot := history[index];
        if slot.used && slot.sequence <= sequence && (best.None? || slot.sequence > history[best.value].sequence) {
          best := Some(index);
        }
        index := index + 1;
      }
    }

    method HistoryNextSlot() returns (next: Option<nat>)
      ensures next == NextSlot(history[..], ackedSequence)
    {
      var oldest: Option<nat>, second: Option<nat> := None, None;
      var index := 0;
      while index < history.Length
        invariant index <= history.Length
        invariant (oldest.Some? ==> oldest.value < history.Length) && (second.Some? ==> second.value < history.Length)
        invariant NextSlot(history[..], ackedSequence) ==
                  NextSlotFrom(history[..], ackedSequence, index, oldest, second)
      {
        var slot := history[index];
        if !slot.used || slot.sequence <= ackedSequence { return Some(index); }
        if oldest.None? || slot.sequence < history[oldest.value].sequence {
          oldest, second := Some(index), oldest;
        } else if second.None? || slot.sequence < history[second.value].sequence {
          second := Some(index);
        }
        index := index + 1;
      }
      next := second;
    }

    method FindLastSent() returns (last: Option<Grid>)
      requires Valid()
      ensures last == LastSent(View())
    {
      last := None;
      if nextSequence > 1 {
        var k := HistoryAtOrBefore(nextSequence - 1);
        if k.Some? && history[k.value].sequence == nextSequence - 1 { last := Some(history[k.value].state); }
      }
    }

    /** The two row masks, and whether any row has something to say. */
    method RowMasks(last: Option<Grid>, current: Grid) returns (changed: seq<bool>, repair: seq<bool>, pending: bool)
      requires Valid() && ValidGrid(current)
      ensures |changed| == current.rows && repair == RepairMask(View(), last, current)
      ensures forall r :: 0 <= r < current.rows ==> changed[r] == RowChangedSince(last, current, r)
      ensures !pending <==> forall r :: 0 <= r < current.rows ==>
                !RowChangedSince(last, current, r) && !NeedsRepair(View(), last, current, r)
    {
      changed, repair, pending := [], [], false;
      var row := 0;
      while row < current.rows
        invariant row <= current.rows && |changed| == |repair| == row
        invariant forall r :: 0 <= r < row ==> changed[r] == RowChangedSince(last, current, r)
        invariant forall r :: 0 <= r < row ==> repair[r] == NeedsRepair(View(), last, current, r)
        invariant !pending <==> forall r :: 0 <= r < row ==>
                    !RowChangedSince(last, current, r) && !NeedsRepair(View(), last, current, r)
      {
        var c := last.None? || !SameRow(last.value, current, row);
        var n := last.None? || !SameSize(last.value, current) || rowChangedAt[row] > ackedSequence;
        assert c == RowChangedSince(last, current, row) && n == NeedsRepair(View(), last, current, row);
        changed, repair, pending := changed + [c], repair + [n], pending || c || n;
        row := row + 1;
      }
      assert repair == RepairMask(View(), last, current);
    }

    /** Remember what this sequence claimed. */
    method Commit(slot: nat, current: Grid, changed: seq<bool>, cursorChanged: bool)
      requires Valid() && ValidGrid(current) && slot < HISTORY && |changed| == current.rows
      requires forall r :: 0 <= r < current.rows ==> changed[r] == RowChangedSince(LastSent(View()), current, r)
      requires cursorChanged == CursorChangedSince(LastSent(View()), current)
      modifies this`cursorChangedAt, this`nextSequence, rowChangedAt, history
      ensures Valid() && View() == Remembered(old(View()), current, slot)
    {
      ghost var before := View();
      ghost var after := Remembered(before, current, slot);
      history[slot] := Slot(true, nextSequence, current);
      for row := 0 to current.rows
        modifies rowChangedAt
        invariant forall r :: 0 <= r < row ==> rowChangedAt[r] == after.rowChangedAt[r]
        invariant forall r :: row <= r < MAX_DIMENSION ==> rowChangedAt[r] == before.rowChangedAt[r]
      {
        if changed[row] { rowChangedAt[row] := nextSequence; }
      }
      assert rowChangedAt[..] == after.rowChangedAt;
      if cursorChanged { cursorChangedAt := nextSequence; }
      nextSequence := nextSequence + 1;
      assert history[..] == after.history;
    }

    method Poll(current: Grid, due: bool) returns (outcome: Outcome)
      requires Valid() && ValidGrid(current) && (ackedValid ==> ValidGrid(acked))
      modifies this, rowChangedAt, history
      ensures Valid()
      ensures NextSlot(old(history[..]), old(ackedSequence)).Some?
      ensures (View(), outcome) == PollResult(old(View()), current, due)
    {
      hide EncodeRows, Remembered, LastSent, NextSlot, Distinct;
      SlotExists();
      var last := FindLastSent();
      var changed, repair, pending := RowMasks(last, current);
      var cursorChanged := last.None? || !SameCursor(last.value, current);
      pending := pending || cursorChanged || cursorChangedAt > ackedSequence;
      assert !pending <==> NothingPending(View(), last, current);
      if ackedValid && !pending && acked == current { return Quiet; }
      if !due { return Waiting; }
      var fromScratch := !ackedValid || !SameSize(acked, current);
      var body := CellPlane.CellsEncodeRows(if fromScratch then None else Some(acked), current, Some(repair));
      var slot := HistoryNextSlot();
      outcome := Sent(nextSequence, fromScratch, body);
      Commit(slot.value, current, changed, cursorChanged);
    }

    lemma SlotExists()
      requires Valid()
      ensures NextSlot(history[..], ackedSequence).Some? && NextSlot(history[..], ackedSequence).value < HISTORY
    {
      NextSlotExpendable(history[..], ackedSequence);
    }

    method Ack(sequence: nat) returns (status: Status)
      requires Valid()
      modifies this`acked, this`ackedValid, this`ackedSequence
      ensures Valid() && (View(), status) == AckResult(old(View()), sequence)
    {
      if sequence == 0 || sequence >= nextSequence { return Invalid; }
      if sequence <= ackedSequence { return Ok; }
      var k := HistoryAtOrBefore(sequence);
      if k.None? || history[k.value].sequence <= ackedSequence { return Ok; }
      acked, ackedValid, ackedSequence := history[k.value].state, true, history[k.value].sequence;
      return Ok;
    }

    method ResetBaseline()
      requires Valid()
      modifies this, rowChangedAt, history
      ensures Valid() && View() == ResetResult(old(View()))
    {
      ackedValid := false;
      ackedSequence := Max(nextSequence - 1, 0);
      for index := 0 to history.Length
        modifies history
        invariant forall k :: 0 <= k < index ==> history[k] == Forgotten(old(history[k]))
        invariant forall k :: index <= k < history.Length ==> history[k] == old(history[k])
      {
        history[index] := Forgotten(history[index]);
      }
      forall row | 0 <= row < rowChangedAt.Length { rowChangedAt[row] := 0; }
      cursorChangedAt := 0;
      assert history[..] == ResetResult(old(View())).history;
      assert rowChangedAt[..] == ResetResult(old(View())).rowChangedAt;
    }
  }
}
