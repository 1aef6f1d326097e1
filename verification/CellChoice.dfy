/** Which cells the encoder sends, and how: rows that changed or are forced, in
them the cells that changed or all of them, in as few runs as the styles allow
(src/codec.c:113-250). */
module CellChoice {
  import opened Bytes
  import opened Screen
  import opened Codec

  // ---- the sampling estimate ---------------------------------------------------------

  /** Every eighth part of a row is looked at. */
  predicate Looked(col: nat, cols: nat) {
    if cols < 8 then true else col % (cols / 8) == 0
  }

  /** At least half of the columns looked at changed. */
  predicate Dense(before: seq<Cell>, cells: seq<Cell>)
    requires |before| == |cells|
  {
    2 * |set c | 0 <= c < |cells| && Looked(c, |cells|) && before[c] != cells[c]|
    >= |set c | 0 <= c < |cells| && Looked(c, |cells|)|
  }

  predicate OnStride(col: nat, at: nat, stride: nat)
    requires stride > 0
  {
    at <= col && (col - at) % stride == 0
  }

  function Differing(before: seq<Cell>, cells: seq<Cell>, at: nat, stride: nat): set<nat>
    requires |before| == |cells| && stride > 0
  {
    set c: nat | c < |cells| && OnStride(c, at, stride) && before[c] != cells[c]
  }

  function Visited(cells: seq<Cell>, at: nat, stride: nat): set<nat>
    requires stride > 0
  {
    set c: nat | c < |cells| && OnStride(c, at, stride)
  }

  lemma Multiple(gap: int, stride: nat)
    ensures (gap >= 1 ==> gap * stride >= stride) && (gap <= -1 ==> gap * stride <= 0 - stride)
  {
  }

  lemma Remainder(x: nat, stride: nat, quotient: int, rest: nat)
    requires x == quotient * stride + rest && rest < stride
    ensures x % stride == rest
  {
    var gap := x / stride - quotient;
    assert x == x / stride * stride + x % stride;
    assert gap * stride == rest - x % stride;
    Multiple(gap, stride);
  }

  lemma StrideNext(col: nat, at: nat, stride: nat)
    requires stride > 0
    ensures OnStride(col, at, stride) <==> col == at || OnStride(col, at + stride, stride)
  {
    if at + stride <= col {
      var x, next := col - at, col - at - stride;
      assert next == next / stride * stride + next % stride;
      assert x == (next / stride + 1) * stride + next % stride;
      Remainder(x, stride, next / stride + 1, next % stride);
    } else if at < col {
      Remainder(col - at, stride, 0, col - at);
    } else if col == at {
      Remainder(0, stride, 0, 0);
    }
  }

  lemma {:induction false} SampledCounts(before: seq<Cell>, cells: seq<Cell>, at: nat, stride: nat)
    requires |before| == |cells| && stride > 0
    ensures Sampled(before, cells, at, stride) == (|Differing(before, cells, at, stride)|, |Visited(cells, at, stride)|)
    decreases |cells| - at
  {
    hide Differing, Visited, Sampled, OnStride;
    if at >= |cells| {
      SampledEnd(before, cells, at, stride);
    } else {
      SampledCounts(before, cells, at + stride, stride);
      SetsNext(before, cells, at, stride);
      SampledNext(before, cells, at, stride);
    }
  }

  lemma SampledEnd(before: seq<Cell>, cells: seq<Cell>, at: nat, stride: nat)
    requires |before| == |cells| && stride > 0 && at >= |cells|
    ensures Sampled(before, cells, at, stride) == (0, 0)
    ensures Differing(before, cells, at, stride) == {} && Visited(cells, at, stride) == {}
  {
    assert Differing(before, cells, at, stride) == {} && Visited(cells, at, stride) == {};
  }

  lemma SampledNext(before: seq<Cell>, cells: seq<Cell>, at: nat, stride: nat)
    requires |before| == |cells| && stride > 0 && at < |cells|
    ensures var rest := Sampled(before, cells, at + stride, stride);
            Sampled(before, cells, at, stride) == (rest.0 + (if before[at] == cells[at] then 0 else 1), rest.1 + 1)
  {
  }

  lemma SetsNext(before: seq<Cell>, cells: seq<Cell>, at: nat, stride: nat)
    requires |before| == |cells| && stride > 0 && at < |cells|
    ensures var differ := Differing(before, cells, at + stride, stride);
            && at !in differ
            && Differing(before, cells, at, stride) == (if before[at] == cells[at] then differ else {at} + differ)
    ensures var visited := Visited(cells, at + stride, stride);
            at !in visited && Visited(cells, at, stride) == {at} + visited
  {
    forall c: nat ensures OnStride(c, at, stride) <==> c == at || OnStride(c, at + stride, stride) {
      StrideNext(c, at, stride);
    }
    assert !OnStride(at, at + stride, stride);
    hide OnStride;
  }

  lemma StrideOne(x: nat)
    ensures x % 1 == 0
  {
  }

  /** The sampling decides as it says. */
  lemma DenseIff(before: seq<Cell>, cells: seq<Cell>)
    requires |before| == |cells|
    ensures Base(Some(before), cells) == if Dense(before, cells) then None else Some(before)
  {
    var cols := |cells|;
    SampledCounts(before, cells, 0, Stride(cols));
    forall c: nat ensures OnStride(c, 0, Stride(cols)) <==> Looked(c, cols) {
      StrideOne(c);
    }
    assert Differing(before, cells, 0, Stride(cols)) ==
           set c | 0 <= c < |cells| && Looked(c, |cells|) && before[c] != cells[c];
    assert Visited(cells, 0, Stride(cols)) == set c | 0 <= c < |cells| && Looked(c, |cells|);
  }

  // ---- one row -------------------------------------------------------------------------

  function End(run: Run): nat { run.col + |run.texts| }

  ghost predicate Covered(runs: seq<Run>, col: nat) {
    exists k :: 0 <= k < |runs| && runs[k].col <= col < End(runs[k])
  }

  /** Runs go from left to right, none is empty, and neighbours that touch differ in
  style. */
  ghost predicate Tidy(runs: seq<Run>) {
    forall k :: 0 <= k < |runs| ==>
      && runs[k].texts != []
      && (k + 1 < |runs| ==>
            && End(runs[k]) <= runs[k + 1].col
            && (End(runs[k]) == runs[k + 1].col ==> runs[k].style != runs[k + 1].style))
  }

  lemma {:induction false} RunEndStops(before: Option<seq<Cell>>, cells: seq<Cell>, first: nat, end: nat)
    requires first < end <= |cells| && (before.Some? ==> |before.value| == |cells|)
    requires forall c :: first <= c < end ==> !Kept(before, cells, c)
    ensures var stop := RunEnd(before, cells, first, end);
            && (forall c :: first <= c < stop ==> !Kept(before, cells, c))
            && (stop < |cells| ==> cells[stop].style != cells[first].style || Kept(before, cells, stop))
    decreases |cells| - end
  {
    if end < |cells| && cells[end].style == cells[first].style && !Kept(before, cells, end) {
      RunEndStops(before, cells, first, end + 1);
    }
  }

  lemma RunsFirst(run: Run, rest: seq<Run>, col: nat)
    ensures Covered([run] + rest, col) <==> run.col <= col < End(run) || Covered(rest, col)
  {
    var runs := [run] + rest;
    if run.col <= col < End(run) { assert runs[0] == run; }
    if Covered(rest, col) {
      var k :| 0 <= k < |rest| && rest[k].col <= col < End(rest[k]);
      assert runs[k + 1] == rest[k];
    }
  }

  lemma TidyFirst(run: Run, rest: seq<Run>)
    requires Tidy(rest) && run.texts != []
    requires rest != [] ==> End(run) <= rest[0].col && (End(run) == rest[0].col ==> run.style != rest[0].style)
    ensures Tidy([run] + rest)
  {
    var runs := [run] + rest;
    forall k | 0 <= k < |runs|
      ensures runs[k].texts != []
      ensures k + 1 < |runs| ==> End(runs[k]) <= runs[k + 1].col
      ensures k + 1 < |runs| && End(runs[k]) == runs[k + 1].col ==> runs[k].style != runs[k + 1].style
    {
      if k > 0 { assert runs[k] == rest[k - 1]; }
    }
  }

  /** Exactly the cells the receiver does not hold are sent, each once. */
  lemma {:induction false} RunsCover(before: Option<seq<Cell>>, cells: seq<Cell>, col: nat)
    requires col <= |cells| && (before.Some? ==> |before.value| == |cells|)
    ensures var runs := RunsFrom(before, cells, col);
            && Tidy(runs)
            && (forall c: nat :: Covered(runs, c) <==> col <= c < |cells| && !Kept(before, cells, c))
            && (runs != [] ==>
                  col <= runs[0].col < |cells| && runs[0].style == cells[runs[0].col].style &&
                  !Kept(before, cells, runs[0].col))
    decreases |cells| - col
  {
    hide TextsOf, RunEnd, Tidy, Covered;
    if col == |cells| {
      assert Tidy([]) && forall c: nat :: !Covered([], c) by { NoRuns(); }
    } else if Kept(before, cells, col) {
      RunsCover(before, cells, col + 1);
    } else {
      var end := RunEnd(before, cells, col, col + 1);
      RunEndStops(before, cells, col, col + 1);
      RunsCover(before, cells, end);
      var run, rest := RunAt(cells, col, end), RunsFrom(before, cells, end);
      TidyFirst(run, rest);
      forall c: nat ensures Covered([run] + rest, c) <==> col <= c < |cells| && !Kept(before, cells, c) {
        RunsFirst(run, rest, c);
      }
    }
  }

  lemma NoRuns()
    ensures Tidy([]) && forall c: nat :: !Covered([], c)
  {
  }

  // ---- the message ------------------------------------------------------------------------

  /** The receiver may hold a screen of the same size whose row agrees with `previous`
  and may be diffed against. */
  predicate Diffable(previous: Option<Grid>, current: Grid, forced: bool) {
    previous.Some? && SameSize(previous.value, current) && !forced
  }

  predicate RowSent(previous: Option<Grid>, current: Grid, forced: bool, row: nat)
    requires row < |current.cells|
    requires previous.Some? && SameSize(previous.value, current) ==> row < |previous.value.cells|
  {
    !Diffable(previous, current, forced) || previous.value.cells[row] != current.cells[row]
  }

  predicate CellSent(previous: Option<Grid>, current: Grid, forced: bool, row: nat, col: nat)
    requires row < |current.cells| && col < |current.cells[row]|
    requires previous.Some? && SameSize(previous.value, current) ==>
               row < |previous.value.cells| && |previous.value.cells[row]| == |current.cells[row]|
  {
    || !Diffable(previous, current, forced)
    || Dense(previous.value.cells[row], current.cells[row])
    || previous.value.cells[row][col] != current.cells[row][col]
  }

  ghost predicate Rows(patches: seq<Patch>, row: nat) {
    exists k :: 0 <= k < |patches| && patches[k].row == row
  }

  ghost predicate PatchExact(previous: Option<Grid>, current: Grid, mask: seq<bool>, patch: Patch)
    requires ValidGrid(current) && |mask| == current.rows && (previous.Some? ==> ValidGrid(previous.value))
  {
    && patch.row < current.rows && RowSent(previous, current, mask[patch.row], patch.row)
    && Tidy(patch.runs)
    && forall c: nat :: Covered(patch.runs, c) <==>
         c < current.cols && CellSent(previous, current, mask[patch.row], patch.row, c)
  }

  ghost predicate Ascending(patches: seq<Patch>, from: nat) {
    forall k :: 0 <= k < |patches| ==> from <= patches[k].row && (k > 0 ==> patches[k - 1].row < patches[k].row)
  }

  lemma RowPatchExact(previous: Option<Grid>, current: Grid, mask: seq<bool>, row: nat)
    requires ValidGrid(current) && |mask| == current.rows && (previous.Some? ==> ValidGrid(previous.value))
    requires row < current.rows && RowSent(previous, current, mask[row], row)
    ensures PatchExact(previous, current, mask, RowPatch(RowBase(previous, current, mask[row], row),
                                                         current.cells[row], row))
  {
    hide Dense, Base, RunsFrom, RowInRange, Tidy, Covered;
    var base, cells := RowBase(previous, current, mask[row], row), current.cells[row];
    if base.Some? { DenseIff(base.value, cells); } else { assert Base(base, cells) == None by { NoBase(cells); } }
    RunsCover(Base(base, cells), cells, 0);
  }

  lemma NoBase(cells: seq<Cell>)
    ensures Base(None, cells) == None
  {
  }

  /** The rows from `from` on are sent exactly as they should be. */
  ghost predicate Exact(previous: Option<Grid>, current: Grid, mask: seq<bool>, patches: seq<Patch>, from: nat)
    requires ValidGrid(current) && |mask| == current.rows && (previous.Some? ==> ValidGrid(previous.value))
  {
    && Ascending(patches, from)
    && (forall k :: 0 <= k < |patches| ==> PatchExact(previous, current, mask, patches[k]))
    && (forall r :: from <= r < current.rows ==> (Rows(patches, r) <==> RowSent(previous, current, mask[r], r)))
  }

  lemma ExactSkip(previous: Option<Grid>, current: Grid, mask: seq<bool>, patches: seq<Patch>, from: nat)
    requires ValidGrid(current) && |mask| == current.rows && (previous.Some? ==> ValidGrid(previous.value))
    requires from < current.rows && !RowSent(previous, current, mask[from], from)
    requires Exact(previous, current, mask, patches, from + 1)
    ensures Exact(previous, current, mask, patches, from)
  {
    hide ValidGrid, PatchExact, RowSent;
  }

  lemma ExactFirst(previous: Option<Grid>, current: Grid, mask: seq<bool>, patch: Patch, rest: seq<Patch>)
    requires ValidGrid(current) && |mask| == current.rows && (previous.Some? ==> ValidGrid(previous.value))
    requires patch.row < current.rows && RowSent(previous, current, mask[patch.row], patch.row)
    requires PatchExact(previous, current, mask, patch) && Exact(previous, current, mask, rest, patch.row + 1)
    ensures Exact(previous, current, mask, [patch] + rest, patch.row)
  {
    hide RowInRange, PatchExact, RowSent;
    var patches := [patch] + rest;
    assert forall k :: 1 <= k < |patches| ==> patches[k] == rest[k - 1];
    forall r | patch.row <= r < current.rows
      ensures Rows(patches, r) <==> RowSent(previous, current, mask[r], r)
    {
      if r == patch.row { assert patches[0].row == r; }
      if Rows(rest, r) {
        var k :| 0 <= k < |rest| && rest[k].row == r;
        assert patches[k + 1].row == r;
      }
    }
  }

  lemma PatchesStep(previous: Option<Grid>, current: Grid, mask: seq<bool>, row: nat)
    requires ValidGrid(current) && |mask| == current.rows && (previous.Some? ==> ValidGrid(previous.value))
    requires row < current.rows
    ensures var patch := RowPatch(RowBase(previous, current, mask[row], row), current.cells[row], row);
            var rest := PatchesFrom(previous, current, mask, row + 1);
            && patch.row == row
            && PatchesFrom(previous, current, mask, row) ==
               if RowSent(previous, current, mask[row], row) then [patch] + rest else rest
  {
    hide RowInRange, RunsFrom, Base;
  }

  lemma ExactEnd(previous: Option<Grid>, current: Grid, mask: seq<bool>)
    requires ValidGrid(current) && |mask| == current.rows && (previous.Some? ==> ValidGrid(previous.value))
    ensures Exact(previous, current, mask, PatchesFrom(previous, current, mask, current.rows), current.rows)
  {
    hide RowInRange, PatchExact, RowSent;
  }

  lemma ExactHere(previous: Option<Grid>, current: Grid, mask: seq<bool>, row: nat)
    requires ValidGrid(current) && |mask| == current.rows && (previous.Some? ==> ValidGrid(previous.value))
    requires row < current.rows
    requires Exact(previous, current, mask, PatchesFrom(previous, current, mask, row + 1), row + 1)
    ensures Exact(previous, current, mask, PatchesFrom(previous, current, mask, row), row)
  {
    hide PatchExact, RowPatch, RowBase, PatchesFrom, Exact, RowSent, RowInRange;
    PatchesStep(previous, current, mask, row);
    var rest := PatchesFrom(previous, current, mask, row + 1);
    if RowSent(previous, current, mask[row], row) {
      RowPatchExact(previous, current, mask, row);
      var patch := RowPatch(RowBase(previous, current, mask[row], row), current.cells[row], row);
      ExactFirst(previous, current, mask, patch, rest);
    } else {
      ExactSkip(previous, current, mask, rest, row);
    }
  }

  lemma {:induction false} PatchesExact(previous: Option<Grid>, current: Grid, mask: seq<bool>, from: nat)
    requires ValidGrid(current) && |mask| == current.rows && (previous.Some? ==> ValidGrid(previous.value))
    requires from <= current.rows
    ensures Exact(previous, current, mask, PatchesFrom(previous, current, mask, from), from)
    decreases current.rows - from
  {
    hide PatchesFrom, Exact, RowInRange;
    if from == current.rows {
      ExactEnd(previous, current, mask);
    } else {
      PatchesExact(previous, current, mask, from + 1);
      ExactHere(previous, current, mask, from);
    }
  }

  /** What a message says: the rows that are forced, that changed or that have no
  baseline of this size, in order; in a forced, rebased or dense row every cell,
  in another exactly the cells that changed; and each in as few runs as the styles
  allow. */
  lemma EncodesOnlyNews(previous: Option<Grid>, current: Grid, mask: seq<bool>)
    requires ValidGrid(current) && |mask| == current.rows && (previous.Some? ==> ValidGrid(previous.value))
    ensures exists patches ::
              EncodeRows(previous, current, mask) == PutMessage(current, patches) &&
              Exact(previous, current, mask, patches, 0)
  {
    hide PutMessage, Exact, PatchesFrom;
    PatchesExact(previous, current, mask, 0);
    var patches := PatchesFrom(previous, current, mask, 0);
    assert EncodeRows(previous, current, mask) == PutMessage(current, patches);
  }
}
