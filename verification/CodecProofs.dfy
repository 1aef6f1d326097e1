/** The three laws of the cell plane: decoding inverts encoding, the decoder
accepts exactly whole messages, and no bytes can damage a grid. */
module CodecProofs {
  import opened Bytes
  import opened Screen
  import opened Codec

  // ---- decoding inverts encoding -----------------------------------------------

  lemma ReadBoundedPut(data: seq<Byte>, at: nat, value: nat, limit: nat)
    requires value <= limit && value < TWO64 && At(data, at, PutVarint(value))
    ensures ReadBounded(data, at, limit) == Field(value, at + |PutVarint(value)|)
  {
    VarintRoundTrip(data, at, value);
  }

  ghost predicate CodesInRange(codes: seq<nat>) {
    forall k :: 0 <= k < |codes| ==> codes[k] <= MAX_CODE_POINT
  }

  ghost function Filled(chars: seq<nat>, slot: nat, codes: seq<nat>): seq<nat>
    requires slot + |codes| <= |chars|
  {
    chars[..slot] + codes + chars[slot + |codes|..]
  }

  lemma {:induction false} ReadCodesPut(data: seq<Byte>, at: nat, codes: seq<nat>, chars: seq<nat>, slot: nat)
    requires slot + |codes| <= |chars| && CodesInRange(codes) && At(data, at, PutCodes(codes))
    ensures ReadCodes(data, at, chars, slot, slot + |codes|) ==
            CharsRead(Filled(chars, slot, codes), Ok, at + |PutCodes(codes)|)
    decreases |codes|
  {
    hide PutVarint, ReadBounded, At;
    if codes == [] {
      assert Filled(chars, slot, codes) == chars;
    } else {
      AtSplit(data, at, PutVarint(codes[0]), PutCodes(codes[1..]));
      ReadBoundedPut(data, at, codes[0], TWO64);
      ReadCodesPut(data, at + |PutVarint(codes[0])|, codes[1..], chars[slot := codes[0]], slot + 1);
      assert Filled(chars[slot := codes[0]], slot + 1, codes[1..]) == Filled(chars, slot, codes);
    }
  }

  ghost predicate TextInRange(text: seq<nat>) {
    |text| <= MAX_CHARS && CodesInRange(text)
  }

  ghost function CellOf(text: seq<nat>, style: Style): Cell
    requires |text| <= MAX_CHARS
  {
    Cell(Filled(NO_CHARS, 0, text), style)
  }

  lemma CellOfText(cell: Cell)
    requires WellFormedCell(cell)
    ensures TextInRange(TextOf(cell)) && CellOf(TextOf(cell), cell.style) == cell
  {
    var count := CharCount(cell.chars);
    assert forall k :: count <= k < MAX_CHARS ==> cell.chars[k] == 0;
    assert Filled(NO_CHARS, 0, TextOf(cell)) == cell.chars;
  }

  ghost function Spliced(row: seq<Cell>, col: nat, cells: seq<Cell>): (spliced: seq<Cell>)
    requires col + |cells| <= |row|
    ensures |spliced| == |row|
  {
    row[..col] + cells + row[col + |cells|..]
  }

  lemma SpliceStep(row: seq<Cell>, col: nat, cells: seq<Cell>)
    requires 0 < |cells| && col + |cells| <= |row|
    ensures Spliced(row[col := cells[0]], col + 1, cells[1..]) == Spliced(row, col, cells)
  {
  }

  lemma ReadCellPut(data: seq<Byte>, at: nat, cell: Cell, rest: seq<Byte>)
    requires WellFormedCell(cell) && At(data, at, (PutVarint(|TextOf(cell)|) + PutCodes(TextOf(cell))) + rest)
    ensures ReadBounded(data, at, MAX_CHARS) == Field(|TextOf(cell)|, at + |PutVarint(|TextOf(cell)|)|)
    ensures var codes := ReadCodes(data, at + |PutVarint(|TextOf(cell)|)|, NO_CHARS, 0, |TextOf(cell)|);
            codes.status == Ok && Cell(codes.chars, cell.style) == cell &&
            codes.next == at + |PutVarint(|TextOf(cell)|)| + |PutCodes(TextOf(cell))| && At(data, codes.next, rest)
  {
    hide PutVarint, PutCodes, ReadBounded, ReadCodes, TextOf, At, WellFormedCell, CodesInRange, Filled;
    var text := TextOf(cell);
    CellOfText(cell);
    AtSplit(data, at, PutVarint(|text|) + PutCodes(text), rest);
    AtSplit(data, at, PutVarint(|text|), PutCodes(text));
    ReadBoundedPut(data, at, |text|, MAX_CHARS);
    ReadCodesPut(data, at + |PutVarint(|text|)|, text, NO_CHARS, 0);
  }

  /** Reading the texts of `cells` at `col` writes exactly those cells. */
  lemma {:induction false} ReadCellsPut(data: seq<Byte>, at: nat, row: seq<Cell>, col: nat, cells: seq<Cell>,
                                        style: Style)
    requires col + |cells| <= |row| && WellFormedRow(cells)
    requires forall k :: 0 <= k < |cells| ==> cells[k].style == style
    requires At(data, at, PutTexts(TextsOf(cells)))
    ensures ReadCells(data, at, row, col, |cells|, style) ==
            RowRead(Spliced(row, col, cells), Ok, at + |PutTexts(TextsOf(cells))|)
    decreases |cells|
  {
    hide PutVarint, ReadBounded, ReadCodes, PutCodes, TextOf, At, WellFormedCell;
    if cells == [] {
      assert Spliced(row, col, cells) == row;
    } else {
      hide Spliced;
      var text, rest := TextOf(cells[0]), cells[1..];
      assert TextsOf(cells) == [text] + TextsOf(rest);
      assert TextsOf(cells)[1..] == TextsOf(rest);
      ReadCellPut(data, at, cells[0], PutTexts(TextsOf(rest)));
      var next := at + |PutVarint(|text|)| + |PutCodes(text)|;
      ReadCellsPut(data, next, row[col := cells[0]], col + 1, rest, style);
      SpliceStep(row, col, cells);
    }
  }

  lemma ReadColorPut(data: seq<Byte>, at: nat, color: Color)
    requires color.kind <= 2 && At(data, at, PutColor(color))
    ensures ReadColor(data, at) == ColorField(color, at + 4)
  {
    var piece := data[at..at + 4];
    assert data[at] == piece[0] && data[at + 1] == piece[1] && data[at + 2] == piece[2] && data[at + 3] == piece[3];
  }

  lemma ReadStylePut(data: seq<Byte>, at: nat, style: Style)
    requires StyleInRange(style) && At(data, at, PutStyle(style))
    ensures ReadStyle(data, at) == StyleField(style, at + |PutStyle(style)|)
  {
    hide PutVarint, ReadBounded;
    var at1 := at + |PutVarint(style.attrs)|;
    var shape: seq<Byte> := [style.underline, style.width];
    AtSplit(data, at, PutVarint(style.attrs), shape + PutColor(style.fg) + PutColor(style.bg));
    AtSplit3(data, at1, shape, PutColor(style.fg), PutColor(style.bg));
    ReadBoundedPut(data, at, style.attrs, 0xffff);
    assert data[at1] == data[at1..at1 + 2][0] && data[at1 + 1] == data[at1..at1 + 2][1];
    ReadColorPut(data, at1 + 2, style.fg);
    ReadColorPut(data, at1 + 6, style.bg);
  }

  lemma RunEndUniform(before: Option<seq<Cell>>, cells: seq<Cell>, first: nat, end: nat)
    requires first < end <= |cells| && (before.Some? ==> |before.value| == |cells|)
    requires forall k :: first <= k < end ==> cells[k].style == cells[first].style
    ensures forall k :: first <= k < RunEnd(before, cells, first, end) ==> cells[k].style == cells[first].style
    decreases |cells| - end
  {
  }

  lemma RunAtCells(cells: seq<Cell>, col: nat, end: nat)
    requires col < end <= |cells| && WellFormedRow(cells)
    requires forall k :: col <= k < end ==> cells[k].style == cells[col].style
    ensures WellFormedRow(cells[col..end]) && StyleInRange(cells[col].style)
    ensures forall k :: 0 <= k < end - col ==> cells[col..end][k].style == cells[col].style
  {
    assert WellFormedCell(cells[col]);
  }

  lemma ReadRunPut(data: seq<Byte>, at: nat, row: seq<Cell>, cells: seq<Cell>, col: nat, end: nat)
    requires col < end <= |cells| == |row| && |row| <= MAX_DIMENSION && WellFormedRow(cells)
    requires forall k :: col <= k < end ==> cells[k].style == cells[col].style
    requires At(data, at, PutRun(RunAt(cells, col, end)))
    ensures ReadRun(data, at, row) ==
            RowRead(Spliced(row, col, cells[col..end]), Ok, at + |PutRun(RunAt(cells, col, end))|)
  {
    hide PutVarint, PutStyle, PutTexts, TextsOf, ReadBounded, ReadStyle, ReadCells, At, WellFormedRow, Spliced,
         StyleInRange;
    var part, style := cells[col..end], cells[col].style;
    var texts := TextsOf(part);
    RunAtCells(cells, col, end);
    var at1 := at + |PutVarint(col)|;
    var at2 := at1 + |PutVarint(|texts|)|;
    var at3 := at2 + |PutStyle(style)|;
    AtSplit(data, at, PutVarint(col), PutVarint(|texts|) + (PutStyle(style) + PutTexts(texts)));
    AtSplit(data, at1, PutVarint(|texts|), PutStyle(style) + PutTexts(texts));
    AtSplit(data, at2, PutStyle(style), PutTexts(texts));
    ReadBoundedPut(data, at, col, |row| - 1);
    ReadBoundedPut(data, at1, |texts|, |row| - col);
    ReadStylePut(data, at2, style);
    ReadCellsPut(data, at3, row, col, part, style);
  }

  lemma RunsNext(before: Option<seq<Cell>>, cells: seq<Cell>, col: nat)
    requires col < |cells| && (before.Some? ==> |before.value| == |cells|)
    ensures Kept(before, cells, col) ==> RunsFrom(before, cells, col) == RunsFrom(before, cells, col + 1)
    ensures !Kept(before, cells, col) ==>
      var end := RunEnd(before, cells, col, col + 1);
      var (run, rest) := (RunAt(cells, col, end), RunsFrom(before, cells, end));
      && |RunsFrom(before, cells, col)| == |rest| + 1
      && PutRuns(RunsFrom(before, cells, col)) == PutRun(run) + PutRuns(rest)
  {
    hide PutRun, RunAt, RunEnd;
    if !Kept(before, cells, col) {
      var end := RunEnd(before, cells, col, col + 1);
      assert ([RunAt(cells, col, end)] + RunsFrom(before, cells, end))[1..] == RunsFrom(before, cells, end);
    }
  }

  lemma RunsLast(before: Option<seq<Cell>>, cells: seq<Cell>)
    requires before.Some? ==> |before.value| == |cells|
    ensures RunsFrom(before, cells, |cells|) == [] && PutRuns([]) == []
  {
  }

  lemma ReadRunsNext(data: seq<Byte>, at: nat, row: seq<Cell>, left: nat, run: RowRead)
    requires |row| > 0 && run == ReadRun(data, at, row) && run.status == Ok
    ensures ReadRuns(data, at, row, left + 1) == ReadRuns(data, run.next, run.row, left)
  {
    hide ReadRun;
  }

  lemma ReadRunsLast(data: seq<Byte>, at: nat, row: seq<Cell>)
    requires |row| > 0
    ensures ReadRuns(data, at, row, 0) == RowRead(row, Ok, at)
  {
  }

  /** A row that is right up to `col`, extended by what is right after it. */
  lemma RightUpTo(row: seq<Cell>, cells: seq<Cell>, col: nat, end: nat)
    requires col <= end <= |cells| == |row| && row[..col] == cells[..col]
    requires forall k :: col <= k < end ==> row[k] == cells[k]
    ensures row[..end] == cells[..end] && (end == |cells| ==> row == cells)
  {
    assert forall k :: 0 <= k < col ==> row[k] == row[..col][k] && cells[k] == cells[..col][k];
  }

  /** Whatever base the encoder settled on, a row that holds the target up to
  `col`, and every kept cell after it, becomes the target. */
  lemma {:induction false} ReadRunsPut(data: seq<Byte>, at: nat, before: Option<seq<Cell>>, cells: seq<Cell>,
                                       col: nat, row: seq<Cell>)
    requires col <= |cells| == |row| && 0 < |row| <= MAX_DIMENSION && WellFormedRow(cells)
    requires before.Some? ==> |before.value| == |cells|
    requires row[..col] == cells[..col]
    requires forall k :: col <= k < |row| && Kept(before, cells, k) ==> row[k] == cells[k]
    requires At(data, at, PutRuns(RunsFrom(before, cells, col)))
    ensures ReadRuns(data, at, row, |RunsFrom(before, cells, col)|) ==
            RowRead(cells, Ok, at + |PutRuns(RunsFrom(before, cells, col))|)
    decreases |cells| - col
  {
    hide PutVarint, PutRun, PutRuns, ReadRun, ReadRuns, RunEnd, RunAt, RunsFrom, At, WellFormedRow, Kept, Spliced;
    if col == |cells| {
      RightUpTo(row, cells, col, col);
      RunsLast(before, cells);
      ReadRunsLast(data, at, row);
    } else if Kept(before, cells, col) {
      RunsNext(before, cells, col);
      RightUpTo(row, cells, col, col + 1);
      ReadRunsPut(data, at, before, cells, col + 1, row);
    } else {
      RunsNext(before, cells, col);
      var end := RunEnd(before, cells, col, col + 1);
      var run, rest := RunAt(cells, col, end), RunsFrom(before, cells, end);
      RunEndUniform(before, cells, col, col + 1);
      AtSplit(data, at, PutRun(run), PutRuns(rest));
      ReadRunPut(data, at, row, cells, col, end);
      var written := Spliced(row, col, cells[col..end]);
      SplicedRight(row, cells, col, end);
      ReadRunsPut(data, at + |PutRun(run)|, before, cells, end, written);
      ReadRunsNext(data, at, row, |rest|, ReadRun(data, at, row));
    }
  }

  lemma SplicedRight(row: seq<Cell>, cells: seq<Cell>, col: nat, end: nat)
    requires col <= end <= |cells| == |row| && row[..col] == cells[..col]
    ensures var written := Spliced(row, col, cells[col..end]);
            written[..end] == cells[..end] && forall k :: end <= k < |row| ==> written[k] == row[k]
  {
    assert cells[..end] == cells[..col] + cells[col..end];
  }

  lemma ReadRowPatch(data: seq<Byte>, at: nat, base: Option<seq<Cell>>, cells: seq<Cell>, row: nat, rows: nat,
                     held: seq<Cell>)
    requires |held| == |cells| && 0 < |cells| <= MAX_DIMENSION && WellFormedRow(cells)
    requires base.Some? ==> base.value == held
    requires row < rows <= MAX_DIMENSION && At(data, at, PutPatch(RowPatch(base, cells, row)))
    ensures var patch := RowPatch(base, cells, row);
            var at1 := at + |PutVarint(row)|;
            var at2 := at1 + |PutVarint(|patch.runs|)|;
            && ReadBounded(data, at, rows - 1) == Field(row, at1)
            && ReadBounded(data, at1, |cells|) == Field(|patch.runs|, at2)
            && ReadRuns(data, at2, held, |patch.runs|) == RowRead(cells, Ok, at + |PutPatch(patch)|)
  {
    hide PutVarint, PutRuns, ReadRuns, ReadBounded, RunsFrom, Base, At, WellFormedCell;
    var patch := RowPatch(base, cells, row);
    AtSplit(data, at, PutVarint(row), PutVarint(|patch.runs|) + PutRuns(patch.runs));
    AtSplit(data, at + |PutVarint(row)|, PutVarint(|patch.runs|), PutRuns(patch.runs));
    ReadBoundedPut(data, at, row, rows - 1);
    ReadBoundedPut(data, at + |PutVarint(row)|, |patch.runs|, |cells|);
    ReadRunsPut(data, at + |PutVarint(row)| + |PutVarint(|patch.runs|)|, Base(base, cells), cells, 0, held);
  }

  /** Rows the encoder will leave out or send partially are rows the receiver
  must already hold as the baseline has them. */
  ghost predicate Holds(previous: Option<Grid>, current: Grid, mask: seq<bool>, held: seq<seq<Cell>>, from: nat) {
    && |mask| == |held| == |current.cells|
    && (previous.Some? && SameSize(previous.value, current) ==>
          |previous.value.cells| == |held| &&
          forall r :: from <= r < |held| && !mask[r] ==> held[r] == previous.value.cells[r])
  }

  lemma PatchesNext(previous: Option<Grid>, current: Grid, mask: seq<bool>, row: nat)
    requires row < |current.cells| == |mask|
    ensures !mask[row] && !RowChanged(previous, current, row) ==>
      PatchesFrom(previous, current, mask, row) == PatchesFrom(previous, current, mask, row + 1)
    ensures mask[row] || RowChanged(previous, current, row) ==>
      var patch := RowPatch(RowBase(previous, current, mask[row], row), current.cells[row], row);
      var rest := PatchesFrom(previous, current, mask, row + 1);
      && |PatchesFrom(previous, current, mask, row)| == |rest| + 1
      && PutPatches(PatchesFrom(previous, current, mask, row)) == PutPatch(patch) + PutPatches(rest)
  {
    hide RowPatch, PutPatch, RowBase, RowChanged;
    var patch := RowPatch(RowBase(previous, current, mask[row], row), current.cells[row], row);
    assert ([patch] + PatchesFrom(previous, current, mask, row + 1))[1..] ==
           PatchesFrom(previous, current, mask, row + 1);
  }

  lemma PatchesLast(previous: Option<Grid>, current: Grid, mask: seq<bool>)
    requires |current.cells| == |mask|
    ensures PatchesFrom(previous, current, mask, |mask|) == [] && PutPatches([]) == []
  {
  }

  lemma ReadPatchesNext(data: seq<Byte>, at: nat, held: seq<seq<Cell>>, cols: nat, left: nat, row: nat,
                        cells: seq<Cell>, runs: nat, at1: nat, at2: nat, next: nat)
    requires Rectangular(held, |held|, cols) && cols > 0 && row < |held| && |cells| == cols
    requires ReadBounded(data, at, |held| - 1) == Field(row, at1) && ReadBounded(data, at1, cols) == Field(runs, at2)
    requires ReadRuns(data, at2, held[row], runs) == RowRead(cells, Ok, next)
    ensures Rectangular(held[row := cells], |held|, cols)
    ensures ReadPatches(data, at, held, cols, left + 1) == ReadPatches(data, next, held[row := cells], cols, left)
  {
    hide ReadBounded, ReadRuns;
  }

  lemma RowsRight(held: seq<seq<Cell>>, cells: seq<seq<Cell>>, row: nat)
    requires |held| == |cells| && row < |held| && held[..row] == cells[..row]
    ensures held[row := cells[row]][..row + 1] == cells[..row + 1]
    ensures held[row] == cells[row] ==> held[..row + 1] == cells[..row + 1]
  {
    assert held[..row + 1] == held[..row] + [held[row]];
    assert cells[..row + 1] == cells[..row] + [cells[row]];
    assert held[row := cells[row]][..row] == held[..row];
  }

  lemma {:induction false} ReadPatchesPut(data: seq<Byte>, at: nat, previous: Option<Grid>, current: Grid,
                                          mask: seq<bool>, row: nat, held: seq<seq<Cell>>)
    requires WellFormedGrid(current) && row <= current.rows && Holds(previous, current, mask, held, row)
    requires Rectangular(held, current.rows, current.cols) && held[..row] == current.cells[..row]
    requires At(data, at, PutPatches(PatchesFrom(previous, current, mask, row)))
    ensures ReadPatches(data, at, held, current.cols, |PatchesFrom(previous, current, mask, row)|) ==
            CellsRead(current.cells, Ok, at + |PutPatches(PatchesFrom(previous, current, mask, row))|)
    decreases current.rows - row
  {
    hide PutVarint, PutPatch, PutPatches, PatchesFrom, ReadRuns, ReadPatches, ReadBounded, RowPatch, At,
         WellFormedRow, RowInRange;
    if row == current.rows {
      assert held == held[..row] && current.cells == current.cells[..row];
      PatchesLast(previous, current, mask);
      ReadPatchesLast(data, at, held, current.cols);
    } else {
      PatchesNext(previous, current, mask, row);
      RowsRight(held, current.cells, row);
      if !mask[row] && !RowChanged(previous, current, row) {
        assert held[row] == current.cells[row];
        ReadPatchesPut(data, at, previous, current, mask, row + 1, held);
      } else {
        var base := RowBase(previous, current, mask[row], row);
        var patch, rest := RowPatch(base, current.cells[row], row), PatchesFrom(previous, current, mask, row + 1);
        AtSplit(data, at, PutPatch(patch), PutPatches(rest));
        ReadRowPatch(data, at, base, current.cells[row], row, current.rows, held[row]);
        var at1 := at + |PutVarint(row)|;
        var at2 := at1 + |PutVarint(|patch.runs|)|;
        ReadPatchesPut(data, at + |PutPatch(patch)|, previous, current, mask, row + 1, held[row := current.cells[row]]);
        ReadPatchesNext(data, at, held, current.cols, |rest|, row, current.cells[row], |patch.runs|, at1, at2,
                        at + |PutPatch(patch)|);
      }
    }
  }

  lemma ReadPatchesLast(data: seq<Byte>, at: nat, held: seq<seq<Cell>>, cols: nat)
    requires |held| > 0 && cols > 0 && Rectangular(held, |held|, cols)
    ensures ReadPatches(data, at, held, cols, 0) == CellsRead(held, Ok, at)
  {
  }

  lemma ReadHeaderPut(data: seq<Byte>, grid: Grid)
    requires ValidGrid(grid) && At(data, 0, PutHeader(grid))
    ensures ReadHeader(data) ==
            Header(grid.rows, grid.cols, grid.cursorRow, grid.cursorCol, grid.cursorVisible, |PutHeader(grid)|)
  {
    hide PutVarint, ReadBounded, At;
    var rows, cols := PutVarint(grid.rows), PutVarint(grid.cols);
    var cursorRow, cursorCol := PutVarint(grid.cursorRow), PutVarint(grid.cursorCol);
    HeaderParts(data, rows, cols, cursorRow, cursorCol, if grid.cursorVisible then 1 else 0);
    ReadBoundedPut(data, 4, grid.rows, MAX_DIMENSION);
    ReadBoundedPut(data, 4 + |rows|, grid.cols, MAX_DIMENSION);
    ReadBoundedPut(data, 4 + |rows| + |cols|, grid.cursorRow, TWO64);
    ReadBoundedPut(data, 4 + |rows| + |cols| + |cursorRow|, grid.cursorCol, TWO64);
  }

  lemma HeaderParts(data: seq<Byte>, rows: seq<Byte>, cols: seq<Byte>, cursorRow: seq<Byte>, cursorCol: seq<Byte>,
                    flags: Byte)
    requires At(data, 0, MAGIC + rows + cols + cursorRow + cursorCol + [flags])
    ensures |data| >= 4 && data[..4] == MAGIC
    ensures var at1 := 4 + |rows|;
            var at2 := at1 + |cols|;
            var at3 := at2 + |cursorRow|;
            var at4 := at3 + |cursorCol|;
            && At(data, 4, rows) && At(data, at1, cols) && At(data, at2, cursorRow) && At(data, at3, cursorCol)
            && at4 < |data| && data[at4] == flags
  {
    AtSplit(data, 0, MAGIC + rows + cols + cursorRow + cursorCol, [flags]);
    AtSplit(data, 0, MAGIC + rows + cols + cursorRow, cursorCol);
    AtSplit3(data, 0, MAGIC + rows, cols, cursorRow);
    AtSplit(data, 0, MAGIC, rows);
    var at4 := 4 + |rows| + |cols| + |cursorRow| + |cursorCol|;
    assert data[at4] == data[at4..at4 + 1][0];
  }

  /** Diff/apply inverse: decoding the bytes encoded from `previous` to `current`
  gives exactly `current`, over any grid of `previous`'s size that agrees with
  it on every row not forced, and over any grid at all when every row is forced
  or there is no usable baseline - whatever the dense-row sampling chose. */
  lemma DecodeInvertsEncode(previous: Option<Grid>, current: Grid, mask: seq<bool>, held: Grid)
    requires WellFormedGrid(current) && |mask| == current.rows
    requires previous.Some? ==> ValidGrid(previous.value)
    requires ValidGrid(held)
    requires previous.Some? && SameSize(previous.value, current) ==>
               forall r :: 0 <= r < current.rows && !mask[r] ==>
                 SameSize(held, current) && held.cells[r] == previous.value.cells[r]
    ensures Decode(held, EncodeRows(previous, current, mask)) == Decoded(current, Ok)
  {
    hide PutVarint, PutHeader, PutPatches, PatchesFrom, ReadHeader, ReadBounded, ReadPatches, At, WellFormedRow,
         RowInRange;
    var patches := PatchesFrom(previous, current, mask, 0);
    var data := EncodeRows(previous, current, mask);
    var count, body := PutVarint(|patches|), PutPatches(patches);
    AtWhole(data);
    AtSplit(data, 0, PutHeader(current), count + body);
    AtSplit(data, |PutHeader(current)|, count, body);
    ReadHeaderPut(data, current);
    ReadBoundedPut(data, |PutHeader(current)|, |patches|, current.rows);
    var sized := Resized(held, current.rows, current.cols);
    ReadPatchesPut(data, |PutHeader(current)| + |count|, previous, current, mask, 0, sized.cells);
  }

  // ---- the decoder accepts exactly whole messages --------------------------------

  lemma ReadBoundedAgree(data: seq<Byte>, other: seq<Byte>, at: nat, limit: nat, upto: nat)
    requires ReadBounded(data, at, limit).Field? && ReadBounded(data, at, limit).next <= upto &&
             Agree(data, other, upto)
    ensures ReadBounded(other, at, limit) == ReadBounded(data, at, limit)
  {
    AgreeLess(data, other, upto, ReadBounded(data, at, limit).next);
    VarintAgree(data, other, at);
  }

  lemma {:induction false} ReadCodesAgree(data: seq<Byte>, other: seq<Byte>, at: nat, chars: seq<nat>, slot: nat,
                                          count: nat, upto: nat)
    requires slot <= count <= |chars|
    requires ReadCodes(data, at, chars, slot, count).status == Ok &&
             ReadCodes(data, at, chars, slot, count).next <= upto
    requires Agree(data, other, upto)
    ensures ReadCodes(other, at, chars, slot, count) == ReadCodes(data, at, chars, slot, count)
    decreases count - slot
  {
    if slot < count {
      var field := ReadBounded(data, at, TWO64);
      ReadCodesAgree(data, other, field.next, chars[slot := field.value], slot + 1, count, upto);
      ReadBoundedAgree(data, other, at, TWO64, upto);
    }
  }

  /** Acceptance and the stopping place do not depend on what the row held. */
  lemma {:induction false} ReadCellsAgree(data: seq<Byte>, other: seq<Byte>, at: nat, row: seq<Cell>, row': seq<Cell>,
                                          col: nat, left: nat, style: Style, upto: nat)
    requires col + left <= |row| == |row'|
    requires ReadCells(data, at, row, col, left, style).status == Ok &&
             ReadCells(data, at, row, col, left, style).next <= upto
    requires Agree(data, other, upto)
    ensures ReadCells(other, at, row', col, left, style).status == Ok
    ensures ReadCells(other, at, row', col, left, style).next == ReadCells(data, at, row, col, left, style).next
    decreases left
  {
    hide ReadBounded, ReadCodes, Agree;
    if left > 0 {
      var count := ReadBounded(data, at, MAX_CHARS);
      var codes := ReadCodes(data, count.next, NO_CHARS, 0, count.value);
      var cell := Cell(codes.chars, style);
      ReadCellsAgree(data, other, codes.next, row[col := cell], row'[col := cell], col + 1, left - 1, style, upto);
      ReadCodesAgree(data, other, count.next, NO_CHARS, 0, count.value, upto);
      ReadBoundedAgree(data, other, at, MAX_CHARS, upto);
    }
  }

  lemma ReadStyleAgree(data: seq<Byte>, other: seq<Byte>, at: nat, upto: nat)
    requires ReadStyle(data, at).StyleField? && ReadStyle(data, at).next <= upto && Agree(data, other, upto)
    ensures ReadStyle(other, at) == ReadStyle(data, at)
  {
    var at1 := ReadBounded(data, at, 0xffff).next;
    assert ReadStyle(data, at).next == at1 + 10;
    ReadBoundedAgree(data, other, at, 0xffff, upto);
    forall k | at1 <= k < at1 + 10 ensures data[k] == other[k] {
      AgreeAt(data, other, upto, k);
    }
  }

  lemma ReadRunAgree(data: seq<Byte>, other: seq<Byte>, at: nat, row: seq<Cell>, row': seq<Cell>, upto: nat)
    requires 0 < |row| == |row'| && Agree(data, other, upto)
    requires ReadRun(data, at, row).status == Ok && ReadRun(data, at, row).next <= upto
    ensures ReadRun(other, at, row').status == Ok && ReadRun(other, at, row').next == ReadRun(data, at, row).next
  {
    var col := ReadBounded(data, at, |row| - 1);
    var length := ReadBounded(data, col.next, |row| - col.value);
    var style := ReadStyle(data, length.next);
    ReadCellsAgree(data, other, style.next, row, row', col.value, length.value, style.style, upto);
    ReadStyleAgree(data, other, length.next, upto);
    ReadBoundedAgree(data, other, col.next, |row| - col.value, upto);
    ReadBoundedAgree(data, other, at, |row| - 1, upto);
  }

  lemma {:induction false} ReadRunsAgree(data: seq<Byte>, other: seq<Byte>, at: nat, row: seq<Cell>, row': seq<Cell>,
                                         left: nat, upto: nat)
    requires 0 < |row| == |row'| && Agree(data, other, upto)
    requires ReadRuns(data, at, row, left).status == Ok && ReadRuns(data, at, row, left).next <= upto
    ensures ReadRuns(other, at, row', left).status == Ok &&
            ReadRuns(other, at, row', left).next == ReadRuns(data, at, row, left).next
    decreases left
  {
    hide ReadRun, Agree;
    if left > 0 {
      var run := ReadRun(data, at, row);
      assert run.next <= ReadRuns(data, run.next, run.row, left - 1).next;
      ReadRunAgree(data, other, at, row, row', upto);
      ReadRunsAgree(data, other, run.next, run.row, ReadRun(other, at, row').row, left - 1, upto);
    }
  }

  lemma {:induction false} ReadPatchesAgree(data: seq<Byte>, other: seq<Byte>, at: nat, cells: seq<seq<Cell>>,
                                            cells': seq<seq<Cell>>, cols: nat, left: nat, upto: nat)
    requires 0 < |cells| == |cells'| && cols > 0 && Agree(data, other, upto)
    requires Rectangular(cells, |cells|, cols) && Rectangular(cells', |cells|, cols)
    requires ReadPatches(data, at, cells, cols, left).status == Ok &&
             ReadPatches(data, at, cells, cols, left).next <= upto
    ensures ReadPatches(other, at, cells', cols, left).status == Ok
    ensures ReadPatches(other, at, cells', cols, left).next == ReadPatches(data, at, cells, cols, left).next
    decreases left
  {
    hide ReadBounded, ReadRuns, Agree;
    if left > 0 {
      var row := ReadBounded(data, at, |cells| - 1);
      var count := ReadBounded(data, row.next, cols);
      var runs := ReadRuns(data, count.next, cells[row.value], count.value);
      var written := cells[row.value := runs.row];
      assert runs.next <= ReadPatches(data, runs.next, written, cols, left - 1).next;
      ReadBoundedAgree(data, other, at, |cells| - 1, upto);
      ReadBoundedAgree(data, other, row.next, cols, upto);
      ReadRunsAgree(data, other, count.next, cells[row.value], cells'[row.value], count.value, upto);
      var written' := cells'[row.value := ReadRuns(other, count.next, cells'[row.value], count.value).row];
      ReadPatchesAgree(data, other, runs.next, written, written', cols, left - 1, upto);
    }
  }

  lemma ReadHeaderAgree(data: seq<Byte>, other: seq<Byte>, upto: nat)
    requires ReadHeader(data).Header? && ReadHeader(data).next <= upto && Agree(data, other, upto)
    ensures ReadHeader(other) == ReadHeader(data)
  {
    AgreeLess(data, other, upto, 4);
    var rows := ReadBounded(data, 4, MAX_DIMENSION);
    var cols := ReadBounded(data, rows.next, MAX_DIMENSION);
    var cursorRow := ReadBounded(data, cols.next, TWO64);
    var cursorCol := ReadBounded(data, cursorRow.next, TWO64);
    AgreeAt(data, other, upto, cursorCol.next);
    ReadBoundedAgree(data, other, 4, MAX_DIMENSION, upto);
    ReadBoundedAgree(data, other, rows.next, MAX_DIMENSION, upto);
    ReadBoundedAgree(data, other, cols.next, TWO64, upto);
    ReadBoundedAgree(data, other, cursorRow.next, TWO64, upto);
  }

  /** Where an accepted message ends is where its bytes end, so of all byte
  strings that start alike at most one is accepted: no proper prefix of an
  accepted message, and no extension of one, is accepted - whatever grid either
  is applied to. */
  lemma AcceptedIsWhole(grid: Grid, other: Grid, message: seq<Byte>, extra: seq<Byte>)
    requires ValidGrid(grid) && ValidGrid(other)
    requires Decode(grid, message).status == Ok && extra != []
    ensures Decode(other, message + extra).status == Protocol
  {
    var longer := message + extra;
    assert Agree(message, longer, |message|);
    ReadHeaderAgree(message, longer, |message|);
    var h := ReadHeader(message);
    ReadBoundedAgree(message, longer, h.next, h.rows, |message|);
    var changed := ReadBounded(message, h.next, h.rows);
    ReadPatchesAgree(message, longer, changed.next, Resized(grid, h.rows, h.cols).cells,
                     Resized(other, h.rows, h.cols).cells, h.cols, changed.value, |message|);
  }

  lemma ProperPrefixRejected(grid: Grid, other: Grid, message: seq<Byte>, cut: nat)
    requires ValidGrid(grid) && ValidGrid(other)
    requires Decode(grid, message).status == Ok && cut < |message|
    ensures Decode(other, message[..cut]).status != Ok
  {
    hide Decode;
    if Decode(other, message[..cut]).status == Ok {
      assert message[..cut] + message[cut..] == message;
      AcceptedIsWhole(other, grid, message[..cut], message[cut..]);
    }
  }

  // ---- no bytes can damage a grid ------------------------------------------------

  lemma {:induction false} ReadCodesInRange(data: seq<Byte>, at: nat, chars: seq<nat>, slot: nat, count: nat)
    requires slot <= count <= |chars| && CodesInRange(chars)
    ensures CodesInRange(ReadCodes(data, at, chars, slot, count).chars)
    decreases count - slot
  {
    if slot < count && ReadBounded(data, at, TWO64).Field? && ReadBounded(data, at, TWO64).value <= MAX_CODE_POINT {
      var field := ReadBounded(data, at, TWO64);
      ReadCodesInRange(data, field.next, chars[slot := field.value], slot + 1, count);
    }
  }

  lemma {:induction false} ReadCellsInRange(data: seq<Byte>, at: nat, row: seq<Cell>, col: nat, left: nat, style: Style)
    requires col + left <= |row| && RowInRange(row) && StyleInRange(style)
    ensures RowInRange(ReadCells(data, at, row, col, left, style).row)
    decreases left
  {
    if left > 0 && ReadBounded(data, at, MAX_CHARS).Field? {
      var count := ReadBounded(data, at, MAX_CHARS);
      ReadCodesInRange(data, count.next, NO_CHARS, 0, count.value);
      var codes := ReadCodes(data, count.next, NO_CHARS, 0, count.value);
      if codes.status == Ok {
        ReadCellsInRange(data, codes.next, row[col := Cell(codes.chars, style)], col + 1, left - 1, style);
      }
    }
  }

  lemma ReadRunInRange(data: seq<Byte>, at: nat, row: seq<Cell>)
    requires |row| > 0 && RowInRange(row)
    ensures RowInRange(ReadRun(data, at, row).row)
  {
    match ReadBounded(data, at, |row| - 1)
    case Bad(_) =>
    case Field(col, at1) =>
      match ReadBounded(data, at1, |row| - col)
      case Bad(_) =>
      case Field(length, at2) =>
        match ReadStyle(data, at2)
        case BadStyle(_) =>
        case StyleField(style, at3) => ReadCellsInRange(data, at3, row, col, length, style);
  }

  lemma {:induction false} ReadRunsInRange(data: seq<Byte>, at: nat, row: seq<Cell>, left: nat)
    requires |row| > 0 && RowInRange(row)
    ensures RowInRange(ReadRuns(data, at, row, left).row)
    decreases left
  {
    if left > 0 {
      ReadRunInRange(data, at, row);
      var run := ReadRun(data, at, row);
      if run.status == Ok { ReadRunsInRange(data, run.next, run.row, left - 1); }
    }
  }

  ghost predicate AllInRange(cells: seq<seq<Cell>>) {
    forall r :: 0 <= r < |cells| ==> RowInRange(cells[r])
  }

  lemma {:induction false} ReadPatchesInRange(data: seq<Byte>, at: nat, cells: seq<seq<Cell>>, cols: nat, left: nat)
    requires |cells| > 0 && cols > 0 && Rectangular(cells, |cells|, cols) && AllInRange(cells)
    ensures AllInRange(ReadPatches(data, at, cells, cols, left).cells)
    decreases left
  {
    hide ReadBounded, ReadRuns, RowInRange;
    if left > 0 && ReadBounded(data, at, |cells| - 1).Field? {
      var row := ReadBounded(data, at, |cells| - 1);
      if ReadBounded(data, row.next, cols).Field? {
        var count := ReadBounded(data, row.next, cols);
        ReadRunsInRange(data, count.next, cells[row.value], count.value);
        var runs := ReadRuns(data, count.next, cells[row.value], count.value);
        if runs.status == Ok {
          ReadPatchesInRange(data, runs.next, cells[row.value := runs.row], cols, left - 1);
        }
      }
    }
  }

  /** After any input bytes at all, accepted or not, the grid keeps legal
  dimensions, a cursor inside them, and cells whose code points, colour kinds
  and attributes are in range. */
  lemma DecodeKeepsGridValid(grid: Grid, data: seq<Byte>)
    requires ValidGrid(grid)
    ensures ValidGrid(Decode(grid, data).grid)
  {
    match ReadHeader(data)
    case BadHeader(_) =>
    case Header(rows, cols, _, _, _, at) =>
      if ValidDimensions(rows, cols) {
        ResizedValid(grid, rows, cols);
        var sized := Resized(grid, rows, cols);
        match ReadBounded(data, at, rows)
        case Bad(_) =>
        case Field(changed, next) => ReadPatchesInRange(data, next, sized.cells, cols, changed);
      }
  }

  /** The cursor moves with a message that was accepted, and a message cut short
  anywhere leaves it where the resize did. */
  lemma CutMovesNoCursor(grid: Grid, data: seq<Byte>)
    requires Rectangular(grid.cells, grid.rows, grid.cols)
    ensures var (d, h) := (Decode(grid, data), ReadHeader(data));
            && (d.status == Truncated && d.grid != grid ==>
                  && ValidDimensions(d.grid.rows, d.grid.cols)
                  && var sized := Resized(grid, d.grid.rows, d.grid.cols);
                     && d.grid.cursorRow == sized.cursorRow && d.grid.cursorCol == sized.cursorCol
                     && d.grid.cursorVisible == sized.cursorVisible)
            && (d.status == Ok ==>
                  && h.Header? && d.grid.rows == h.rows && d.grid.cols == h.cols
                  && d.grid.cursorRow == h.cursorRow && d.grid.cursorCol == h.cursorCol
                  && d.grid.cursorVisible == h.visible)
  {
    hide ReadHeader, ReadBounded, ReadPatches, BlankCells;
  }

  lemma SmallVarint(data: seq<Byte>, at: nat)
    requires at < |data| && data[at] < 128
    ensures ReadVarint(data, at) == Scanned(data[at], at + 1)
  {
  }

  /** One cell on a one-cell screen, with the characters NUL and 'A' and a list
  said to hold `count`. */
  function NulMessage(count: Byte): seq<Byte> {
    [0x4b, 0x4d, 0x58, 0x31, 1, 1, 0, 0, 1, 1, 0, 1, 0, 1, 0, 0, 1, 0, 0, 0, 0, 0, 0, 0, 0, count, 0, 65]
  }

  const NUL_CELL := Cell([0, 65, 0, 0, 0, 0], Style(0, 1, 0, DEFAULT_COLOR, DEFAULT_COLOR))

  function NulStatus(count: Byte): Status {
    if count == 2 then Ok else Truncated
  }

  lemma NulMessageCell(count: Byte)
    requires count == 2 || count == 3
    ensures var r := ReadCells(NulMessage(count), 25, [BLANK], 0, 1, NUL_CELL.style);
            r.row == [NUL_CELL] && r.status == NulStatus(count) && (count == 2 ==> r.next == 28)
  {
    hide ReadVarint;
    var data := NulMessage(count);
    SmallVarint(data, 25);
    SmallVarint(data, 26);
    SmallVarint(data, 27);
    NulMessageEnds(count);
    assert ReadCodes(data, 28, NO_CHARS[0 := 0][1 := 65], 2, count) == CharsRead(NUL_CELL.chars, NulStatus(count), 28);
    assert ReadCodes(data, 27, NO_CHARS[0 := 0], 1, count) == CharsRead(NUL_CELL.chars, NulStatus(count), 28);
    assert ReadCodes(data, 26, NO_CHARS, 0, count) == CharsRead(NUL_CELL.chars, NulStatus(count), 28);
    assert ReadCells(data, 28, [NUL_CELL], 1, 0, NUL_CELL.style) == RowRead([NUL_CELL], Ok, 28);
  }

  lemma NulMessageEnds(count: Byte)
    ensures ReadBounded(NulMessage(count), 28, TWO64) == Bad(Truncated)
  {
  }

  lemma NulMessageStyle(count: Byte)
    ensures ReadStyle(NulMessage(count), 14) == StyleField(NUL_CELL.style, 25)
  {
    hide ReadVarint;
    SmallVarint(NulMessage(count), 14);
  }

  lemma NulMessageRun(count: Byte)
    requires count == 2 || count == 3
    ensures var r := ReadRun(NulMessage(count), 12, [BLANK]);
            r.row == [NUL_CELL] && r.status == NulStatus(count) && (count == 2 ==> r.next == 28)
  {
    hide ReadVarint, ReadCells, ReadStyle;
    NulMessageCell(count);
    NulMessageStyle(count);
    SmallVarint(NulMessage(count), 12);
    SmallVarint(NulMessage(count), 13);
  }

  lemma NulMessageHeader(count: Byte)
    ensures ReadHeader(NulMessage(count)) == Header(1, 1, 0, 0, true, 9)
  {
    hide ReadVarint;
    var data := NulMessage(count);
    assert data[..4] == MAGIC;
    forall k | 4 <= k <= 8 ensures ReadVarint(data, k) == Scanned(data[k], k + 1) {
      SmallVarint(data, k);
    }
  }

  lemma NulMessageDecoded(blank: Grid, count: Byte)
    requires blank == Grid(1, 1, 0, 0, true, BlankCells(1, 1)) && (count == 2 || count == 3)
    ensures WellFormedGrid(blank)
    ensures var d := Decode(blank, NulMessage(count)); d.status == NulStatus(count) && !WellFormedGrid(d.grid)
  {
    hide ReadVarint, ReadRun, ReadHeader;
    var data := NulMessage(count);
    NulMessageHeader(count);
    NulMessageRun(count);
    SmallVarint(data, 9);
    SmallVarint(data, 10);
    SmallVarint(data, 11);
    assert BlankRow(1) == [BLANK];
    assert blank.cells == [[BLANK]];
    assert ReadRuns(data, 12, [BLANK], 1).row == [NUL_CELL] &&
           ReadRuns(data, 12, [BLANK], 1).status == NulStatus(count);
    var r := ReadPatches(data, 10, [[BLANK]], 1, 1);
    assert r.cells == [[NUL_CELL]] && r.status == NulStatus(count);
    var after := Decode(blank, data).grid;
    assert after.cells[0][0] == NUL_CELL;
    assert NUL_CELL.chars[0] == 0 && NUL_CELL.chars[1] == 65;
    assert !WellFormedCell(after.cells[0][0]);
    assert !WellFormedRow(after.cells[0]);
  }

  /** Well-formedness in the full sense is not among what any bytes preserve: a
  code point of zero is accepted inside a character list, and what follows it
  ends up behind a NUL, where the encoder will not see it. */
  lemma AcceptedMessageCanHideCharacters(blank: Grid)
    requires blank == Grid(1, 1, 0, 0, true, BlankCells(1, 1))
    ensures WellFormedGrid(blank) && Decode(blank, NulMessage(2)).status == Ok
    ensures !WellFormedGrid(Decode(blank, NulMessage(2)).grid)
  {
    hide Decode, WellFormedGrid, NulMessage;
    NulMessageDecoded(blank, 2);
  }

  /** Nor is refusing the message a safeguard: the same bytes with a third
  character announced are refused as cut off, and have done it already. */
  lemma RefusedMessageCanHideCharacters(blank: Grid)
    requires blank == Grid(1, 1, 0, 0, true, BlankCells(1, 1))
    ensures WellFormedGrid(blank) && Decode(blank, NulMessage(3)).status == Truncated
    ensures !WellFormedGrid(Decode(blank, NulMessage(3)).grid)
  {
    hide Decode, WellFormedGrid, NulMessage;
    NulMessageDecoded(blank, 3);
  }

  // ---- a message fits the bound the receiver allows --------------------------------

  lemma {:induction false} CodesLength(codes: seq<nat>)
    requires CodesInRange(codes)
    ensures |PutCodes(codes)| <= 3 * |codes|
  {
    if codes != [] {
      Pow128Values();
      PutVarintLength(codes[0], 3);
      CodesLength(codes[1..]);
    }
  }

  lemma {:induction false} TextsLength(cells: seq<Cell>)
    requires WellFormedRow(cells)
    ensures |PutTexts(TextsOf(cells))| <= 19 * |cells|
  {
    if cells != [] {
      assert TextsOf(cells)[1..] == TextsOf(cells[1..]);
      CellOfText(cells[0]);
      CodesLength(TextOf(cells[0]));
      TextsLength(cells[1..]);
    }
  }

  lemma SmallLength(value: nat)
    requires value <= 0xffff
    ensures |PutVarint(value)| <= 3 && (value <= MAX_DIMENSION ==> |PutVarint(value)| <= 2)
  {
    Pow128Values();
    PutVarintLength(value, 3);
    if value <= MAX_DIMENSION { PutVarintLength(value, 2); }
  }

  lemma {:induction false} RunsLength(before: Option<seq<Cell>>, cells: seq<Cell>, col: nat)
    requires col <= |cells| <= MAX_DIMENSION && WellFormedRow(cells)
    requires before.Some? ==> |before.value| == |cells|
    ensures |PutRuns(RunsFrom(before, cells, col))| <= 36 * (|cells| - col)
    decreases |cells| - col
  {
    hide PutVarint, RunEnd, TextsOf, PutTexts, WellFormedCell;
    if col < |cells| {
      if Kept(before, cells, col) {
        RunsLength(before, cells, col + 1);
      } else {
        var end := RunEnd(before, cells, col, col + 1);
        var run, rest := RunAt(cells, col, end), RunsFrom(before, cells, end);
        assert ([run] + rest)[1..] == rest;
        StyleLength(cells[col]);
        SmallLength(col);
        SmallLength(end - col);
        TextsLength(cells[col..end]);
        RunsLength(before, cells, end);
      }
    }
  }

  lemma StyleLength(cell: Cell)
    requires WellFormedCell(cell)
    ensures |PutStyle(cell.style)| <= 13
  {
    SmallLength(cell.style.attrs);
  }

  lemma {:induction false} PatchesLength(previous: Option<Grid>, current: Grid, mask: seq<bool>, row: nat)
    requires WellFormedGrid(current) && row <= current.rows == |mask|
    ensures |PutPatches(PatchesFrom(previous, current, mask, row))| <= (current.rows - row) * (40 * current.cols)
    decreases current.rows - row
  {
    hide PutVarint, RunsFrom, Base, WellFormedRow, RowInRange, RowChanged;
    if row < current.rows {
      var width := 40 * current.cols;
      assert (current.rows - row) * width == (current.rows - (row + 1)) * width + width;
      PatchesLength(previous, current, mask, row + 1);
      if mask[row] || RowChanged(previous, current, row) {
        var base := RowBase(previous, current, mask[row], row);
        var patch, rest := RowPatch(base, current.cells[row], row), PatchesFrom(previous, current, mask, row + 1);
        assert ([patch] + rest)[1..] == rest;
        RunsLength(Base(base, current.cells[row]), current.cells[row], 0);
        SmallLength(row);
        SmallLength(|patch.runs|);
      }
    }
  }

  /** KMX_CELLS_WIRE_MAX: 64 bytes a cell and 64 more cover every message. */
  lemma MessageLength(previous: Option<Grid>, current: Grid, mask: seq<bool>)
    requires WellFormedGrid(current) && current.rows == |mask|
    ensures |EncodeRows(previous, current, mask)| <= MAX_CELLS * 64 + 64
  {
    hide PutVarint, PatchesFrom, PutPatches, WellFormedRow, RowInRange;
    PatchesLength(previous, current, mask, 0);
    var patches := PatchesFrom(previous, current, mask, 0);
    SmallLength(current.rows);
    SmallLength(current.cols);
    SmallLength(current.cursorRow);
    SmallLength(current.cursorCol);
    SmallLength(|patches|);
    assert current.rows * (40 * current.cols) == 40 * (current.rows * current.cols);
  }
}
