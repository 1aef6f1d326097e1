/** The cell plane as the source runs it: the encoder's loops over rows, columns
and characters, and the decoder writing into a live grid. Each loop is proved
against the specification in Codec. */
module CellPlane {
  import opened Bytes
  import opened Screen
  import opened Codec

  // ---- encoder -----------------------------------------------------------------

  lemma AppendText(out: seq<Byte>, texts: seq<seq<nat>>, k: nat)
    requires k < |texts|
    ensures out + PutTexts(texts[k..]) ==
            (out + (PutVarint(|texts[k]|) + PutCodes(texts[k]))) + PutTexts(texts[k + 1..])
  {
    hide PutVarint, PutCodes;
    assert texts[k..][1..] == texts[k + 1..];
  }

  lemma AppendRun(out: seq<Byte>, run: Run, rest: seq<Run>)
    ensures out + PutRuns([run] + rest) == (out + PutRun(run)) + PutRuns(rest)
  {
    hide PutRun;
    assert ([run] + rest)[1..] == rest;
  }

  lemma EmptyRuns(out: seq<Byte>)
    ensures out + PutRuns([]) == out
  {
  }

  lemma EmptyPatches(out: seq<Byte>)
    ensures out + PutPatches([]) == out
  {
  }

  lemma AppendPatch(out: seq<Byte>, patch: Patch, rest: seq<Patch>)
    ensures out + PutPatches([patch] + rest) == (out + PutPatch(patch)) + PutPatches(rest)
  {
    hide PutPatch;
    assert ([patch] + rest)[1..] == rest;
  }

  lemma JoinRun(a: seq<Byte>, b: seq<Byte>, c: seq<Byte>, d: seq<Byte>)
    ensures (a + b + c) + d == a + (b + (c + d))
  {
  }

  method CellCharCount(chars: seq<nat>) returns (count: nat)
    ensures count == CharCount(chars)
  {
    count := 0;
    while count < |chars| && chars[count] != 0
      invariant count <= |chars|
      invariant CharCount(chars) == count + CharCount(chars[count..])
    {
      assert chars[count..][1..] == chars[count + 1..];
      count := count + 1;
    }
  }

  method WriteText(cell: Cell) returns (out: seq<Byte>)
    requires forall k :: 0 <= k < |cell.chars| ==> cell.chars[k] < TWO64
    requires |cell.chars| < TWO64
    ensures out == PutVarint(|TextOf(cell)|) + PutCodes(TextOf(cell))
  {
    var chars := CellCharCount(cell.chars);
    var text := cell.chars[..chars];
    out := WriteVarint(chars);
    var position := 0;
    while position < chars
      invariant position <= chars
      invariant out + PutCodes(text[position..]) == PutVarint(|text|) + PutCodes(text)
    {
      var code := WriteVarint(cell.chars[position]);
      assert text[position..] == [text[position]] + text[position + 1..];
      assert out + PutCodes(text[position..]) == (out + code) + PutCodes(text[position + 1..]);
      out := out + code;
      position := position + 1;
    }
  }

  method WriteRun(cells: seq<Cell>, col: nat, end: nat) returns (out: seq<Byte>)
    requires col < end <= |cells| <= MAX_DIMENSION && RowInRange(cells)
    ensures out == PutRun(RunAt(cells, col, end))
  {
    hide PutVarint, PutCodes, TextOf, CharCount;
    var first := cells[col].style;
    assert CellInRange(cells[col]);
    var at := WriteVarint(col);
    var length := WriteVarint(end - col);
    var attrs := WriteVarint(first.attrs);
    var style := attrs + ([first.underline, first.width] + PutColor(first.fg) + PutColor(first.bg));
    out := at + length + style;
    ghost var texts := TextsOf(cells[col..end]);
    ghost var run := RunAt(cells, col, end);
    assert run.texts == texts && |texts| == end - col;
    JoinRun(at, length, style, PutTexts(texts));
    assert texts[0..] == texts;
    var index := col;
    while index < end
      invariant col <= index <= end
      invariant out + PutTexts(texts[index - col..]) == PutRun(run)
    {
      assert CellInRange(cells[index]);
      assert texts[index - col] == TextOf(cells[index]) by { assert cells[col..end][index - col] == cells[index]; }
      var text := WriteText(cells[index]);
      AppendText(out, texts, index - col);
      out := out + text;
      index := index + 1;
    }
    assert out + PutTexts(texts[|texts|..]) == out;
  }

  /** The sampling estimate: is at least half of what was looked at different? */
  method LooksDense(before: seq<Cell>, cells: seq<Cell>) returns (dense: bool)
    requires |before| == |cells|
    ensures dense <==> Base(Some(before), cells).None?
  {
    var changed, sampled, stride := 0, 0, |cells| / 8;
    if stride == 0 { stride := 1; }
    var sample := 0;
    while sample < |cells|
      invariant 0 <= sample && stride == Stride(|cells|)
      invariant Sampled(before, cells, 0, stride).0 == changed + Sampled(before, cells, sample, stride).0
      invariant Sampled(before, cells, 0, stride).1 == sampled + Sampled(before, cells, sample, stride).1
      decreases |cells| - sample
    {
      if before[sample] != cells[sample] { changed := changed + 1; }
      sampled := sampled + 1;
      sample := sample + stride;
    }
    dense := changed * 2 >= sampled;
  }

  /** A run goes on while the style stays and the cells keep changing. */
  method ExtendRun(before: Option<seq<Cell>>, cells: seq<Cell>, col: nat) returns (end: nat)
    requires col < |cells| && (before.Some? ==> |before.value| == |cells|)
    ensures end == RunEnd(before, cells, col, col + 1) && col < end <= |cells|
  {
    end := col + 1;
    while end < |cells| && cells[end].style == cells[col].style &&
          (before.None? || before.value[end] != cells[end])
      invariant col < end <= |cells|
      invariant RunEnd(before, cells, col, col + 1) == RunEnd(before, cells, col, end)
    {
      end := end + 1;
    }
  }

  method PutRow(previous: Option<seq<Cell>>, cells: seq<Cell>, row: nat) returns (out: seq<Byte>)
    requires |cells| <= MAX_DIMENSION && row < MAX_DIMENSION && RowInRange(cells)
    requires previous.Some? ==> |previous.value| == |cells|
    ensures out == PutPatch(RowPatch(previous, cells, row))
  {
    hide PutVarint, PutRun, PutRuns, RunAt, RowInRange, Sampled, RunEnd;
    var before := previous;
    if before.Some? {
      var dense := LooksDense(before.value, cells);
      if dense { before := None; }
    }
    ghost var all := RunsFrom(before, cells, 0);
    var runs: seq<Byte>, count: nat, col: nat := [], 0, 0;
    while col < |cells|
      invariant col <= |cells|
      invariant |all| == count + |RunsFrom(before, cells, col)|
      invariant runs + PutRuns(RunsFrom(before, cells, col)) == PutRuns(all)
      decreases |cells| - col
    {
      if before.Some? && before.value[col] == cells[col] {
        col := col + 1;
        continue;
      }
      var end := ExtendRun(before, cells, col);
      var run := WriteRun(cells, col, end);
      ghost var rest := RunsFrom(before, cells, end);
      assert RunsFrom(before, cells, col) == [RunAt(cells, col, end)] + rest;
      AppendRun(runs, RunAt(cells, col, end), rest);
      runs, count, col := runs + run, count + 1, end;
    }
    var index := WriteVarint(row);
    var total := WriteVarint(count);
    assert runs + PutRuns([]) == runs by { EmptyRuns(runs); }
    out := index + (total + runs);
  }

  /** The mask kmx_sync_poll passes, or none. */
  function MaskOf(forcedRows: Option<seq<bool>>, rows: nat): (mask: seq<bool>)
    requires forcedRows.Some? ==> |forcedRows.value| == rows
    ensures |mask| == rows
  {
    if forcedRows.Some? then forcedRows.value else seq(rows, _ => false)
  }

  method CellsEncodeRows(previous: Option<Grid>, current: Grid, forcedRows: Option<seq<bool>>) returns (out: seq<Byte>)
    requires ValidGrid(current) && (previous.Some? ==> ValidGrid(previous.value))
    requires forcedRows.Some? ==> |forcedRows.value| == current.rows
    ensures out == EncodeRows(previous, current, MaskOf(forcedRows, current.rows))
  {
    hide PutVarint, PutPatch, PutPatches, RowPatch, RowInRange;
    ghost var mask := MaskOf(forcedRows, current.rows);
    ghost var all := PatchesFrom(previous, current, mask, 0);
    var rows: seq<Byte>, changed: nat, row: nat := [], 0, 0;
    while row < current.rows
      invariant row <= current.rows
      invariant |all| == changed + |PatchesFrom(previous, current, mask, row)|
      invariant rows + PutPatches(PatchesFrom(previous, current, mask, row)) == PutPatches(all)
    {
      var included := forcedRows.Some? && forcedRows.value[row];
      if !included && !RowChanged(previous, current, row) {
        row := row + 1;
        continue;
      }
      var base := if previous.Some? && SameSize(previous.value, current) && !included
                  then Some(previous.value.cells[row]) else None;
      assert base == RowBase(previous, current, mask[row], row);
      assert RowInRange(current.cells[row]);
      var patch := PutRow(base, current.cells[row], row);
      ghost var rest := PatchesFrom(previous, current, mask, row + 1);
      assert PatchesFrom(previous, current, mask, row) == [RowPatch(base, current.cells[row], row)] + rest;
      AppendPatch(rows, RowPatch(base, current.cells[row], row), rest);
      rows, changed, row := rows + patch, changed + 1, row + 1;
    }
    var height := WriteVarint(current.rows);
    var width := WriteVarint(current.cols);
    var cursorRow := WriteVarint(current.cursorRow);
    var cursorCol := WriteVarint(current.cursorCol);
    var count := WriteVarint(changed);
    out := MAGIC + height + width + cursorRow + cursorCol + [if current.cursorVisible then 1 else 0];
    EmptyPatches(rows);
    out := out + (count + rows);
  }

  // ---- decoder -----------------------------------------------------------------

  /** The mutable grid a decoder writes into. */
  class ScreenGrid {
    var rows: nat
    var cols: nat
    var cursorRow: nat
    var cursorCol: nat
    var cursorVisible: bool
    var cells: seq<seq<Cell>>

    ghost function View(): Grid
      reads this
    {
      Grid(rows, cols, cursorRow, cursorCol, cursorVisible, cells)
    }

    constructor (rows: nat, cols: nat)
      requires ValidDimensions(rows, cols)
      ensures View() == Grid(rows, cols, 0, 0, true, BlankCells(rows, cols))
      ensures WellFormedGrid(View())
    {
      this.rows, this.cols := rows, cols;
      cursorRow, cursorCol, cursorVisible := 0, 0, true;
      cells := BlankCells(rows, cols);
    }

    method Resize(newRows: nat, newCols: nat) returns (status: Status)
      modifies this
      ensures status == if ValidDimensions(newRows, newCols) then Ok else Invalid
      ensures View() == if status == Ok then Resized(old(View()), newRows, newCols) else old(View())
    {
      if !ValidDimensions(newRows, newCols) { return Invalid; }
      if rows == newRows && cols == newCols { return Ok; }
      cells := BlankCells(newRows, newCols);
      rows, cols := newRows, newCols;
      if cursorRow >= newRows { cursorRow := newRows - 1; }
      if cursorCol >= newCols { cursorCol := newCols - 1; }
      return Ok;
    }

    method CopyFrom(source: Grid) returns (status: Status)
      requires ValidGrid(source)
      modifies this
      ensures status == Ok && View() == source
    {
      status := Resize(source.rows, source.cols);
      cells := source.cells;
      cursorRow, cursorCol, cursorVisible := source.cursorRow, source.cursorCol, source.cursorVisible;
    }

    /** One run's cells, written in place as they are read. */
    method ReadCellsInto(data: seq<Byte>, offset: nat, row: nat, col: nat, length: nat, style: Style)
      returns (status: Status, next: nat)
      requires row < |cells| && col + length <= |cells[row]|
      modifies this`cells
      ensures |cells| == |old(cells)|
      ensures var r := ReadCells(data, offset, old(cells)[row], col, length, style);
              status == r.status && cells == old(cells)[row := r.row] && (status == Ok ==> next == r.next)
    {
      hide ReadBounded, ReadCodes;
      next := offset;
      var position := 0;
      ghost var all := ReadCells(data, offset, cells[row], col, length, style);
      while position < length
        invariant position <= length && |cells| == |old(cells)|
        invariant |cells[row]| == |old(cells)[row]|
        invariant cells == old(cells)[row := cells[row]]
        invariant all == ReadCells(data, next, cells[row], col + position, length - position, style)
      {
        var count := ReadBounded(data, next, MAX_CHARS);
        if count.Bad? { return count.status, next; }
        var chars, verdict, at := ReadCodesInto(data, count.next, count.value);
        cells := cells[row := cells[row][col + position := Cell(chars, style)]];
        if verdict != Ok { return verdict, at; }
        position, next := position + 1, at;
      }
      return Ok, next;
    }

    /** One cell's characters; what was read stays even when a later one is refused. */
    method ReadCodesInto(data: seq<Byte>, offset: nat, count: nat) returns (chars: seq<nat>, status: Status, at: nat)
      requires count <= MAX_CHARS
      ensures var r := ReadCodes(data, offset, NO_CHARS, 0, count);
              chars == r.chars && status == r.status && (status == Ok ==> at == r.next)
    {
      hide ReadBounded;
      chars, at := NO_CHARS, offset;
      var slot := 0;
      while slot < count
        invariant slot <= count && |chars| == MAX_CHARS
        invariant ReadCodes(data, offset, NO_CHARS, 0, count) == ReadCodes(data, at, chars, slot, count)
      {
        var code := ReadBounded(data, at, TWO64);
        if code.Bad? { return chars, code.status, at; }
        if code.value > MAX_CODE_POINT { return chars, Protocol, at; }
        chars, slot, at := chars[slot := code.value], slot + 1, code.next;
      }
      status := Ok;
    }

    method ReadRunsInto(data: seq<Byte>, offset: nat, row: nat, count: nat) returns (status: Status, next: nat)
      requires row < |cells| && |cells[row]| > 0
      modifies this`cells
      ensures |cells| == |old(cells)|
      ensures var r := ReadRuns(data, offset, old(cells)[row], count);
              status == r.status && cells == old(cells)[row := r.row] && (status == Ok ==> next == r.next)
    {
      hide ReadBounded, ReadStyle, ReadCells;
      next := offset;
      var run := 0;
      ghost var all := ReadRuns(data, offset, cells[row], count);
      while run < count
        invariant run <= count && |cells| == |old(cells)|
        invariant |cells[row]| == |old(cells)[row]|
        invariant cells == old(cells)[row := cells[row]]
        invariant all == ReadRuns(data, next, cells[row], count - run)
      {
        ghost var this_run := ReadRun(data, next, cells[row]);
        var col := ReadBounded(data, next, |cells[row]| - 1);
        if col.Bad? { return col.status, next; }
        var length := ReadBounded(data, col.next, |cells[row]| - col.value);
        if length.Bad? { return length.status, next; }
        var style := ReadStyle(data, length.next);
        if style.BadStyle? { return style.status, next; }
        if length.value == 0 { return Protocol, next; }
        status, next := ReadCellsInto(data, style.next, row, col.value, length.value, style.style);
        if status != Ok { return; }
        run := run + 1;
      }
      return Ok, next;
    }

    /** The row patches, each written in place. */
    method ReadPatchesInto(data: seq<Byte>, offset: nat, count: nat) returns (status: Status, next: nat)
      requires rows > 0 && cols > 0 && Rectangular(cells, rows, cols)
      modifies this`cells
      ensures Rectangular(cells, rows, cols)
      ensures var r := ReadPatches(data, offset, old(cells), cols, count);
              cells == r.cells && status == r.status && (status == Ok ==> next == r.next)
    {
      hide ReadBounded, ReadRuns;
      next := offset;
      var index := 0;
      while index < count
        invariant index <= count && Rectangular(cells, rows, cols)
        invariant ReadPatches(data, offset, old(cells), cols, count) ==
                  ReadPatches(data, next, cells, cols, count - index)
      {
        var row := ReadBounded(data, next, rows - 1);
        if row.Bad? { return row.status, next; }
        var runs := ReadBounded(data, row.next, cols);
        if runs.Bad? { return runs.status, next; }
        var after;
        status, after := ReadRunsInto(data, runs.next, row.value, runs.value);
        if status != Ok { return; }
        index, next := index + 1, after;
      }
      status := Ok;
    }

    /** kmx_cells_apply. */
    method Apply(data: seq<Byte>) returns (status: Status)
      requires Rectangular(cells, rows, cols)
      modifies this
      ensures Decoded(View(), status) == Decode(old(View()), data)
    {
      hide ReadBounded, ReadPatches, ReadHeader;
      var header := ReadHeader(data);
      if header.BadHeader? { return header.status; }
      status := Resize(header.rows, header.cols);
      if status != Ok { return; }
      var changed := ReadBounded(data, header.next, header.rows);
      if changed.Bad? { return changed.status; }
      var next;
      status, next := ReadPatchesInto(data, changed.next, changed.value);
      if status != Ok { return; }
      cursorRow, cursorCol, cursorVisible := header.cursorRow, header.cursorCol, header.visible;
      return if next == |data| then Ok else Protocol;
    }
  }
}
