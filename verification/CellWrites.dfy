/** What a cell message writes, read off its bytes alone, and from that exactly
when decoding leaves a grid well formed (src/codec.c:261-356). */
module CellWrites {
  import opened Bytes
  import opened Screen
  import opened Codec
  import opened CodecProofs

  // ---- the writes a byte string makes ------------------------------------------------

  /** One cell given a new list of code points. */
  datatype Write = Write(row: nat, col: nat, codes: seq<nat>)

  /** Whatever was read before the bytes were refused, or where reading ended. */
  datatype Codes = Codes(codes: seq<nat>, ok: bool, next: nat)

  datatype Writes = Writes(list: seq<Write>, ok: bool, next: nat)

  function CodesAt(data: seq<Byte>, at: nat, count: nat): (r: Codes)
    ensures |r.codes| <= count
    decreases count
  {
    if count == 0 then Codes([], true, at)
    else match ReadBounded(data, at, MAX_CODE_POINT)
      case Bad(_) => Codes([], false, at)
      case Field(code, next) =>
        var rest := CodesAt(data, next, count - 1);
        rest.(codes := [code] + rest.codes)
  }

  /** `length` cells from `col` on; the last may get only the start of its list. */
  function RunWrites(data: seq<Byte>, at: nat, row: nat, col: nat, length: nat): Writes
    decreases length
  {
    if length == 0 then Writes([], true, at)
    else match ReadBounded(data, at, MAX_CHARS)
      case Bad(_) => Writes([], false, at)
      case Field(count, next) =>
        var codes := CodesAt(data, next, count);
        var write := Write(row, col, codes.codes);
        if !codes.ok then Writes([write], false, at)
        else
          var rest := RunWrites(data, codes.next, row, col + 1, length - 1);
          rest.(list := [write] + rest.list)
  }

  datatype RunHead = RunHead(col: nat, length: nat, next: nat) | BadRun

  /** Where a run lies in a row of `cols` cells; its style is skipped. */
  function HeadAt(data: seq<Byte>, at: nat, cols: nat): (h: RunHead)
    requires cols > 0
    ensures h.RunHead? ==> h.col < cols && 0 < h.length && h.col + h.length <= cols
  {
    match ReadBounded(data, at, cols - 1)
    case Bad(_) => BadRun
    case Field(col, at1) =>
      match ReadBounded(data, at1, cols - col)
      case Bad(_) => BadRun
      case Field(length, at2) =>
        match ReadStyle(data, at2)
        case BadStyle(_) => BadRun
        case StyleField(_, at3) => if length == 0 then BadRun else RunHead(col, length, at3)
  }

  function RowWrites(data: seq<Byte>, at: nat, row: nat, cols: nat, runs: nat): Writes
    requires cols > 0
    decreases runs
  {
    if runs == 0 then Writes([], true, at)
    else match HeadAt(data, at, cols)
      case BadRun => Writes([], false, at)
      case RunHead(col, length, next) =>
        var run := RunWrites(data, next, row, col, length);
        if !run.ok then run
        else
          var rest := RowWrites(data, run.next, row, cols, runs - 1);
          rest.(list := run.list + rest.list)
  }

  function PatchWrites(data: seq<Byte>, at: nat, rows: nat, cols: nat, patches: nat): Writes
    requires rows > 0 && cols > 0
    decreases patches
  {
    if patches == 0 then Writes([], true, at)
    else match ReadBounded(data, at, rows - 1)
      case Bad(_) => Writes([], false, at)
      case Field(row, at1) =>
        match ReadBounded(data, at1, cols)
        case Bad(_) => Writes([], false, at)
        case Field(runs, at2) =>
          var first := RowWrites(data, at2, row, cols, runs);
          if !first.ok then first
          else
            var rest := PatchWrites(data, first.next, rows, cols, patches - 1);
            rest.(list := first.list + rest.list)
  }

  /** Every cell write the bytes make, in order; none before the dimensions are
  found legal. */
  function MessageWrites(data: seq<Byte>): seq<Write> {
    match ReadHeader(data)
    case BadHeader(_) => []
    case Header(rows, cols, _, _, _, at) =>
      if !ValidDimensions(rows, cols) then []
      else match ReadBounded(data, at, rows)
        case Bad(_) => []
        case Field(patches, next) => PatchWrites(data, next, rows, cols, patches).list
  }

  /** No later write goes to the same cell. */
  ghost predicate LastAt(writes: seq<Write>, k: nat)
    requires k < |writes|
  {
    forall j :: k < j < |writes| ==> !(writes[j].row == writes[k].row && writes[j].col == writes[k].col)
  }

  // ---- what they leave behind -------------------------------------------------------------

  /** Code points followed by NULs. */
  ghost function Filled(codes: seq<nat>): (chars: seq<nat>)
    ensures |codes| <= MAX_CHARS ==> |chars| == MAX_CHARS
  {
    if |codes| <= MAX_CHARS then codes + NO_CHARS[|codes|..] else codes
  }

  lemma FilledTerminated(codes: seq<nat>)
    ensures Terminated(Filled(codes)) <==> Terminated(codes)
  {
    var chars := Filled(codes);
    assert forall k :: 0 <= k < |codes| ==> chars[k] == codes[k];
    if Terminated(codes) {
      forall i, j | 0 <= i < j < |chars| && chars[i] == 0 ensures chars[j] == 0 {
        if j < |codes| { assert codes[j] == 0; }
      }
    }
  }

  /** The characters of one cell after the writes. */
  ghost function CharsAfter(writes: seq<Write>, row: nat, col: nat, chars: seq<nat>): seq<nat> {
    if writes == [] then chars
    else CharsAfter(writes[1..], row, col,
                    if writes[0].row == row && writes[0].col == col then Filled(writes[0].codes) else chars)
  }

  lemma {:induction false} CharsAfterBoth(first: seq<Write>, rest: seq<Write>, row: nat, col: nat, chars: seq<nat>)
    ensures CharsAfter(first + rest, row, col, chars) == CharsAfter(rest, row, col, CharsAfter(first, row, col, chars))
  {
    if first == [] {
      assert first + rest == rest;
    } else {
      assert (first + rest)[1..] == first[1..] + rest;
      CharsAfterBoth(first[1..], rest, row, col,
                     if first[0].row == row && first[0].col == col then Filled(first[0].codes) else chars);
    }
  }

  ghost predicate Elsewhere(writes: seq<Write>, row: nat, col: nat) {
    forall k :: 0 <= k < |writes| ==> !(writes[k].row == row && writes[k].col == col)
  }

  lemma {:induction false} ElsewhereKeeps(writes: seq<Write>, row: nat, col: nat, chars: seq<nat>)
    requires Elsewhere(writes, row, col)
    ensures CharsAfter(writes, row, col, chars) == chars
  {
    if writes != [] { ElsewhereKeeps(writes[1..], row, col, chars); }
  }

  /** The last write to a cell decides what it holds. */
  lemma {:induction false} LastDecides(writes: seq<Write>, k: nat, chars: seq<nat>)
    requires k < |writes| && LastAt(writes, k)
    ensures CharsAfter(writes, writes[k].row, writes[k].col, chars) == Filled(writes[k].codes)
  {
    var row, col := writes[k].row, writes[k].col;
    var next := if writes[0].row == row && writes[0].col == col then Filled(writes[0].codes) else chars;
    if k == 0 {
      forall j | 0 <= j < |writes[1..]| ensures !(writes[1..][j].row == row && writes[1..][j].col == col) {
        assert writes[1..][j] == writes[j + 1];
      }
      ElsewhereKeeps(writes[1..], row, col, next);
    } else {
      assert writes[1..][k - 1] == writes[k];
      forall j | k - 1 < j < |writes[1..]| ensures !(writes[1..][j].row == row && writes[1..][j].col == col) {
        assert writes[1..][j] == writes[j + 1];
      }
      LastDecides(writes[1..], k - 1, next);
    }
  }

  lemma {:induction false} LastExists(writes: seq<Write>, row: nat, col: nat, upto: nat) returns (k: nat)
    requires upto <= |writes| && !Elsewhere(writes[..upto], row, col)
    requires forall j :: upto <= j < |writes| ==> !(writes[j].row == row && writes[j].col == col)
    ensures k < |writes| && writes[k].row == row && writes[k].col == col && LastAt(writes, k)
  {
    if upto == 0 {
      assert false;
    } else if writes[upto - 1].row == row && writes[upto - 1].col == col {
      k := upto - 1;
    } else {
      var j :| 0 <= j < upto && writes[..upto][j].row == row && writes[..upto][j].col == col;
      assert writes[..upto - 1][j] == writes[..upto][j];
      k := LastExists(writes, row, col, upto - 1);
    }
  }

  // ---- the decoder makes exactly those writes ----------------------------------------------------

  lemma BoundedCode(data: seq<Byte>, at: nat)
    ensures var (any, code) := (ReadBounded(data, at, TWO64), ReadBounded(data, at, MAX_CODE_POINT));
            && (code.Field? ==> any == code)
            && (any.Field? && any.value <= MAX_CODE_POINT ==> code == any)
  {
  }

  /** The list is laid down from `slot` on, one code point at a time. */
  lemma {:induction false} CodesMatch(data: seq<Byte>, at: nat, chars: seq<nat>, slot: nat, count: nat)
    requires slot <= count <= |chars|
    ensures var (read, codes) := (ReadCodes(data, at, chars, slot, count), CodesAt(data, at, count - slot));
            && (read.status == Ok <==> codes.ok) && (codes.ok ==> read.next == codes.next)
            && read.chars == chars[..slot] + codes.codes + chars[slot + |codes.codes|..]
    decreases count - slot
  {
    hide ReadBounded;
    if slot < count {
      BoundedCode(data, at);
      var code := ReadBounded(data, at, MAX_CODE_POINT);
      if code.Field? {
        CodesMatch(data, code.next, chars[slot := code.value], slot + 1, count);
      }
    }
  }

  /** Each cell of a row holds what the writes to it left. */
  ghost predicate RowFollows(writes: seq<Write>, row: nat, before: seq<Cell>, after: seq<Cell>) {
    |after| == |before| &&
    forall c :: 0 <= c < |before| ==> after[c].chars == CharsAfter(writes, row, c, before[c].chars)
  }

  ghost predicate WithinRow(writes: seq<Write>, row: nat, cols: nat) {
    forall k :: 0 <= k < |writes| ==> writes[k].row == row && writes[k].col < cols && |writes[k].codes| <= MAX_CHARS
  }

  lemma RowFollowsBoth(first: seq<Write>, rest: seq<Write>, row: nat, before: seq<Cell>, middle: seq<Cell>,
                       after: seq<Cell>)
    requires RowFollows(first, row, before, middle) && RowFollows(rest, row, middle, after)
    ensures RowFollows(first + rest, row, before, after)
  {
    hide CharsAfter;
    forall c | 0 <= c < |before| ensures after[c].chars == CharsAfter(first + rest, row, c, before[c].chars) {
      CharsAfterBoth(first, rest, row, c, before[c].chars);
    }
  }

  lemma OneWrite(row: nat, col: nat, codes: seq<nat>, style: Style, before: seq<Cell>)
    requires col < |before| && |codes| <= MAX_CHARS
    ensures RowFollows([Write(row, col, codes)], row, before, before[col := Cell(Filled(codes), style)])
  {
    var write := Write(row, col, codes);
    forall c | 0 <= c < |before|
      ensures before[col := Cell(Filled(codes), style)][c].chars == CharsAfter([write], row, c, before[c].chars)
    {
      assert [write][1..] == [];
    }
  }

  lemma {:induction false} RunMatches(data: seq<Byte>, at: nat, before: seq<Cell>, row: nat, col: nat, left: nat,
                                      style: Style)
    requires col + left <= |before|
    ensures var (read, writes) := (ReadCells(data, at, before, col, left, style), RunWrites(data, at, row, col, left));
            && (read.status == Ok <==> writes.ok) && (writes.ok ==> read.next == writes.next)
            && RowFollows(writes.list, row, before, read.row) && WithinRow(writes.list, row, |before|)
    decreases left
  {
    hide ReadBounded, ReadCodes, CodesAt, RowFollows, WithinRow, Filled;
    NothingWithin(row, |before|);
    if left == 0 {
      NothingFollows(row, before);
    } else {
      var count := ReadBounded(data, at, MAX_CHARS);
      if count.Bad? {
        NothingFollows(row, before);
      } else {
        CodesMatch(data, count.next, NO_CHARS, 0, count.value);
        var codes := CodesAt(data, count.next, count.value);
        var written := before[col := Cell(Filled(codes.codes), style)];
        assert ReadCodes(data, count.next, NO_CHARS, 0, count.value).chars == Filled(codes.codes) by {
          FilledIs(codes.codes);
        }
        OneWrite(row, col, codes.codes, style, before);
        OneWithin(Write(row, col, codes.codes), |before|);
        if codes.ok {
          RunMatches(data, codes.next, written, row, col + 1, left - 1, style);
          var rest := RunWrites(data, codes.next, row, col + 1, left - 1);
          BothWithin([Write(row, col, codes.codes)], rest.list, row, |before|);
          RowFollowsBoth([Write(row, col, codes.codes)], rest.list, row, before, written,
                         ReadCells(data, at, before, col, left, style).row);
        }
      }
    }
  }

  lemma FilledIs(codes: seq<nat>)
    requires |codes| <= MAX_CHARS
    ensures Filled(codes) == NO_CHARS[..0] + codes + NO_CHARS[|codes|..]
  {
  }

  lemma NothingWithin(row: nat, cols: nat)
    ensures WithinRow([], row, cols)
  {
  }

  lemma OneWithin(write: Write, cols: nat)
    requires write.col < cols && |write.codes| <= MAX_CHARS
    ensures WithinRow([write], write.row, cols)
  {
  }

  lemma BothWithin(first: seq<Write>, rest: seq<Write>, row: nat, cols: nat)
    requires WithinRow(first, row, cols) && WithinRow(rest, row, cols)
    ensures WithinRow(first + rest, row, cols)
  {
  }

  lemma NothingFollows(row: nat, before: seq<Cell>)
    ensures RowFollows([], row, before, before)
  {
  }

  lemma HeadMatches(data: seq<Byte>, at: nat, before: seq<Cell>)
    requires |before| > 0
    ensures var (read, head) := (ReadRun(data, at, before), HeadAt(data, at, |before|));
            match head
            case BadRun => read.status != Ok && read.row == before
            case RunHead(col, length, next) =>
              exists style :: read == ReadCells(data, next, before, col, length, style)
  {
    hide ReadBounded, ReadStyle, ReadCells;
  }

  lemma RunOfRow(data: seq<Byte>, at: nat, before: seq<Cell>, row: nat)
    requires |before| > 0
    ensures var (read, head) := (ReadRun(data, at, before), HeadAt(data, at, |before|));
            match head
            case BadRun => read.status != Ok && read.row == before
            case RunHead(col, length, next) =>
              var writes := RunWrites(data, next, row, col, length);
              && (read.status == Ok <==> writes.ok) && (writes.ok ==> read.next == writes.next)
              && RowFollows(writes.list, row, before, read.row) && WithinRow(writes.list, row, |before|)
  {
    hide ReadRun, HeadAt, ReadCells, RunWrites, RowFollows, WithinRow;
    HeadMatches(data, at, before);
    match HeadAt(data, at, |before|)
    case BadRun =>
    case RunHead(col, length, next) =>
      var style :| ReadRun(data, at, before) == ReadCells(data, next, before, col, length, style);
      RunMatches(data, next, before, row, col, length, style);
  }

  lemma {:induction false} RowMatches(data: seq<Byte>, at: nat, before: seq<Cell>, row: nat, runs: nat)
    requires |before| > 0
    ensures var (read, writes) := (ReadRuns(data, at, before, runs), RowWrites(data, at, row, |before|, runs));
            && (read.status == Ok <==> writes.ok) && (writes.ok ==> read.next == writes.next)
            && RowFollows(writes.list, row, before, read.row) && WithinRow(writes.list, row, |before|)
    decreases runs
  {
    hide ReadRun, HeadAt, RunWrites, CharsAfter;
    NothingFollows(row, before);
    if runs > 0 {
      RunOfRow(data, at, before, row);
      var head, run := HeadAt(data, at, |before|), ReadRun(data, at, before);
      if run.status == Ok {
        var first := RunWrites(data, head.next, row, head.col, head.length);
        RowMatches(data, run.next, run.row, row, runs - 1);
        RowFollowsBoth(first.list, RowWrites(data, first.next, row, |before|, runs - 1).list, row, before, run.row,
                       ReadRuns(data, run.next, run.row, runs - 1).row);
      }
    }
  }

  ghost predicate CellsFollow(writes: seq<Write>, before: seq<seq<Cell>>, after: seq<seq<Cell>>) {
    |after| == |before| && forall r :: 0 <= r < |before| ==> RowFollows(writes, r, before[r], after[r])
  }

  ghost predicate Within(writes: seq<Write>, rows: nat, cols: nat) {
    forall k :: 0 <= k < |writes| ==>
      writes[k].row < rows && writes[k].col < cols && |writes[k].codes| <= MAX_CHARS
  }

  lemma CellsFollowBoth(first: seq<Write>, rest: seq<Write>, before: seq<seq<Cell>>, middle: seq<seq<Cell>>,
                        after: seq<seq<Cell>>)
    requires CellsFollow(first, before, middle) && CellsFollow(rest, middle, after)
    ensures CellsFollow(first + rest, before, after)
  {
    hide RowFollows;
    forall r | 0 <= r < |before| ensures RowFollows(first + rest, r, before[r], after[r]) {
      RowFollowsBoth(first, rest, r, before[r], middle[r], after[r]);
    }
  }

  /** Writes to one row follow in the grid as they do in the row. */
  lemma OneRowFollows(writes: seq<Write>, row: nat, cols: nat, before: seq<seq<Cell>>, after: seq<Cell>)
    requires row < |before| && WithinRow(writes, row, cols) && RowFollows(writes, row, before[row], after)
    ensures CellsFollow(writes, before, before[row := after])
  {
    hide CharsAfter;
    forall r | 0 <= r < |before| ensures RowFollows(writes, r, before[r], before[row := after][r]) {
      if r != row {
        forall c | 0 <= c < |before[r]| ensures before[r][c].chars == CharsAfter(writes, r, c, before[r][c].chars) {
          ElsewhereKeeps(writes, r, c, before[r][c].chars);
        }
      }
    }
  }

  lemma {:induction false} PatchesMatch(data: seq<Byte>, at: nat, before: seq<seq<Cell>>, cols: nat, patches: nat)
    requires |before| > 0 && cols > 0 && Rectangular(before, |before|, cols)
    ensures var (read, writes) := (ReadPatches(data, at, before, cols, patches),
                                   PatchWrites(data, at, |before|, cols, patches));
            && (read.status == Ok <==> writes.ok) && (writes.ok ==> read.next == writes.next)
            && CellsFollow(writes.list, before, read.cells) && Within(writes.list, |before|, cols)
    decreases patches
  {
    hide ReadBounded, ReadRuns, RowWrites, CharsAfter, RowFollows;
    NoneFollow(before);
    if patches > 0 {
      var row := ReadBounded(data, at, |before| - 1);
      if row.Field? {
        var runs := ReadBounded(data, row.next, cols);
        if runs.Field? {
          RowMatches(data, runs.next, before[row.value], row.value, runs.value);
          var read := ReadRuns(data, runs.next, before[row.value], runs.value);
          var first := RowWrites(data, runs.next, row.value, cols, runs.value);
          var written := before[row.value := read.row];
          OneRowFollows(first.list, row.value, cols, before, read.row);
          if read.status == Ok {
            PatchesMatch(data, read.next, written, cols, patches - 1);
            CellsFollowBoth(first.list, PatchWrites(data, read.next, |before|, cols, patches - 1).list, before, written,
                            ReadPatches(data, read.next, written, cols, patches - 1).cells);
          }
        }
      }
    }
  }

  lemma NoneFollow(before: seq<seq<Cell>>)
    ensures CellsFollow([], before, before)
  {
  }

  /** The grid the writes of a message start from. */
  ghost function Start(grid: Grid, data: seq<Byte>): Grid {
    match ReadHeader(data)
    case BadHeader(_) => grid
    case Header(rows, cols, _, _, _, _) => if ValidDimensions(rows, cols) then Resized(grid, rows, cols) else grid
  }

  lemma StartValid(grid: Grid, data: seq<Byte>)
    requires WellFormedGrid(grid)
    ensures WellFormedGrid(Start(grid, data))
  {
    hide ReadHeader;
    match ReadHeader(data)
    case BadHeader(_) =>
    case Header(rows, cols, _, _, _, _) => if ValidDimensions(rows, cols) { ResizedValid(grid, rows, cols); }
  }

  lemma MessageMatches(grid: Grid, data: seq<Byte>)
    requires WellFormedGrid(grid)
    ensures var (start, after) := (Start(grid, data), Decode(grid, data).grid);
            && after.rows == start.rows && after.cols == start.cols
            && CellsFollow(MessageWrites(data), start.cells, after.cells)
            && Within(MessageWrites(data), start.rows, start.cols)
  {
    hide ReadHeader, ReadBounded, ReadPatches, PatchWrites, CellsFollow, Within, WellFormedRow, RowInRange;
    StartValid(grid, data);
    var start := Start(grid, data);
    NoneFollow(start.cells);
    NoneWithin(start.rows, start.cols);
    match ReadHeader(data)
    case BadHeader(_) =>
    case Header(rows, cols, _, _, _, at) =>
      if ValidDimensions(rows, cols) {
        match ReadBounded(data, at, rows)
        case Bad(_) =>
        case Field(patches, next) => PatchesMatch(data, next, start.cells, cols, patches);
      }
  }

  lemma NoneWithin(rows: nat, cols: nat)
    ensures Within([], rows, cols)
  {
  }

  // ---- when the result is well formed ---------------------------------------------------------------

  ghost predicate AllTerminated(cells: seq<seq<Cell>>) {
    forall r, c :: 0 <= r < |cells| && 0 <= c < |cells[r]| ==> Terminated(cells[r][c].chars)
  }

  lemma WellFormedIffTerminated(grid: Grid)
    requires ValidGrid(grid)
    ensures WellFormedGrid(grid) <==> AllTerminated(grid.cells)
  {
    hide Terminated;
    if WellFormedGrid(grid) {
      forall r, c | 0 <= r < |grid.cells| && 0 <= c < |grid.cells[r]| ensures Terminated(grid.cells[r][c].chars) {
        assert WellFormedRow(grid.cells[r]);
        assert WellFormedCell(grid.cells[r][c]);
      }
    }
    if AllTerminated(grid.cells) {
      forall r | 0 <= r < grid.rows ensures WellFormedRow(grid.cells[r]) {
        assert RowInRange(grid.cells[r]);
        forall c | 0 <= c < |grid.cells[r]| ensures WellFormedCell(grid.cells[r][c]) {
          assert CellInRange(grid.cells[r][c]);
        }
      }
    }
  }

  ghost predicate LastListsTerminated(writes: seq<Write>) {
    forall k :: 0 <= k < |writes| && LastAt(writes, k) ==> Terminated(writes[k].codes)
  }

  lemma FollowingTerminated(writes: seq<Write>, before: seq<seq<Cell>>, after: seq<seq<Cell>>, rows: nat, cols: nat)
    requires Rectangular(before, rows, cols) && AllTerminated(before)
    requires CellsFollow(writes, before, after) && Within(writes, rows, cols)
    ensures AllTerminated(after) <==> LastListsTerminated(writes)
  {
    hide Terminated, CharsAfter, LastAt;
    if AllTerminated(after) {
      forall k | 0 <= k < |writes| && LastAt(writes, k) ensures Terminated(writes[k].codes) {
        var (r, c) := (writes[k].row, writes[k].col);
        assert RowFollows(writes, r, before[r], after[r]);
        LastDecides(writes, k, before[r][c].chars);
        FilledTerminated(writes[k].codes);
        assert Terminated(after[r][c].chars);
      }
    }
    if LastListsTerminated(writes) {
      forall r, c | 0 <= r < |after| && 0 <= c < |after[r]| ensures Terminated(after[r][c].chars) {
        assert RowFollows(writes, r, before[r], after[r]);
        if Elsewhere(writes, r, c) {
          ElsewhereKeeps(writes, r, c, before[r][c].chars);
        } else {
          assert writes[..|writes|] == writes;
          var k := LastExists(writes, r, c, |writes|);
          LastDecides(writes, k, before[r][c].chars);
          FilledTerminated(writes[k].codes);
        }
      }
    }
  }

  /** Exactly when a cell message - any bytes, accepted or refused anywhere - leaves
  a well-formed grid well formed: of the code-point lists the bytes write, the
  last one for each cell has no character after a zero. */
  lemma DecodeWellFormedIff(grid: Grid, data: seq<Byte>)
    requires WellFormedGrid(grid)
    ensures WellFormedGrid(Decode(grid, data).grid) <==> LastListsTerminated(MessageWrites(data))
  {
    StartValid(grid, data);
    MessageMatches(grid, data);
    DecodeKeepsGridValid(grid, data);
    hide Decode, MessageWrites, Start, CellsFollow, Within, LastListsTerminated, AllTerminated;
    var start, after := Start(grid, data), Decode(grid, data).grid;
    WellFormedIffTerminated(start);
    WellFormedIffTerminated(after);
    FollowingTerminated(MessageWrites(data), start.cells, after.cells, start.rows, start.cols);
  }

  /** In particular a message no list of which holds a zero is harmless. */
  lemma ZeroFreeIsHarmless(grid: Grid, data: seq<Byte>)
    requires WellFormedGrid(grid)
    requires forall k :: 0 <= k < |MessageWrites(data)| ==> 0 !in MessageWrites(data)[k].codes
    ensures WellFormedGrid(Decode(grid, data).grid)
  {
    hide Decode, MessageWrites;
    DecodeWellFormedIff(grid, data);
  }
}
