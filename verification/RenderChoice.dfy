/** How little a frame draws: the cells that changed and those a torn glyph may have
erased, with no move where the cursor already stands and no style that is already
set (src/render.c:149-237). */
module RenderChoice {
  import opened Bytes
  import opened Screen
  import opened Render

  /** A cell that is drawn, and where. */
  datatype Spot = Spot(row: nat, col: nat, cell: Cell)

  /** A cell whose glyph may be wider than it says. */
  predicate Unsure(cell: Cell) {
    cell.style.width == 1 && Unicode(cell)
  }

  /** A head is drawn if the screen does not show it, or if the cell before it was drawn
  and may have erased it. */
  predicate Redrawn(previous: Option<seq<Cell>>, line: seq<Cell>, col: nat)
    requires col < |line| && (previous.Some? ==> |previous.value| == |line|)
    decreases col
  {
    && line[col].style.width != 0
    && (|| previous.None? || previous.value[col] != line[col]
        || (col > 0 && Unsure(line[col - 1]) && Redrawn(previous, line, col - 1)))
  }

  function LineSpots(previous: Option<seq<Cell>>, line: seq<Cell>, row: nat, col: nat): seq<Spot>
    requires col <= |line| && (previous.Some? ==> |previous.value| == |line|)
    decreases |line| - col
  {
    if col == |line| then []
    else (if Redrawn(previous, line, col) then [Spot(row, col, line[col])] else []) +
         LineSpots(previous, line, row, col + 1)
  }

  /** Everything drawn, in reading order. */
  function FrameSpots(previous: Option<Grid>, grid: Grid, row: nat): seq<Spot>
    requires Comparable(previous, grid) && row <= grid.rows
    decreases grid.rows - row
  {
    if row == grid.rows then []
    else LineSpots(RowOf(previous, row), grid.cells[row], row, 0) + FrameSpots(previous, grid, row + 1)
  }

  /** The cursor stands at this cell after the one drawn before it. */
  predicate Beside(last: Option<Spot>, spot: Spot) {
    last.Some? && last.value.row == spot.row && last.value.col + 1 == spot.col &&
    last.value.cell.style.width == 1 && !Unicode(last.value.cell)
  }

  predicate Alike(last: Option<Spot>, spot: Spot) {
    last.Some? && SameStyle(last.value.cell.style, spot.cell.style)
  }

  function SpotCommands(last: Option<Spot>, spot: Spot): seq<Command> {
    (if Beside(last, spot) then [] else [Move(spot.row, spot.col)]) +
    (if Alike(last, spot) then [] else StyleCommands(spot.cell.style)) + [Print(Text(spot.cell))]
  }

  function Emitted(last: Option<Spot>, spots: seq<Spot>): seq<Command>
    decreases |spots|
  {
    if spots == [] then [] else SpotCommands(last, spots[0]) + Emitted(Some(spots[0]), spots[1..])
  }

  function LastOf(last: Option<Spot>, spots: seq<Spot>): Option<Spot> {
    if spots == [] then last else Some(spots[|spots| - 1])
  }

  lemma {:induction false} EmittedJoins(last: Option<Spot>, first: seq<Spot>, second: seq<Spot>)
    ensures Emitted(last, first + second) == Emitted(last, first) + Emitted(LastOf(last, first), second)
    ensures LastOf(last, first + second) == LastOf(LastOf(last, first), second)
    decreases |first|
  {
    hide SpotCommands;
    if first == [] {
      assert first + second == second;
    } else {
      EmittedJoins(Some(first[0]), first[1..], second);
      assert (first + second)[1..] == first[1..] + second;
    }
  }

  /** What the renderer remembers is the last cell it drew. */
  ghost predicate Remembers(b: Brush, last: Option<Spot>) {
    match last
    case None => b.row == -1 && b.col == -1 && b.style.None?
    case Some(spot) =>
      && b.row == spot.row && b.style.Some? && SameStyle(b.style.value, spot.cell.style)
      && b.col == if spot.cell.style.width == 1 && !Unicode(spot.cell) then spot.col + 1 else -1
  }

  lemma CellEmits(previous: Option<seq<Cell>>, line: seq<Cell>, b: Brush, row: nat, col: nat, last: Option<Spot>)
    requires col < |line| && (previous.Some? ==> |previous.value| == |line|) && Remembers(b, last)
    requires b.repaint <==> col > 0 && Unsure(line[col - 1]) && Redrawn(previous, line, col - 1)
    ensures var here := DrawCell(Before(previous, col), line[col], b, row, col);
            var spot := Spot(row, col, line[col]);
            && here.out == (if Redrawn(previous, line, col) then SpotCommands(last, spot) else [])
            && Remembers(here.brush, if Redrawn(previous, line, col) then Some(spot) else last)
            && (here.brush.repaint <==> Unsure(line[col]) && Redrawn(previous, line, col))
  {
    hide StyleCommands, Text, Unicode;
  }

  lemma {:induction false} LineEmits(previous: Option<seq<Cell>>, line: seq<Cell>, b: Brush, row: nat, col: nat,
                                     last: Option<Spot>)
    requires col <= |line| && (previous.Some? ==> |previous.value| == |line|) && Remembers(b, last)
    requires b.repaint <==> col > 0 && Unsure(line[col - 1]) && Redrawn(previous, line, col - 1)
    ensures var (d, spots) := (DrawLine(previous, line, b, row, col), LineSpots(previous, line, row, col));
            d.out == Emitted(last, spots) && Remembers(d.brush, LastOf(last, spots))
    decreases |line| - col
  {
    hide DrawCell, SpotCommands, Remembers, Redrawn, Unsure;
    if col < |line| {
      var here := DrawCell(Before(previous, col), line[col], b, row, col);
      var spot, rest := Spot(row, col, line[col]), LineSpots(previous, line, row, col + 1);
      CellEmits(previous, line, b, row, col, last);
      if Redrawn(previous, line, col) {
        LineEmits(previous, line, here.brush, row, col + 1, Some(spot));
        EmittedJoins(last, [spot], rest);
        OneSpot(last, spot);
      } else {
        LineEmits(previous, line, here.brush, row, col + 1, last);
        assert [] + rest == rest;
      }
    }
  }

  lemma OneSpot(last: Option<Spot>, spot: Spot)
    ensures Emitted(last, [spot]) == SpotCommands(last, spot) && LastOf(last, [spot]) == Some(spot)
  {
    hide SpotCommands;
    assert Emitted(Some(spot), []) == [];
  }

  /** A line that did not change has nothing to draw. */
  lemma {:induction false} SameLineIsQuiet(line: seq<Cell>, row: nat, col: nat)
    requires col <= |line|
    ensures LineSpots(Some(line), line, row, col) == []
    decreases |line| - col
  {
    hide Redrawn;
    if col < |line| {
      NotRedrawn(line, col);
      SameLineIsQuiet(line, row, col + 1);
    }
  }

  lemma {:induction false} NotRedrawn(line: seq<Cell>, col: nat)
    requires col < |line|
    ensures !Redrawn(Some(line), line, col)
  {
    if col > 0 { NotRedrawn(line, col - 1); }
  }

  lemma RowEmits(previous: Option<seq<Cell>>, line: seq<Cell>, b: Brush, row: nat, last: Option<Spot>)
    requires (previous.Some? ==> |previous.value| == |line|) && Remembers(b, last)
    ensures var (d, spots) := (DrawRow(previous, line, b, row), LineSpots(previous, line, row, 0));
            d.out == Emitted(last, spots) && Remembers(d.brush, LastOf(last, spots))
  {
    hide DrawLine, LineSpots, Emitted;
    if previous == Some(line) {
      SameLineIsQuiet(line, row, 0);
      assert Emitted(last, []) == [] by { NoSpots(last); }
    } else {
      LineEmits(previous, line, b.(repaint := false), row, 0, last);
    }
  }

  lemma NoSpots(last: Option<Spot>)
    ensures Emitted(last, []) == []
  {
  }

  lemma {:induction false} RowsEmit(previous: Option<Grid>, grid: Grid, b: Brush, row: nat, last: Option<Spot>)
    requires Comparable(previous, grid) && row <= grid.rows && Remembers(b, last)
    ensures DrawRows(previous, grid, b, row).out == Emitted(last, FrameSpots(previous, grid, row))
    decreases grid.rows - row
  {
    hide DrawRow, Remembers, LineSpots;
    if row < grid.rows {
      var before, line := RowOf(previous, row), grid.cells[row];
      var spots := LineSpots(before, line, row, 0);
      RowEmits(before, line, b, row, last);
      RowsEmit(previous, grid, DrawRow(before, line, b, row).brush, row + 1, LastOf(last, spots));
      EmittedJoins(last, spots, FrameSpots(previous, grid, row + 1));
    }
  }

  /** A frame draws exactly the cells that changed or may have been erased, in reading
  order, moves only where the cursor does not stand already and sets a style only
  where it differs from the last one set. */
  lemma FrameDrawsOnlyNews(previous: Option<Grid>, grid: Grid)
    requires Comparable(previous, grid)
    ensures FrameCommands(previous, grid) ==
            (if previous.None? then [Move(0, 0), Clear] else []) +
            Emitted(None, FrameSpots(previous, grid, 0)) +
            [Sgr(Reset), Move(grid.cursorRow, grid.cursorCol), Visible(grid.cursorVisible)]
  {
    RowsEmit(previous, grid, NEW_BRUSH, 0, None);
  }

  lemma {:induction false} SameRowsAreQuiet(grid: Grid, row: nat)
    requires Comparable(Some(grid), grid) && row <= grid.rows
    ensures FrameSpots(Some(grid), grid, row) == []
    decreases grid.rows - row
  {
    hide LineSpots;
    if row < grid.rows {
      SameLineIsQuiet(grid.cells[row], row, 0);
      SameRowsAreQuiet(grid, row + 1);
    }
  }

  /** A frame is drawn as a difference after any frame of its size that was not
  invalidated since, and one that did not change costs its cursor and nothing else. */
  lemma SameFrameIsQuiet(previous: Grid, grid: Grid)
    requires Boxed(grid)
    ensures Basis(Renderer(Some(previous), true), grid) ==
            if previous.rows == grid.rows && previous.cols == grid.cols then Some(previous) else None
    ensures Basis(Renderer(Some(previous), false), grid) == None
    ensures FrameCommands(Basis(Renderer(Some(grid), true), grid), grid) ==
            [Sgr(Reset), Move(grid.cursorRow, grid.cursorCol), Visible(grid.cursorVisible)]
  {
    hide DrawRows, FrameSpots;
    FrameDrawsOnlyNews(Some(grid), grid);
    SameRowsAreQuiet(grid, 0);
    NoSpots(None);
  }
}
