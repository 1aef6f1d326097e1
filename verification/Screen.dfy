/** The cell snapshot: colours, cells and grids (src/grid.c).

Row-major storage is represented by its rows, so a cell index is a pair. */
module Screen {
  import opened Bytes

  const MAX_CHARS: nat := 6
  const MAX_DIMENSION: nat := 2000
  const MAX_CELLS: nat := 500000
  const MAX_CODE_POINT: nat := 0x10ffff

  datatype Color = Color(kind: Byte, r: Byte, g: Byte, b: Byte)

  const DEFAULT_COLOR := Color(0, 0, 0, 0)

  /** Everything about a cell except its characters. */
  datatype Style = Style(attrs: nat, width: Byte, underline: Byte, fg: Color, bg: Color)

  datatype Cell = Cell(chars: seq<nat>, style: Style)

  const NO_CHARS: seq<nat> := [0, 0, 0, 0, 0, 0]
  const BLANK: Cell := Cell(NO_CHARS, Style(0, 0, 0, DEFAULT_COLOR, DEFAULT_COLOR))

  ghost predicate StyleInRange(style: Style) {
    style.attrs <= 0xffff && style.fg.kind <= 2 && style.bg.kind <= 2
  }

  /** What the wire format can carry in a cell, whatever its character list. */
  ghost predicate CellInRange(cell: Cell) {
    && |cell.chars| == MAX_CHARS
    && (forall k :: 0 <= k < MAX_CHARS ==> cell.chars[k] <= MAX_CODE_POINT)
    && StyleInRange(cell.style)
  }

  /** Characters are NUL terminated unless all six are used. */
  ghost predicate Terminated(chars: seq<nat>) {
    forall i, j :: 0 <= i < j < |chars| && chars[i] == 0 ==> chars[j] == 0
  }

  ghost predicate WellFormedCell(cell: Cell) {
    CellInRange(cell) && Terminated(cell.chars)
  }

  datatype Grid = Grid(rows: nat, cols: nat, cursorRow: nat, cursorCol: nat,
                       cursorVisible: bool, cells: seq<seq<Cell>>)

  predicate ValidDimensions(rows: nat, cols: nat) {
    0 < rows <= MAX_DIMENSION && 0 < cols <= MAX_DIMENSION && rows * cols <= MAX_CELLS
  }

  ghost predicate Rectangular(cells: seq<seq<Cell>>, rows: nat, cols: nat) {
    |cells| == rows && forall r :: 0 <= r < rows ==> |cells[r]| == cols
  }

  ghost predicate RowInRange(row: seq<Cell>) {
    forall c :: 0 <= c < |row| ==> CellInRange(row[c])
  }

  ghost predicate WellFormedRow(row: seq<Cell>) {
    forall c :: 0 <= c < |row| ==> WellFormedCell(row[c])
  }

  /** The shape every decoder state keeps. */
  ghost predicate ValidGrid(grid: Grid) {
    && ValidDimensions(grid.rows, grid.cols)
    && grid.cursorRow < grid.rows && grid.cursorCol < grid.cols
    && Rectangular(grid.cells, grid.rows, grid.cols)
    && forall r :: 0 <= r < grid.rows ==> RowInRange(grid.cells[r])
  }

  /** A snapshot a terminal model hands to the encoder. */
  ghost predicate WellFormedGrid(grid: Grid) {
    ValidGrid(grid) && forall r :: 0 <= r < grid.rows ==> WellFormedRow(grid.cells[r])
  }

  predicate SameSize(a: Grid, b: Grid) {
    a.rows == b.rows && a.cols == b.cols
  }

  function BlankRow(cols: nat): (row: seq<Cell>)
    ensures |row| == cols && RowInRange(row) && WellFormedRow(row)
  {
    seq(cols, _ => BLANK)
  }

  function BlankCells(rows: nat, cols: nat): (cells: seq<seq<Cell>>)
    ensures Rectangular(cells, rows, cols)
  {
    seq(rows, _ => BlankRow(cols))
  }

  function Resized(grid: Grid, rows: nat, cols: nat): (resized: Grid)
    requires ValidDimensions(rows, cols)
    ensures resized.rows == rows && resized.cols == cols
  {
    if grid.rows == rows && grid.cols == cols then grid
    else Grid(rows, cols,
              if grid.cursorRow >= rows then rows - 1 else grid.cursorRow,
              if grid.cursorCol >= cols then cols - 1 else grid.cursorCol,
              grid.cursorVisible, BlankCells(rows, cols))
  }

  lemma ResizedValid(grid: Grid, rows: nat, cols: nat)
    requires ValidGrid(grid) && ValidDimensions(rows, cols)
    ensures ValidGrid(Resized(grid, rows, cols))
    ensures WellFormedGrid(grid) ==> WellFormedGrid(Resized(grid, rows, cols))
    ensures var r := Resized(grid, rows, cols);
            && r.cursorVisible == grid.cursorVisible && r.cursorRow == Min(grid.cursorRow, rows - 1)
            && r.cursorCol == Min(grid.cursorCol, cols - 1)
            && (grid.rows == rows && grid.cols == cols ==> r == grid)
            && (grid.rows != rows || grid.cols != cols ==>
                  forall row, col :: 0 <= row < rows && 0 <= col < cols ==>
                    r.cells[row][col] ==
                    Cell([0, 0, 0, 0, 0, 0], Style(0, 0, 0, Color(0, 0, 0, 0), Color(0, 0, 0, 0))))
  {
  }
}
