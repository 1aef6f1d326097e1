/** Compositing the panes of a layout into one screen (src/layout.c). */
module Composite {
  import opened Bytes
  import opened Screen
  import opened Layout

  const DIVIDER: Cell := Cell([0x2502, 0, 0, 0, 0, 0], Style(0, 1, 0, DEFAULT_COLOR, DEFAULT_COLOR))
  const UNTITLED: seq<Byte> := [0x70, 0x61, 0x6e, 0x65]

  /** put_char of one letter of a title bar. */
  function TitleCell(pane: Pane, i: nat): Cell {
    var text := if TitleText(pane.title) == [] then UNTITLED else TitleText(pane.title);
    var letter: nat := if i < |text| then text[i] else 0x20;
    Cell([letter, 0, 0, 0, 0, 0], Style(if pane.focused then REVERSE else BOLD, 1, 0, DEFAULT_COLOR, DEFAULT_COLOR))
  }

  predicate InSource(pane: Pane, source: Grid, row: nat, col: nat) {
    pane.y <= row < pane.y + Min(pane.rows, source.rows) && pane.x <= col < pane.x + Min(pane.cols, source.cols)
  }

  predicate OnDivider(l: Layout, pane: Pane, col: nat) {
    pane.x + pane.cols < l.cols && col == pane.x + pane.cols
  }

  predicate OnTitle(l: Layout, pane: Pane, row: nat, col: nat) {
    l.count > 1 && pane.y > 0 && row == pane.y - 1 && pane.x <= col < pane.x + pane.cols
  }

  function SourceOf(sources: seq<Option<Grid>>, k: nat): Option<Grid> {
    if k < |sources| then sources[k] else None
  }

  ghost predicate SourcesOk(sources: seq<Option<Grid>>) {
    forall k :: 0 <= k < |sources| && sources[k].Some? ==>
      Rectangular(sources[k].value.cells, sources[k].value.rows, sources[k].value.cols)
  }

  /** What pane `k` draws at a position, if anything: its content over its divider
  over its title. */
  function Layer(l: Layout, pane: Pane, source: Option<Grid>, row: nat, col: nat): Option<Cell>
    requires source.Some? ==> Rectangular(source.value.cells, source.value.rows, source.value.cols)
  {
    if source.Some? && InSource(pane, source.value, row, col) then Some(source.value.cells[row - pane.y][col - pane.x])
    else if OnDivider(l, pane, col) then Some(DIVIDER)
    else if OnTitle(l, pane, row, col) then Some(TitleCell(pane, col - pane.x))
    else None
  }

  /** The screen after the first `n` panes were drawn. */
  function CellAt(l: Layout, sources: seq<Option<Grid>>, n: nat, row: nat, col: nat): Cell
    requires SourcesOk(sources) && n <= |l.panes|
  {
    if n == 0 then BLANK
    else match Layer(l, l.panes[n - 1], SourceOf(sources, n - 1), row, col)
      case Some(cell) => cell
      case None => CellAt(l, sources, n - 1, row, col)
  }

  datatype Cursor = Cursor(row: nat, col: nat, visible: bool)

  function CursorAt(l: Layout, sources: seq<Option<Grid>>, n: nat, from: Cursor): Cursor
    requires n <= |l.panes|
  {
    if n == 0 then from
    else
      var (pane, source) := (l.panes[n - 1], SourceOf(sources, n - 1));
      if pane.focused && source.Some? then
        Cursor(pane.y + source.value.cursorRow, pane.x + source.value.cursorCol, source.value.cursorVisible)
      else CursorAt(l, sources, n - 1, from)
  }

  ghost predicate Pictures(cells: seq<seq<Cell>>, l: Layout, sources: seq<Option<Grid>>, n: nat)
    requires SourcesOk(sources) && n <= |l.panes|
  {
    Rectangular(cells, l.rows, l.cols) &&
    forall r, c :: 0 <= r < l.rows && 0 <= c < l.cols ==> cells[r][c] == CellAt(l, sources, n, r, c)
  }

  // ---- the loops ---------------------------------------------------------------------------------

  /** A write outside the screen is dropped. */
  function PutAt(cells: seq<seq<Cell>>, row: nat, col: nat, cell: Cell): (after: seq<seq<Cell>>)
    ensures |after| == |cells| && forall r :: 0 <= r < |cells| ==> |after[r]| == |cells[r]|
    ensures forall r, c :: 0 <= r < |cells| && 0 <= c < |cells[r]| ==>
      after[r][c] == if r == row && c == col then cell else cells[r][c]
  {
    if row < |cells| && col < |cells[row]| then cells[row := cells[row][col := cell]] else cells
  }

  method DrawTitle(cells: seq<seq<Cell>>, pane: Pane, row: nat) returns (after: seq<seq<Cell>>)
    ensures |after| == |cells| && forall r :: 0 <= r < |cells| ==> |after[r]| == |cells[r]|
    ensures forall r, c :: 0 <= r < |cells| && 0 <= c < |cells[r]| ==>
      after[r][c] == if r == row && pane.x <= c < pane.x + pane.cols then TitleCell(pane, c - pane.x) else cells[r][c]
  {
    hide TitleCell;
    after := cells;
    var col := 0;
    while col < pane.cols
      invariant col <= pane.cols && |after| == |cells| && forall r :: 0 <= r < |cells| ==> |after[r]| == |cells[r]|
      invariant forall r, c :: 0 <= r < |cells| && 0 <= c < |cells[r]| ==>
        after[r][c] == if r == row && pane.x <= c < pane.x + col then TitleCell(pane, c - pane.x) else cells[r][c]
    {
      after := PutAt(after, row, pane.x + col, TitleCell(pane, col));
      col := col + 1;
    }
  }

  method DrawDivider(cells: seq<seq<Cell>>, col: nat) returns (after: seq<seq<Cell>>)
    ensures |after| == |cells| && forall r :: 0 <= r < |cells| ==> |after[r]| == |cells[r]|
    ensures forall r, c :: 0 <= r < |cells| && 0 <= c < |cells[r]| ==> after[r][c] == if c == col then DIVIDER
              else cells[r][c]
  {
    after := cells;
    var row := 0;
    while row < |cells|
      invariant row <= |cells| && |after| == |cells| && forall r :: 0 <= r < |cells| ==> |after[r]| == |cells[r]|
      invariant forall r, c :: 0 <= r < |cells| && 0 <= c < |cells[r]| ==>
        after[r][c] == if r < row && c == col then DIVIDER else cells[r][c]
    {
      after := PutAt(after, row, col, DIVIDER);
      row := row + 1;
    }
  }

  method DrawContent(cells: seq<seq<Cell>>, pane: Pane, source: Grid) returns (after: seq<seq<Cell>>)
    requires Rectangular(source.cells, source.rows, source.cols)
    ensures |after| == |cells| && forall r :: 0 <= r < |cells| ==> |after[r]| == |cells[r]|
    ensures forall r, c :: 0 <= r < |cells| && 0 <= c < |cells[r]| ==>
      after[r][c] == if InSource(pane, source, r, c) then source.cells[r - pane.y][c - pane.x] else cells[r][c]
  {
    after := cells;
    var row := 0;
    while row < pane.rows && row < source.rows
      invariant row <= Min(pane.rows, source.rows)
      invariant |after| == |cells| && forall r :: 0 <= r < |cells| ==> |after[r]| == |cells[r]|
      invariant forall r, c :: 0 <= r < |cells| && 0 <= c < |cells[r]| ==>
        after[r][c] == if r < pane.y + row && InSource(pane, source, r, c) then source.cells[r - pane.y][c - pane.x]
          else cells[r][c]
    {
      ghost var above := after;
      var col := 0;
      while col < pane.cols && col < source.cols
        invariant col <= Min(pane.cols, source.cols)
        invariant |after| == |cells| && forall r :: 0 <= r < |cells| ==> |after[r]| == |cells[r]|
        invariant forall r, c :: 0 <= r < |cells| && 0 <= c < |cells[r]| ==>
          after[r][c] == if r == pane.y + row && pane.x <= c < pane.x + col then source.cells[row][c - pane.x]
            else above[r][c]
      {
        after := PutAt(after, pane.y + row, pane.x + col, source.cells[row][col]);
        col := col + 1;
      }
      row := row + 1;
    }
  }

  /** kmx_layout_composite into a screen that may have any size. */
  method CompositeLayout(l: Layout, sources: seq<Option<Grid>>, out: Grid) returns (screen: Grid, status: Status)
    requires Formed(l) && SourcesOk(sources)
    ensures status == (if ValidDimensions(l.rows, l.cols) then Ok else Invalid)
    ensures status != Ok ==> screen == out
    ensures status == Ok ==>
      && screen.rows == l.rows && screen.cols == l.cols && Pictures(screen.cells, l, sources, l.count)
      && var was := Resized(out, l.rows, l.cols);
         Cursor(screen.cursorRow, screen.cursorCol, screen.cursorVisible) ==
         CursorAt(l, sources, l.count, Cursor(was.cursorRow, was.cursorCol, was.cursorVisible))
  {
    hide TitleCell;
    if !ValidDimensions(l.rows, l.cols) { return out, Invalid; }
    var was := Resized(out, l.rows, l.cols);
    var cells := BlankCells(l.rows, l.cols);
    var cursor := Cursor(was.cursorRow, was.cursorCol, was.cursorVisible);
    var index := 0;
    while index < l.count
      invariant index <= l.count && Pictures(cells, l, sources, index)
      invariant cursor == CursorAt(l, sources, index, Cursor(was.cursorRow, was.cursorCol, was.cursorVisible))
    {
      cells := DrawPane(cells, l, sources, index);
      var pane, source := l.panes[index], SourceOf(sources, index);
      if pane.focused && source.Some? {
        cursor := Cursor(pane.y + source.value.cursorRow, pane.x + source.value.cursorCol, source.value.cursorVisible);
      }
      index := index + 1;
    }
    screen := Grid(l.rows, l.cols, cursor.row, cursor.col, cursor.visible, cells);
    status := Ok;
  }

  /** The body of the loop over panes. */
  method DrawPane(cells: seq<seq<Cell>>, l: Layout, sources: seq<Option<Grid>>, k: nat) returns (after: seq<seq<Cell>>)
    requires Formed(l) && SourcesOk(sources) && k < l.count && Pictures(cells, l, sources, k)
    ensures Pictures(after, l, sources, k + 1)
  {
    hide TitleCell;
    after := cells;
    var pane, source := l.panes[k], SourceOf(sources, k);
    if l.count > 1 && pane.y > 0 { after := DrawTitle(after, pane, pane.y - 1); }
    if pane.x + pane.cols < l.cols { after := DrawDivider(after, pane.x + pane.cols); }
    if source.Some? { after := DrawContent(after, pane, source.value); }
  }

  // ---- what an arrangement shows ---------------------------------------------------------------------

  /** A pane draws only on its own parts. */
  lemma LayerHolds(l: Layout, count: nat, vertical: bool, k: nat, source: Option<Grid>, row: nat, col: nat)
    returns (part: Part)
    requires Formed(l) && Arranged(l, count, vertical).status == Ok && Roomy(l, count, vertical) && k < count
    requires source.Some? ==> Rectangular(source.value.cells, source.value.rows, source.value.cols)
    requires row < l.rows && col < l.cols
    requires Layer(Arranged(l, count, vertical).layout, Arranged(l, count, vertical).layout.panes[k], source, row,
                   col).Some?
    ensures part.k == k && Holds(Arranged(l, count, vertical).layout, vertical, part, row, col)
  {
    hide Spans, Offset, Arranged, TitleCell;
    ArrangedCount(l, count, vertical);
    PaneShape(l, count, vertical, k);
    var after := Arranged(l, count, vertical).layout;
    var pane := after.panes[k];
    if source.Some? && InSource(pane, source.value, row, col) { part := PaneArea(k); }
    else if OnDivider(after, pane, col) { part := Divider(k); }
    else { part := TitleBar(k); }
  }

  /** Later panes leave what an arrangement gave to this one alone. */
  lemma {:induction false} LaterLayers(l: Layout, count: nat, vertical: bool, sources: seq<Option<Grid>>, k: nat,
                                       n: nat, row: nat, col: nat)
    requires Formed(l) && SourcesOk(sources) && Arranged(l, count, vertical).status == Ok && Roomy(l, count, vertical)
    requires k < n <= count && row < l.rows && col < l.cols
    requires Holds(Arranged(l, count, vertical).layout, vertical, PaneArea(k), row, col)
    ensures |Arranged(l, count, vertical).layout.panes| == MAX_PANES && count <= MAX_PANES
    ensures CellAt(Arranged(l, count, vertical).layout, sources, n, row, col) ==
            CellAt(Arranged(l, count, vertical).layout, sources, k + 1, row, col)
  {
    hide Layer, Arranged, Holds;
    ArrangedCount(l, count, vertical);
    var after := Arranged(l, count, vertical).layout;
    if n > k + 1 {
      LaterLayers(l, count, vertical, sources, k, n - 1, row, col);
      if Layer(after, after.panes[n - 1], SourceOf(sources, n - 1), row, col).Some? {
        var part := LayerHolds(l, count, vertical, n - 1, SourceOf(sources, n - 1), row, col);
        PartsDisjoint(l, count, vertical, part, PaneArea(k), row, col);
        assert false;
      }
    }
  }

  /** Nor do earlier ones draw on it. */
  lemma {:induction false} EarlierLayers(l: Layout, count: nat, vertical: bool, sources: seq<Option<Grid>>, part: Part,
                                         n: nat, row: nat, col: nat)
    requires Formed(l) && SourcesOk(sources) && Arranged(l, count, vertical).status == Ok && Roomy(l, count, vertical)
    requires n <= count && row < l.rows && col < l.cols
    requires Holds(Arranged(l, count, vertical).layout, vertical, part, row, col)
    ensures |Arranged(l, count, vertical).layout.panes| == MAX_PANES && count <= MAX_PANES && part.k < count
    ensures var after := Arranged(l, count, vertical).layout;
            CellAt(after, sources, n, row, col) ==
            if part.k < n then
              match Layer(after, after.panes[part.k], SourceOf(sources, part.k), row, col)
              case Some(cell) => cell
              case None => BLANK
            else BLANK
    decreases n
  {
    hide Layer, Arranged, Holds;
    ArrangedCount(l, count, vertical);
    var after := Arranged(l, count, vertical).layout;
    HeldPart(after, vertical, part, row, col);
    if n > 0 {
      EarlierLayers(l, count, vertical, sources, part, n - 1, row, col);
      if n - 1 != part.k && Layer(after, after.panes[n - 1], SourceOf(sources, n - 1), row, col).Some? {
        var other := LayerHolds(l, count, vertical, n - 1, SourceOf(sources, n - 1), row, col);
        PartsDisjoint(l, count, vertical, other, part, row, col);
        assert false;
      }
    }
  }

  lemma HeldPart(l: Layout, vertical: bool, part: Part, row: nat, col: nat)
    requires |l.panes| == MAX_PANES && l.count <= MAX_PANES && Holds(l, vertical, part, row, col)
    ensures part.k < l.count
  {
  }

  /** What each part of an arrangement shows: a pane its source's cells, and blanks
  where the source is missing or smaller; a title bar its title, or the word "pane",
  padded with spaces, in reverse for the focused pane and bold for the others; a
  divider between columns a line, one between rows nothing. */
  ghost predicate PartShows(l: Layout, vertical: bool, sources: seq<Option<Grid>>, part: Part, row: nat, col: nat,
                            cell: Cell)
    requires |l.panes| == MAX_PANES && part.k < l.count <= MAX_PANES && SourcesOk(sources)
    requires Holds(l, vertical, part, row, col)
  {
    var pane := l.panes[part.k];
    match part
    case PaneArea(k) =>
      var (r, c) := (row - pane.y, col - pane.x);
      if k < |sources| && sources[k].Some? && r < sources[k].value.rows && c < sources[k].value.cols
      then cell == sources[k].value.cells[r][c] else cell == BLANK
    case TitleBar(_) =>
      var text := if TextLength(pane.title) == 0 then [0x70, 0x61, 0x6e, 0x65] else TitleText(pane.title);
      var letter: nat := if col - pane.x < |text| then text[col - pane.x] else 0x20;
      cell == Cell([letter, 0, 0, 0, 0, 0],
                   Style(if pane.focused then 0x0010 else 0x0001, 1, 0, DEFAULT_COLOR, DEFAULT_COLOR))
    case Divider(_) =>
      if vertical then cell == BLANK
      else cell == Cell([0x2502, 0, 0, 0, 0, 0], Style(0, 1, 0, DEFAULT_COLOR, DEFAULT_COLOR))
  }

  lemma LayerShows(l: Layout, count: nat, vertical: bool, sources: seq<Option<Grid>>, part: Part, row: nat, col: nat)
    requires Formed(l) && SourcesOk(sources) && Arranged(l, count, vertical).status == Ok && Roomy(l, count, vertical)
    requires row < l.rows && col < l.cols && Holds(Arranged(l, count, vertical).layout, vertical, part, row, col)
    ensures var after := Arranged(l, count, vertical).layout;
            && |after.panes| == MAX_PANES && part.k < after.count <= MAX_PANES
            && var cell := match Layer(after, after.panes[part.k], SourceOf(sources, part.k), row, col)
                           case Some(cell) => cell
                           case None => BLANK;
               PartShows(after, vertical, sources, part, row, col, cell)
  {
    hide Arranged, Spans, Offset, TitleText, TextLength;
    ArrangedCount(l, count, vertical);
    PaneShape(l, count, vertical, part.k);
    TitleLength(Arranged(l, count, vertical).layout.panes[part.k].title);
  }

  lemma TitleLength(title: seq<Byte>)
    ensures TitleText(title) == [] <==> TextLength(title) == 0
  {
  }

  /** Compositing an arrangement shows all of it: at every position the part that is
  there, and nothing else. */
  lemma PartsShown(l: Layout, count: nat, vertical: bool, sources: seq<Option<Grid>>, cells: seq<seq<Cell>>,
                   part: Part, row: nat, col: nat)
    requires Formed(l) && SourcesOk(sources) && Arranged(l, count, vertical).status == Ok && Roomy(l, count, vertical)
    requires var after := Arranged(l, count, vertical).layout;
             |after.panes| == MAX_PANES && after.count <= MAX_PANES && Pictures(cells, after, sources, after.count)
    requires row < l.rows && col < l.cols && Holds(Arranged(l, count, vertical).layout, vertical, part, row, col)
    ensures var after := Arranged(l, count, vertical).layout;
            && part.k < after.count && row < |cells| && col < |cells[row]|
            && PartShows(after, vertical, sources, part, row, col, cells[row][col])
  {
    hide Arranged, Spans, Offset, Layer, CellAt, PartShows, Holds;
    ArrangedCount(l, count, vertical);
    EarlierLayers(l, count, vertical, sources, part, count, row, col);
    LayerShows(l, count, vertical, sources, part, row, col);
  }

  /** The cursor is the focused pane's own, which after an arrangement is the first. */
  lemma {:induction false} CursorFollows(l: Layout, sources: seq<Option<Grid>>, n: nat, from: Cursor)
    requires 0 < n <= |l.panes| && forall k :: 0 <= k < n ==> (l.panes[k].focused <==> k == 0)
    ensures CursorAt(l, sources, n, from) ==
            if |sources| > 0 && sources[0].Some? then
              Cursor(l.panes[0].y + sources[0].value.cursorRow, l.panes[0].x + sources[0].value.cursorCol,
                     sources[0].value.cursorVisible)
            else from
    decreases n
  {
    if n > 1 {
      CursorFollows(l, sources, n - 1, from);
    } else {
      assert CursorAt(l, sources, 0, from) == from;
    }
  }

  /** Compositing an arrangement shows every source cell unchanged inside its own
  pane's rectangle. */
  lemma SourcesShown(l: Layout, count: nat, vertical: bool, sources: seq<Option<Grid>>, cells: seq<seq<Cell>>, k: nat,
                     row: nat, col: nat)
    requires Formed(l) && SourcesOk(sources) && Arranged(l, count, vertical).status == Ok && Roomy(l, count, vertical)
    requires k < |sources| && k < count && sources[k].Some?
    requires var after := Arranged(l, count, vertical).layout;
             |after.panes| == MAX_PANES && after.count <= MAX_PANES && Pictures(cells, after, sources, after.count) &&
             row < after.panes[k].rows && col < after.panes[k].cols
    requires row < sources[k].value.rows && col < sources[k].value.cols
    ensures var pane := Arranged(l, count, vertical).layout.panes[k];
            && pane.y + row < |cells| && pane.x + col < |cells[pane.y + row]|
            && cells[pane.y + row][pane.x + col] == sources[k].value.cells[row][col]
  {
    hide Arranged, Spans, Offset, TitleCell;
    ArrangedCount(l, count, vertical);
    PanesInsideIff(l, count, vertical);
    var after := Arranged(l, count, vertical).layout;
    var pane := after.panes[k];
    assert Inside(after, pane);
    LaterLayers(l, count, vertical, sources, k, count, pane.y + row, pane.x + col);
  }
}
