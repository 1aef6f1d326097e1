/** The renderer refines redrawing the whole screen: over any frames and
invalidations the terminal ends up showing the newest frame. */
module RenderProofs {
  import opened Bytes
  import opened Screen
  import opened Render

  type Widths = seq<nat> -> nat

  // ---- what a terminal should show ------------------------------------------------------------

  function LookOf(style: Style): Look {
    Look(Bit(style.attrs, 0x0001), Bit(style.attrs, 0x0004),
         if !Bit(style.attrs, 0x0002) then 0 else if style.underline != 0 then style.underline else 1,
         Bit(style.attrs, 0x0008), Bit(style.attrs, 0x0010), Bit(style.attrs, 0x0020),
         Bit(style.attrs, 0x0040), InkOf(style.fg), InkOf(style.bg))
  }

  /** A wide character whose tail was overwritten: one column in the model, two on
  the terminal. */
  predicate Torn(width: Widths, cell: Cell) {
    cell.style.width == 1 && width(Text(cell)) == 2
  }

  /** Wide heads are followed by their tails, and the terminal agrees about every
  width, except that a torn character may be wider than its cell. */
  ghost predicate Drawable(width: Widths, line: seq<Cell>) {
    && (forall c :: 0 <= c < |line| ==> line[c].style.width <= 2)
    && (forall c :: 0 <= c < |line| && line[c].style.width == 0 ==> c > 0 && line[c - 1].style.width == 2)
    && (forall c :: 0 <= c < |line| && line[c].style.width == 2 ==>
          c + 1 < |line| && line[c + 1].style.width == 0 && width(Text(line[c])) == 2)
    && (forall c :: 0 <= c < |line| && line[c].style.width == 1 ==>
          width(Text(line[c])) == 1 || (Torn(width, line[c]) && Unicode(line[c]) && c + 1 < |line|))
  }

  ghost predicate DrawableGrid(width: Widths, grid: Grid) {
    Boxed(grid) && forall r :: 0 <= r < grid.rows ==> Drawable(width, grid.cells[r])
  }

  predicate Blank(glyph: Glyph) {
    glyph.Narrow? && glyph.text == [32]
  }

  /** A torn character cannot be shown in its one column; it is blanked. */
  predicate Shown(width: Widths, glyph: Glyph, cell: Cell) {
    if cell.style.width == 0 then glyph == Tail
    else if cell.style.width == 2 then glyph == Wide(Text(cell), LookOf(cell.style))
    else if Torn(width, cell) then Blank(glyph)
    else glyph == Narrow(Text(cell), LookOf(cell.style))
  }

  ghost predicate LineShown(width: Widths, glyphs: seq<Glyph>, line: seq<Cell>) {
    |glyphs| == |line| && forall c :: 0 <= c < |line| ==> Shown(width, glyphs[c], line[c])
  }

  ghost predicate ScreenShown(width: Widths, t: Terminal, grid: Grid) {
    |t.cells| == grid.rows == |grid.cells| &&
    forall r :: 0 <= r < grid.rows ==> LineShown(width, t.cells[r], grid.cells[r])
  }

  // ---- styles -----------------------------------------------------------------------------------

  lemma FeedWhen(width: Widths, t: Terminal, on: bool, rendition: Rendition, rest: seq<Command>)
    ensures Feed(width, t, When(on, rendition) + rest) ==
            Feed(width, t.(pen := if on then Penned(t.pen, rendition) else t.pen), rest)
  {
    FeedConcat(width, t, When(on, rendition), rest);
    if on { FeedOne(width, t, Sgr(rendition)); } else { assert When(on, rendition) == []; }
  }

  function Colors(style: Style): seq<Command> {
    [Sgr(Foreground(InkOf(style.fg))), Sgr(Background(InkOf(style.bg)))]
  }

  lemma FeedColors(width: Widths, t: Terminal, style: Style)
    ensures Feed(width, t, Colors(style)) == t.(pen := t.pen.(fg := InkOf(style.fg), bg := InkOf(style.bg)))
  {
    var both := Colors(style);
    assert both == [both[0]] + [both[1]];
    FeedConcat(width, t, [both[0]], [both[1]]);
    FeedOne(width, t, both[0]);
    FeedOne(width, Did(width, t, both[0]), both[1]);
  }

  /** The last four attributes and the colours. */
  lemma LaterAttributes(width: Widths, t: Terminal, blink: bool, reverse: bool, conceal: bool, strike: bool,
                        style: Style)
    requires !t.pen.blink && !t.pen.reverse && !t.pen.conceal && !t.pen.strike
    ensures Feed(width, t,
                 When(blink, Blink) +
                   (When(reverse, Reverse) + (When(conceal, Conceal) + (When(strike, Strike) + Colors(style))))) ==
            t.(pen := t.pen.(blink := blink, reverse := reverse, conceal := conceal, strike := strike,
                             fg := InkOf(style.fg), bg := InkOf(style.bg)))
  {
    hide Feed, When, Colors, Did;
    var c3 := When(strike, Strike) + Colors(style);
    var c2 := When(conceal, Conceal) + c3;
    var c1 := When(reverse, Reverse) + c2;
    FeedWhen(width, t, blink, Blink, c1);
    var t1 := t.(pen := t.pen.(blink := blink));
    FeedWhen(width, t1, reverse, Reverse, c2);
    var t2 := t1.(pen := t1.pen.(reverse := reverse));
    FeedWhen(width, t2, conceal, Conceal, c3);
    var t3 := t2.(pen := t2.pen.(conceal := conceal));
    FeedWhen(width, t3, strike, Strike, Colors(style));
    FeedColors(width, t3.(pen := t3.pen.(strike := strike)), style);
  }

  /** Whatever the pen was, the style sequence leaves exactly the cell's style. */
  lemma StyleSets(width: Widths, t: Terminal, style: Style)
    ensures Feed(width, t, StyleCommands(style)) == t.(pen := LookOf(style))
  {
    hide Feed, When, Colors, Did, Bit;
    var bold, italic, under := Bit(style.attrs, ATTR_BOLD), Bit(style.attrs, ATTR_ITALIC),
        Bit(style.attrs, ATTR_UNDERLINE);
    var line := if style.underline != 0 then style.underline else 1;
    var later := When(Bit(style.attrs, ATTR_BLINK), Blink) + (When(Bit(style.attrs, ATTR_REVERSE), Reverse) +
                 (When(Bit(style.attrs, ATTR_CONCEAL), Conceal) +
                  (When(Bit(style.attrs, ATTR_STRIKE), Strike) + Colors(style))));
    var c3 := When(under, Underline(line)) + later;
    var c2 := When(italic, Italic) + c3;
    var c1 := When(bold, Bold) + c2;
    Associated(style, c1, later);
    ResetFirst(width, t, c1);
    var t0 := t.(pen := PLAIN);
    FeedWhen(width, t0, bold, Bold, c2);
    var t1 := t0.(pen := t0.pen.(bold := bold));
    FeedWhen(width, t1, italic, Italic, c3);
    var t2 := t1.(pen := t1.pen.(italic := italic));
    FeedWhen(width, t2, under, Underline(line), later);
    var t3 := t2.(pen := t2.pen.(underline := if under then line else 0));
    LaterAttributes(width, t3, Bit(style.attrs, ATTR_BLINK), Bit(style.attrs, ATTR_REVERSE),
                    Bit(style.attrs, ATTR_CONCEAL),
                    Bit(style.attrs, ATTR_STRIKE), style);
  }

  lemma ResetFirst(width: Widths, t: Terminal, rest: seq<Command>)
    ensures Feed(width, t, [Sgr(Reset)] + rest) == Feed(width, t.(pen := PLAIN), rest)
  {
    FeedConcat(width, t, [Sgr(Reset)], rest);
    FeedOne(width, t, Sgr(Reset));
  }

  lemma Associated(style: Style, c1: seq<Command>, later: seq<Command>)
    requires later == When(Bit(style.attrs, ATTR_BLINK), Blink) + (When(Bit(style.attrs, ATTR_REVERSE), Reverse) +
             (When(Bit(style.attrs, ATTR_CONCEAL), Conceal) +
              (When(Bit(style.attrs, ATTR_STRIKE), Strike) + Colors(style))))
    requires c1 == When(Bit(style.attrs, ATTR_BOLD), Bold) + (When(Bit(style.attrs, ATTR_ITALIC), Italic) +
             (When(Bit(style.attrs, ATTR_UNDERLINE), Underline(if style.underline != 0 then style.underline else 1)) +
              later))
    ensures StyleCommands(style) == [Sgr(Reset)] + c1
  {
    hide When, Bit;
  }

  lemma SameLook(a: Style, b: Style)
    requires SameStyle(a, b)
    ensures LookOf(a) == LookOf(b)
  {
  }

  // ---- one line -----------------------------------------------------------------------------------

  /** From `from` on the line still shows `previous`, or has been cleared; a tail
  standing there has lost its head. */
  ghost predicate Ahead(width: Widths, glyphs: seq<Glyph>, previous: Option<seq<Cell>>, from: nat) {
    && (previous.Some? ==> |previous.value| == |glyphs|)
    && forall c :: from <= c < |glyphs| ==>
         if previous.None? || (c == from && previous.value[c].style.width == 0) then Blank(glyphs[c])
         else Shown(width, glyphs[c], previous.value[c])
  }

  ghost predicate Behind(width: Widths, glyphs: seq<Glyph>, line: seq<Cell>, upTo: nat) {
    upTo <= |line| == |glyphs| && forall c :: 0 <= c < upTo ==> Shown(width, glyphs[c], line[c])
  }

  /** How far the line is drawn when cell `col` is next: a tail comes with its head. */
  function Front(line: seq<Cell>, col: nat): nat
    requires col <= |line|
  {
    if col < |line| && line[col].style.width == 0 then col + 1 else col
  }

  /** Either all is drawn up to the front, or a torn character has just been
  printed and the next cell, which must be repainted, still holds its tail. */
  ghost predicate LineInv(width: Widths, glyphs: seq<Glyph>, previous: Option<seq<Cell>>, line: seq<Cell>,
                          repaint: bool, col: nat) {
    && col <= |line| == |glyphs|
    && ((Behind(width, glyphs, line, Front(line, col)) && Ahead(width, glyphs, previous, Front(line, col)))
        || (repaint && 0 < col < |line| && Torn(width, line[col - 1]) && glyphs[col - 1].Wide? && glyphs[col].Tail?
            && Behind(width, glyphs, line, col - 1) && Ahead(width, glyphs, previous, col + 1)))
  }

  /** Printing a cell that occupies the columns it says. */
  lemma PrintFits(width: Widths, glyphs: seq<Glyph>, previous: Option<seq<Cell>>, line: seq<Cell>, repaint: bool,
                  col: nat, after: bool)
    requires LineInv(width, glyphs, previous, line, repaint, col) && col < |line| && Drawable(width, line)
    requires previous.Some? ==> Drawable(width, previous.value)
    requires line[col].style.width != 0 && !Torn(width, line[col])
    ensures col + line[col].style.width <= |line|
    ensures LineInv(width, Printed(glyphs, col, line[col].style.width, Text(line[col]), LookOf(line[col].style)),
                    previous, line, after, col + 1)
  {
    hide Text, LookOf, Unicode;
    var cell := line[col];
    var columns: nat := cell.style.width;
    assert columns == 2 ==> col + 1 < |line| && line[col + 1].style.width == 0;
    assert columns == 1 && col + 1 < |line| ==> line[col + 1].style.width != 0;
    assert Front(line, col + 1) == col + columns;
    PrintBehind(width, glyphs, previous, line, repaint, col, columns);
    PrintAhead(width, glyphs, previous, line, repaint, col, columns);
  }

  lemma PrintBehind(width: Widths, glyphs: seq<Glyph>, previous: Option<seq<Cell>>, line: seq<Cell>, repaint: bool,
                    col: nat, columns: nat)
    requires LineInv(width, glyphs, previous, line, repaint, col) && col < |line| && Drawable(width, line)
    requires previous.Some? ==> Drawable(width, previous.value)
    requires line[col].style.width != 0 && 1 <= columns <= 2 && col + columns <= |line|
    ensures var printed := Printed(glyphs, col, columns, Text(line[col]), LookOf(line[col].style));
            Behind(width, printed, line, col)
    ensures var printed := Printed(glyphs, col, columns, Text(line[col]), LookOf(line[col].style));
            columns == line[col].style.width && !Torn(width, line[col]) ==> Behind(width, printed, line, col + columns)
  {
    hide Text, LookOf, Unicode;
    var printed := Printed(glyphs, col, columns, Text(line[col]), LookOf(line[col].style));
    forall c | 0 <= c < col ensures Shown(width, printed[c], line[c]) {
      assert c < col - 1 ==> printed[c] == glyphs[c];
    }
  }

  lemma PrintAhead(width: Widths, glyphs: seq<Glyph>, previous: Option<seq<Cell>>, line: seq<Cell>, repaint: bool,
                   col: nat, columns: nat)
    requires LineInv(width, glyphs, previous, line, repaint, col) && col < |line| && Drawable(width, line)
    requires previous.Some? ==> Drawable(width, previous.value)
    requires line[col].style.width != 0 && 1 <= columns <= 2 && col + columns <= |line|
    ensures Ahead(width, Printed(glyphs, col, columns, Text(line[col]), LookOf(line[col].style)), previous,
                  col + columns)
  {
    hide Text, LookOf, Unicode;
    var printed := Printed(glyphs, col, columns, Text(line[col]), LookOf(line[col].style));
    var end := col + columns;
    forall c | end <= c < |glyphs|
      ensures if previous.None? || (c == end && previous.value[c].style.width == 0) then Blank(printed[c])
              else Shown(width, printed[c], previous.value[c])
    {
      if c > end { assert printed[c] == glyphs[c]; }
    }
  }

  /** Printing a torn character leaves its tail on the next cell, which must follow. */
  lemma PrintTorn(width: Widths, glyphs: seq<Glyph>, previous: Option<seq<Cell>>, line: seq<Cell>, repaint: bool,
                  col: nat)
    requires LineInv(width, glyphs, previous, line, repaint, col) && col < |line| && Drawable(width, line)
    requires previous.Some? ==> Drawable(width, previous.value)
    requires Torn(width, line[col])
    ensures col + 2 <= |line|
    ensures LineInv(width, Printed(glyphs, col, 2, Text(line[col]), LookOf(line[col].style)), previous, line, true,
                    col + 1)
  {
    hide Text, LookOf, Unicode;
    PrintBehind(width, glyphs, previous, line, repaint, col, 2);
    PrintAhead(width, glyphs, previous, line, repaint, col, 2);
  }

  /** A tail, or a cell that is already on the screen, needs nothing. */
  lemma SkipKeeps(width: Widths, glyphs: seq<Glyph>, previous: Option<seq<Cell>>, line: seq<Cell>, repaint: bool,
                  col: nat)
    requires LineInv(width, glyphs, previous, line, repaint, col) && col < |line| && Drawable(width, line)
    requires previous.Some? ==> Drawable(width, previous.value) && |previous.value| == |line|
    requires line[col].style.width == 0 || (!repaint && previous.Some? && previous.value[col] == line[col])
    ensures LineInv(width, glyphs, previous, line, false, col + 1)
  {
    hide Text, LookOf, Unicode, Torn;
    if line[col].style.width == 0 {
      assert line[col - 1].style.width == 2;
      assert !Torn(width, line[col - 1]) by { WideIsWhole(width, line[col - 1]); }
    } else {
      assert Shown(width, glyphs[col], line[col]);
      assert Behind(width, glyphs, line, col + 1);
    }
  }

  lemma WideIsWhole(width: Widths, cell: Cell)
    requires cell.style.width != 1
    ensures !Torn(width, cell)
  {
  }

  /** The renderer's idea of the cursor and the pen is the terminal's. */
  ghost predicate Tracks(t: Terminal, b: Brush) {
    && (b.row >= 0 && b.col >= 0 ==> t.row == b.row && t.col == b.col)
    && (b.style.Some? ==> t.pen == LookOf(b.style.value))
  }

  /** Moving and styling before a glyph. */
  lemma Positioned(width: Widths, t: Terminal, b: Brush, cell: Cell, row: nat, col: nat)
    requires Tracks(t, b)
    ensures var moved := if b.row != row || b.col != col then [Move(row, col)] else [];
            var same := b.style.Some? && SameStyle(b.style.value, cell.style);
            var styled := if same then [] else StyleCommands(cell.style);
            Feed(width, t, moved + styled) == t.(row := row, col := col, pen := LookOf(cell.style))
  {
    hide StyleCommands, LookOf;
    var moved := if b.row != row || b.col != col then [Move(row, col)] else [];
    var same := b.style.Some? && SameStyle(b.style.value, cell.style);
    var styled := if same then [] else StyleCommands(cell.style);
    FeedConcat(width, t, moved, styled);
    FeedOne(width, t, Move(row, col));
    StyleSets(width, t.(row := row, col := col), cell.style);
    if same { SameLook(b.style.value, cell.style); }
  }

  lemma CellStep(width: Widths, t: Terminal, previous: Option<seq<Cell>>, line: seq<Cell>, b: Brush, row: nat, col: nat)
    requires row < |t.cells| && col < |line| && LineInv(width, t.cells[row], previous, line, b.repaint, col) &&
             Tracks(t, b)
    requires Drawable(width, line) && (previous.Some? ==> Drawable(width, previous.value) && |previous.value| == |line|)
    ensures var d := DrawCell(Before(previous, col), line[col], b, row, col);
            var after := Feed(width, t, d.out);
            && Tracks(after, d.brush) && |after.cells| == |t.cells|
            && LineInv(width, after.cells[row], previous, line, d.brush.repaint, col + 1)
            && (forall r :: 0 <= r < |t.cells| && r != row ==> after.cells[r] == t.cells[r])
  {
    hide StyleCommands, LookOf, Text, LineInv, Printed, Drawable;
    var cell := line[col];
    var d := DrawCell(Before(previous, col), cell, b, row, col);
    if cell.style.width == 0 || (!b.repaint && Before(previous, col) == Some(cell)) {
      SkipKeeps(width, t.cells[row], previous, line, b.repaint, col);
      assert Feed(width, t, []) == t;
    } else {
      var moved := if b.row != row || b.col != col then [Move(row, col)] else [];
      var same := b.style.Some? && SameStyle(b.style.value, cell.style);
      var styled := if same then [] else StyleCommands(cell.style);
      Positioned(width, t, b, cell, row, col);
      FeedConcat(width, t, moved + styled, [Print(Text(cell))]);
      var ready := t.(row := row, col := col, pen := LookOf(cell.style));
      FeedOne(width, ready, Print(Text(cell)));
      if same { SameLook(b.style.value, cell.style); }
      PrintStep(width, ready, previous, line, b.repaint, d.brush.repaint, row, col);
    }
  }

  lemma PrintStep(width: Widths, t: Terminal, previous: Option<seq<Cell>>, line: seq<Cell>, repaint: bool,
                  after: bool, row: nat, col: nat)
    requires row == t.row < |t.cells| && col == t.col < |line| &&
             LineInv(width, t.cells[row], previous, line, repaint, col)
    requires Drawable(width, line) && (previous.Some? ==> Drawable(width, previous.value) && |previous.value| == |line|)
    requires line[col].style.width != 0 && t.pen == LookOf(line[col].style)
    requires after == ((Unicode(line[col]) || line[col].style.width != 1) && line[col].style.width == 1)
    ensures var done := Did(width, t, Print(Text(line[col])));
            && done == t.(cells := done.cells, col := done.col) && |done.cells| == |t.cells|
            && LineInv(width, done.cells[row], previous, line, after, col + 1)
            && (forall r :: 0 <= r < |t.cells| && r != row ==> done.cells[r] == t.cells[r])
            && (!(Unicode(line[col]) || line[col].style.width != 1) ==> done.col == col + 1)
  {
    hide LookOf, Text, Unicode, Printed;
    LineLength(width, t.cells[row], previous, line, repaint, col);
    if Torn(width, line[col]) {
      PrintTorn(width, t.cells[row], previous, line, repaint, col);
    } else {
      PrintFits(width, t.cells[row], previous, line, repaint, col, after);
    }
    hide LineInv;
  }

  lemma LineLength(width: Widths, glyphs: seq<Glyph>, previous: Option<seq<Cell>>, line: seq<Cell>, repaint: bool,
                   col: nat)
    requires LineInv(width, glyphs, previous, line, repaint, col)
    ensures |glyphs| == |line|
  {
  }

  lemma {:induction false} LineStep(width: Widths, t: Terminal, previous: Option<seq<Cell>>, line: seq<Cell>,
                                    b: Brush, row: nat, col: nat)
    requires row < |t.cells| && col <= |line| && LineInv(width, t.cells[row], previous, line, b.repaint, col) &&
             Tracks(t, b)
    requires Drawable(width, line) && (previous.Some? ==> Drawable(width, previous.value) && |previous.value| == |line|)
    ensures var d := DrawLine(previous, line, b, row, col);
            var after := Feed(width, t, d.out);
            && Tracks(after, d.brush) && |after.cells| == |t.cells|
            && LineInv(width, after.cells[row], previous, line, d.brush.repaint, |line|)
            && (forall r :: 0 <= r < |t.cells| && r != row ==> after.cells[r] == t.cells[r])
    decreases |line| - col
  {
    hide LineInv, DrawCell, Tracks, Did, Drawable;
    if col < |line| {
      var here := DrawCell(Before(previous, col), line[col], b, row, col);
      CellStep(width, t, previous, line, b, row, col);
      LineStep(width, Feed(width, t, here.out), previous, line, here.brush, row, col + 1);
      FeedConcat(width, t, here.out, DrawLine(previous, line, here.brush, row, col + 1).out);
    }
  }

  // ---- whole frames -----------------------------------------------------------------------------------

  /** A line nothing has been drawn on in this frame. */
  ghost predicate Untouched(width: Widths, glyphs: seq<Glyph>, previous: Option<seq<Cell>>, cols: nat) {
    && |glyphs| == cols
    && (if previous.Some? then LineShown(width, glyphs, previous.value)
        else forall c :: 0 <= c < cols ==> Blank(glyphs[c]))
  }

  lemma RowStep(width: Widths, t: Terminal, previous: Option<seq<Cell>>, line: seq<Cell>, b: Brush, row: nat)
    requires row < |t.cells| && Untouched(width, t.cells[row], previous, |line|) && Tracks(t, b)
    requires Drawable(width, line) && (previous.Some? ==> Drawable(width, previous.value) && |previous.value| == |line|)
    ensures var d := DrawRow(previous, line, b, row);
            var after := Feed(width, t, d.out);
            && Tracks(after, d.brush) && |after.cells| == |t.cells| && LineShown(width, after.cells[row], line)
            && (forall r :: 0 <= r < |t.cells| && r != row ==> after.cells[r] == t.cells[r])
  {
    hide Shown, DrawLine, DrawCell;
    if previous != Some(line) {
      var cleared := b.(repaint := false);
      AtLineStart(width, t.cells[row], previous, line);
      LineStep(width, t, previous, line, cleared, row, 0);
      AtLineEnd(width, Feed(width, t, DrawRow(previous, line, b, row).out).cells[row], previous, line,
                DrawLine(previous, line, cleared, row, 0).brush.repaint);
    }
  }

  lemma AtLineStart(width: Widths, glyphs: seq<Glyph>, previous: Option<seq<Cell>>, line: seq<Cell>)
    requires Untouched(width, glyphs, previous, |line|) && Drawable(width, line)
    requires previous.Some? ==> Drawable(width, previous.value) && |previous.value| == |line|
    ensures LineInv(width, glyphs, previous, line, false, 0)
  {
    hide Text, LookOf, Unicode, Shown;
    assert Front(line, 0) == 0;
    assert previous.Some? && |line| > 0 ==> previous.value[0].style.width != 0;
  }

  lemma AtLineEnd(width: Widths, glyphs: seq<Glyph>, previous: Option<seq<Cell>>, line: seq<Cell>, repaint: bool)
    requires LineInv(width, glyphs, previous, line, repaint, |line|)
    ensures LineShown(width, glyphs, line)
  {
    hide Shown;
  }

  /** Rows above `row` show the new frame, the others what they showed. */
  ghost predicate Halfway(width: Widths, t: Terminal, previous: Option<Grid>, grid: Grid, row: nat)
    requires Comparable(previous, grid)
  {
    && |t.cells| == grid.rows
    && forall r :: 0 <= r < grid.rows ==>
         if r < row then LineShown(width, t.cells[r], grid.cells[r])
         else Untouched(width, t.cells[r], RowOf(previous, r), grid.cols)
  }

  lemma {:induction false} RowsStep(width: Widths, t: Terminal, previous: Option<Grid>, grid: Grid, b: Brush, row: nat)
    requires Comparable(previous, grid) && DrawableGrid(width, grid) &&
             (previous.Some? ==> DrawableGrid(width, previous.value))
    requires row <= grid.rows && Halfway(width, t, previous, grid, row) && Tracks(t, b)
    ensures var after := Feed(width, t, DrawRows(previous, grid, b, row).out);
            ScreenShown(width, after, grid)
    decreases grid.rows - row
  {
    hide DrawRow, Tracks, LineShown, Untouched, Did, Drawable;
    if row < grid.rows {
      var before, line := RowOf(previous, row), grid.cells[row];
      var here := DrawRow(before, line, b, row);
      RowStep(width, t, before, line, b, row);
      RowsStep(width, Feed(width, t, here.out), previous, grid, here.brush, row + 1);
      FeedConcat(width, t, here.out, DrawRows(previous, grid, here.brush, row + 1).out);
    }
  }

  /** A terminal of the grid's size. */
  ghost predicate Sized(t: Terminal, rows: nat, cols: nat) {
    |t.cells| == rows && forall r :: 0 <= r < rows ==> |t.cells[r]| == cols
  }

  /** One frame: from a screen that shows what the renderer compares against - or
  any screen at all for a full repaint - its output shows the new frame's glyphs,
  styles and cursor, and leaves a plain pen. */
  lemma FrameShows(width: Widths, t: Terminal, previous: Option<Grid>, grid: Grid)
    requires Comparable(previous, grid) && DrawableGrid(width, grid) &&
             (previous.Some? ==> DrawableGrid(width, previous.value))
    requires Sized(t, grid.rows, grid.cols) && (previous.Some? ==> ScreenShown(width, t, previous.value))
    ensures var after := Feed(width, t, FrameCommands(previous, grid));
            && ScreenShown(width, after, grid) && after.pen == PLAIN
            && after.row == grid.cursorRow && after.col == grid.cursorCol && after.visible == grid.cursorVisible
  {
    hide DrawRows, Shown, Drawable;
    var head := if previous.None? then [Move(0, 0), Clear] else [];
    var rows := DrawRows(previous, grid, NEW_BRUSH, 0).out;
    var tail := [Sgr(Reset), Move(grid.cursorRow, grid.cursorCol), Visible(grid.cursorVisible)];
    FeedConcat(width, t, head + rows, tail);
    FeedConcat(width, t, head, rows);
    Cleared(width, t);
    var start := Feed(width, t, head);
    RowsStep(width, start, previous, grid, NEW_BRUSH, 0);
    Finished(width, Feed(width, start, rows), grid);
  }

  lemma Cleared(width: Widths, t: Terminal)
    ensures var after := Feed(width, t, [Move(0, 0), Clear]);
            && |after.cells| == |t.cells|
            && forall r :: 0 <= r < |t.cells| ==>
                 |after.cells[r]| == |t.cells[r]| && forall c :: 0 <= c < |t.cells[r]| ==> Blank(after.cells[r][c])
  {
    assert [Move(0, 0), Clear] == [Move(0, 0)] + [Clear];
    FeedConcat(width, t, [Move(0, 0)], [Clear]);
    FeedOne(width, t, Move(0, 0));
    FeedOne(width, Did(width, t, Move(0, 0)), Clear);
  }

  lemma Finished(width: Widths, t: Terminal, grid: Grid)
    ensures Feed(width, t, [Sgr(Reset), Move(grid.cursorRow, grid.cursorCol), Visible(grid.cursorVisible)]) ==
            t.(pen := PLAIN, row := grid.cursorRow, col := grid.cursorCol, visible := grid.cursorVisible)
  {
    var move, show := [Move(grid.cursorRow, grid.cursorCol)], [Visible(grid.cursorVisible)];
    assert [Sgr(Reset), move[0], show[0]] == [Sgr(Reset)] + (move + show);
    ResetFirst(width, t, move + show);
    FeedConcat(width, t.(pen := PLAIN), move, show);
    FeedOne(width, t.(pen := PLAIN), move[0]);
    FeedOne(width, Did(width, t.(pen := PLAIN), move[0]), show[0]);
  }

  // ---- every run -----------------------------------------------------------------------------------------

  /** `Disturb` is anything else that writes to the terminal or resizes it. */
  datatype Event = Draw(grid: Grid) | Disturb(screen: Terminal, invalidate: bool)

  datatype Session = Session(renderer: Renderer, terminal: Terminal)

  /** A frame the renderer keeps is one it drew. */
  ghost predicate Framed(r: Renderer) {
    r.previous.Some? ==> Boxed(r.previous.value)
  }

  ghost predicate Allowed(width: Widths, s: Session, event: Event) {
    && Framed(s.renderer)
    && match event
       case Draw(grid) => DrawableGrid(width, grid) && Sized(s.terminal, grid.rows, grid.cols)
       case Disturb(screen, invalidate) =>
         invalidate || s.renderer.previous.None? ||
         !Sized(screen, s.renderer.previous.value.rows, s.renderer.previous.value.cols)
  }

  ghost function After(width: Widths, s: Session, event: Event): Session
    requires Allowed(width, s, event)
  {
    match event
    case Draw(grid) =>
      Session(Renderer(Some(grid), true), Feed(width, s.terminal, FrameCommands(Basis(s.renderer, grid), grid)))
    case Disturb(screen, invalidate) =>
      Session(if invalidate then s.renderer.(valid := false) else s.renderer, screen)
  }

  /** What a renderer may compare against is what the terminal shows. */
  ghost predicate Healthy(width: Widths, s: Session) {
    s.renderer.previous.Some? ==>
      && DrawableGrid(width, s.renderer.previous.value)
      && (s.renderer.valid && Sized(s.terminal, s.renderer.previous.value.rows, s.renderer.previous.value.cols) ==>
            ScreenShown(width, s.terminal, s.renderer.previous.value))
  }

  lemma StepHealthy(width: Widths, s: Session, event: Event)
    requires Healthy(width, s) && Allowed(width, s, event)
    ensures Healthy(width, After(width, s, event))
    ensures event.Draw? ==>
      var t := After(width, s, event).terminal;
      ScreenShown(width, t, event.grid) && t.row == event.grid.cursorRow && t.col == event.grid.cursorCol &&
        t.visible == event.grid.cursorVisible
  {
    hide Feed, FrameCommands, ScreenShown, Drawable;
    match event
    case Draw(grid) => FrameShows(width, s.terminal, Basis(s.renderer, grid), grid);
    case Disturb(screen, invalidate) =>
  }

  /** Over any sequence of frames and disturbances, every frame drawn is what the
  terminal then shows, whether the renderer emitted a difference or all of it. */
  lemma {:induction false} RendererRefinement(width: Widths, sessions: seq<Session>, events: seq<Event>, k: nat)
    requires |sessions| == |events| + 1 && sessions[0].renderer == Renderer(None, false) && k <= |events|
    requires forall j :: 0 <= j < |events| ==>
      Allowed(width, sessions[j], events[j]) && sessions[j + 1] == After(width, sessions[j], events[j])
    ensures Healthy(width, sessions[k])
    ensures k > 0 && events[k - 1].Draw? ==>
      var (t, grid) := (sessions[k].terminal, events[k - 1].grid);
      ScreenShown(width, t, grid) && t.row == grid.cursorRow && t.col == grid.cursorCol &&
        t.visible == grid.cursorVisible
  {
    hide Feed, FrameCommands, ScreenShown, Drawable, After, Allowed, Healthy;
    if k == 0 {
      NothingDrawn(width, sessions[0]);
    } else {
      RendererRefinement(width, sessions, events, k - 1);
      StepHealthy(width, sessions[k - 1], events[k - 1]);
    }
  }

  lemma NothingDrawn(width: Widths, s: Session)
    requires s.renderer.previous.None?
    ensures Healthy(width, s)
  {
  }
}
