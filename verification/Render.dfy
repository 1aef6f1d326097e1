/** The diffing renderer (src/render.c) against an abstract terminal: what it
emits turns the previous frame on the screen into the new one. */
module Render {
  import opened Bytes
  import opened Screen

  // ---- the terminal ---------------------------------------------------------------------------

  datatype Ink = DefaultInk | Indexed(index: Byte) | Rgb(r: Byte, g: Byte, b: Byte)

  /** A rendered style; `underline` is zero for none. */
  datatype Look = Look(bold: bool, italic: bool, underline: nat, blink: bool, reverse: bool,
                       conceal: bool, strike: bool, fg: Ink, bg: Ink)

  const PLAIN := Look(false, false, 0, false, false, false, false, DefaultInk, DefaultInk)

  datatype Glyph = Narrow(text: seq<nat>, look: Look) | Wide(text: seq<nat>, look: Look) | Tail

  /** Select Graphic Rendition, section 8.3.117 of ECMA-48, one parameter each. */
  datatype Rendition =
    | Reset | Bold | Italic | Underline(style: nat) | Blink | Reverse | Conceal | Strike
    | Foreground(ink: Ink) | Background(ink: Ink)

  datatype Command =
    | Clear
    | Move(row: nat, col: nat)
    | Sgr(rendition: Rendition)
    | Print(text: seq<nat>)
    | Visible(on: bool)

  /** `col` one past the last column is the pending-wrap position. */
  datatype Terminal = Terminal(cells: seq<seq<Glyph>>, row: nat, col: nat, pen: Look, visible: bool)

  function Penned(pen: Look, r: Rendition): Look {
    match r
    case Reset => PLAIN
    case Bold => pen.(bold := true)
    case Italic => pen.(italic := true)
    case Underline(style) => pen.(underline := style)
    case Blink => pen.(blink := true)
    case Reverse => pen.(reverse := true)
    case Conceal => pen.(conceal := true)
    case Strike => pen.(strike := true)
    case Foreground(ink) => pen.(fg := ink)
    case Background(ink) => pen.(bg := ink)
  }

  /** One glyph on one line: overwriting half of a wide character erases the rest. */
  function Printed(line: seq<Glyph>, at: nat, columns: nat, text: seq<nat>, look: Look): (printed: seq<Glyph>)
    requires 1 <= columns <= 2 && at + columns <= |line|
    ensures |printed| == |line|
  {
    seq(|line|, k requires 0 <= k < |line| =>
      if k == at then (if columns == 2 then Wide(text, look) else Narrow(text, look))
      else if k == at + 1 && columns == 2 then Tail
      else if k + 1 == at && line[at].Tail? then Narrow([32], look)
      else if k == at + columns && line[k].Tail? then Narrow([32], look)
      else line[k])
  }

  /** `width` is how many columns the terminal gives a glyph. A glyph that does not
  fit its line would wrap, which this renderer never asks for. */
  function Did(width: seq<nat> -> nat, t: Terminal, command: Command): Terminal {
    match command
    case Clear =>
      t.(cells := seq(|t.cells|, r requires 0 <= r < |t.cells| => seq(|t.cells[r]|, _ => Narrow([32], t.pen))))
    case Move(row, col) => t.(row := row, col := col)
    case Sgr(rendition) => t.(pen := Penned(t.pen, rendition))
    case Visible(on) => t.(visible := on)
    case Print(text) =>
      var columns := width(text);
      if t.row < |t.cells| && 1 <= columns <= 2 && t.col + columns <= |t.cells[t.row]| then
        t.(cells := t.cells[t.row := Printed(t.cells[t.row], t.col, columns, text, t.pen)], col := t.col + columns)
      else t
  }

  function Feed(width: seq<nat> -> nat, t: Terminal, commands: seq<Command>): Terminal
    decreases |commands|
  {
    if commands == [] then t else Feed(width, Did(width, t, commands[0]), commands[1..])
  }

  lemma {:induction false} FeedConcat(width: seq<nat> -> nat, t: Terminal, a: seq<Command>, b: seq<Command>)
    ensures Feed(width, t, a + b) == Feed(width, Feed(width, t, a), b)
    decreases |a|
  {
    hide Did;
    if a == [] {
      assert a + b == b;
    } else {
      FeedConcat(width, Did(width, t, a[0]), a[1..], b);
      assert (a + b)[1..] == a[1..] + b && (a + b)[0] == a[0];
    }
  }

  lemma FeedOne(width: seq<nat> -> nat, t: Terminal, command: Command)
    ensures Feed(width, t, [command]) == Did(width, t, command)
  {
    assert Feed(width, Did(width, t, command), []) == Did(width, t, command);
  }

  // ---- the renderer -----------------------------------------------------------------------------

  const ATTR_BOLD: nat := 0x0001
  const ATTR_UNDERLINE: nat := 0x0002
  const ATTR_ITALIC: nat := 0x0004
  const ATTR_BLINK: nat := 0x0008
  const ATTR_REVERSE: nat := 0x0010
  const ATTR_CONCEAL: nat := 0x0020
  const ATTR_STRIKE: nat := 0x0040

  predicate Bit(attrs: nat, mask: nat)
    requires mask > 0
  {
    attrs / mask % 2 == 1
  }

  function InkOf(color: Color): Ink {
    if color.kind == 1 then Indexed(color.r) else if color.kind == 2 then Rgb(color.r, color.g, color.b) else DefaultInk
  }

  function When(on: bool, rendition: Rendition): seq<Command> {
    if on then [Sgr(rendition)] else []
  }

  /** append_style: a reset followed by what is wanted. */
  function StyleCommands(style: Style): seq<Command> {
    [Sgr(Reset)]
    + When(Bit(style.attrs, ATTR_BOLD), Bold)
    + When(Bit(style.attrs, ATTR_ITALIC), Italic)
    + When(Bit(style.attrs, ATTR_UNDERLINE), Underline(if style.underline != 0 then style.underline else 1))
    + When(Bit(style.attrs, ATTR_BLINK), Blink)
    + When(Bit(style.attrs, ATTR_REVERSE), Reverse)
    + When(Bit(style.attrs, ATTR_CONCEAL), Conceal)
    + When(Bit(style.attrs, ATTR_STRIKE), Strike)
    + [Sgr(Foreground(InkOf(style.fg))), Sgr(Background(InkOf(style.bg)))]
  }

  predicate SameStyle(a: Style, b: Style) {
    a.attrs == b.attrs && a.underline == b.underline && a.fg == b.fg && a.bg == b.bg
  }

  function TextFrom(chars: seq<nat>, i: nat): seq<nat>
    decreases |chars| - i
  {
    if i >= |chars| || chars[i] == 0 then [] else [chars[i]] + TextFrom(chars, i + 1)
  }

  /** What a cell prints: a space when it has no characters. */
  function Text(cell: Cell): seq<nat> {
    if TextFrom(cell.chars, 0) == [] then [32] else TextFrom(cell.chars, 0)
  }

  predicate Unicode(cell: Cell) {
    BeyondAscii(Text(cell))
  }

  predicate BeyondAscii(text: seq<nat>) {
    exists k :: 0 <= k < |text| && text[k] >= 0x80
  }

  lemma OneMore(text: seq<nat>, code: nat)
    ensures BeyondAscii(text + [code]) <==> BeyondAscii(text) || code >= 0x80
  {
    var more := text + [code];
    assert more[|text|] == code;
    if BeyondAscii(text) {
      var k :| 0 <= k < |text| && text[k] >= 0x80;
      assert more[k] == text[k];
    }
  }

  /** The renderer's locals within a frame; minus one is an unknown cursor. */
  datatype Brush = Brush(row: int, col: int, style: Option<Style>, repaint: bool)

  datatype Drawn = Drawn(brush: Brush, out: seq<Command>)

  /** One cell; `before` is what the screen shows there, unless all is repainted. */
  function DrawCell(before: Option<Cell>, cell: Cell, b: Brush, row: nat, col: nat): Drawn {
    if cell.style.width == 0 then Drawn(b.(repaint := false), [])
    else if !b.repaint && before == Some(cell) then Drawn(b.(repaint := false), [])
    else
      var moved := if b.row != row || b.col != col then [Move(row, col)] else [];
      var same := b.style.Some? && SameStyle(b.style.value, cell.style);
      var styled := if same then [] else StyleCommands(cell.style);
      var unsure := Unicode(cell) || cell.style.width != 1;
      Drawn(Brush(row, if unsure then -1 else col + 1, if same then b.style else Some(cell.style),
                  unsure && cell.style.width == 1),
            moved + styled + [Print(Text(cell))])
  }

  function Before(previous: Option<seq<Cell>>, col: nat): Option<Cell>
    requires previous.Some? ==> col < |previous.value|
  {
    if previous.Some? then Some(previous.value[col]) else None
  }

  function DrawLine(previous: Option<seq<Cell>>, line: seq<Cell>, b: Brush, row: nat, col: nat): Drawn
    requires col <= |line| && (previous.Some? ==> |previous.value| == |line|)
    decreases |line| - col
  {
    if col == |line| then Drawn(b, [])
    else
      var here := DrawCell(Before(previous, col), line[col], b, row, col);
      var rest := DrawLine(previous, line, here.brush, row, col + 1);
      Drawn(rest.brush, here.out + rest.out)
  }

  /** A line that did not change at all is skipped. */
  function DrawRow(previous: Option<seq<Cell>>, line: seq<Cell>, b: Brush, row: nat): Drawn
    requires previous.Some? ==> |previous.value| == |line|
  {
    if previous == Some(line) then Drawn(b, []) else DrawLine(previous, line, b.(repaint := false), row, 0)
  }

  function RowOf(previous: Option<Grid>, row: nat): Option<seq<Cell>>
    requires previous.Some? ==> row < |previous.value.cells|
  {
    if previous.Some? then Some(previous.value.cells[row]) else None
  }

  ghost predicate Boxed(grid: Grid) {
    grid.cursorRow < grid.rows && grid.cursorCol < grid.cols && Rectangular(grid.cells, grid.rows, grid.cols)
  }

  /** `previous` is None for a full repaint. */
  ghost predicate Comparable(previous: Option<Grid>, grid: Grid) {
    Boxed(grid) && (previous.Some? ==> Boxed(previous.value) && SameSize(previous.value, grid))
  }

  function DrawRows(previous: Option<Grid>, grid: Grid, b: Brush, row: nat): Drawn
    requires Comparable(previous, grid) && row <= grid.rows
    decreases grid.rows - row
  {
    if row == grid.rows then Drawn(b, [])
    else
      var here := DrawRow(RowOf(previous, row), grid.cells[row], b, row);
      var rest := DrawRows(previous, grid, here.brush, row + 1);
      Drawn(rest.brush, here.out + rest.out)
  }

  const NEW_BRUSH := Brush(-1, -1, None, false)

  /** kmx_render_frame's output. */
  function FrameCommands(previous: Option<Grid>, grid: Grid): seq<Command>
    requires Comparable(previous, grid)
  {
    (if previous.None? then [Move(0, 0), Clear] else [])
    + DrawRows(previous, grid, NEW_BRUSH, 0).out
    + [Sgr(Reset), Move(grid.cursorRow, grid.cursorCol), Visible(grid.cursorVisible)]
  }

  /** The last frame drawn, when it may be compared against. */
  datatype Renderer = Renderer(previous: Option<Grid>, valid: bool)

  function Basis(r: Renderer, grid: Grid): Option<Grid> {
    if !r.valid || r.previous.None? || !SameSize(r.previous.value, grid) then None else r.previous
  }

  class FrameRenderer {
    var previous: Option<Grid>
    var valid: bool

    ghost function View(): Renderer
      reads this
    {
      Renderer(previous, valid)
    }

    constructor ()
      ensures View() == Renderer(None, false)
    {
      previous, valid := None, false;
    }

    method Invalidate()
      modifies this`valid
      ensures View() == old(View()).(valid := false)
    {
      valid := false;
    }

    method AppendText(cell: Cell) returns (text: seq<nat>, unicode: bool)
      ensures text == Text(cell) && unicode == Unicode(cell)
    {
      text, unicode := [], false;
      var index := 0;
      while index < |cell.chars| && cell.chars[index] != 0
        invariant index <= |cell.chars|
        invariant TextFrom(cell.chars, 0) == text + TextFrom(cell.chars, index)
        invariant unicode <==> BeyondAscii(text)
      {
        hide BeyondAscii;
        if cell.chars[index] >= 0x80 { unicode := true; }
        ghost var was := text;
        text := text + [cell.chars[index]];
        assert was + ([cell.chars[index]] + TextFrom(cell.chars, index + 1)) == text + TextFrom(cell.chars, index + 1);
        OneMore(was, cell.chars[index]);
        index := index + 1;
      }
      if text == [] { text := [32]; }
    }

    /** The body of the loop over one row. */
    method EmitCell(before: Option<Cell>, cell: Cell, brush: Brush, row: nat, col: nat)
      returns (after: Brush, out: seq<Command>)
      ensures Drawn(after, out) == DrawCell(before, cell, brush, row, col)
    {
      hide StyleCommands, Text, Unicode;
      var forced := brush.repaint;
      after, out := brush.(repaint := false), [];
      if cell.style.width == 0 { return; }
      if before.Some? && !forced && before.value == cell { return; }
      if after.row != row || after.col != col {
        out := [Move(row, col)];
        after := after.(row := row, col := col);
      }
      if after.style.None? || !SameStyle(after.style.value, cell.style) {
        out := out + StyleCommands(cell.style);
        after := after.(style := Some(cell.style));
      } else {
        assert out + [] == out;
      }
      var text, unicode := AppendText(cell);
      out := out + [Print(text)];
      if unicode || cell.style.width != 1 {
        after := after.(col := -1, repaint := cell.style.width == 1);
      } else {
        after := after.(col := after.col + 1);
      }
    }

    method EmitLine(before: Option<seq<Cell>>, line: seq<Cell>, brush: Brush, row: nat)
      returns (after: Brush, out: seq<Command>)
      requires before.Some? ==> |before.value| == |line|
      ensures Drawn(after, out) == DrawLine(before, line, brush, row, 0)
    {
      hide DrawCell;
      after, out := brush, [];
      var col := 0;
      while col < |line|
        invariant col <= |line|
        invariant var rest := DrawLine(before, line, after, row, col);
                  DrawLine(before, line, brush, row, 0) == Drawn(rest.brush, out + rest.out)
      {
        ghost var here := DrawCell(Before(before, col), line[col], after, row, col);
        ghost var later := DrawLine(before, line, here.brush, row, col + 1);
        assert out + (here.out + later.out) == (out + here.out) + later.out;
        var brush', commands := EmitCell(Before(before, col), line[col], after, row, col);
        after, out, col := brush', out + commands, col + 1;
      }
      assert out + [] == out;
    }

    method Frame(grid: Grid) returns (out: seq<Command>)
      requires Boxed(grid) && (previous.Some? ==> Boxed(previous.value))
      modifies this
      ensures out == FrameCommands(Basis(old(View()), grid), grid) && View() == Renderer(Some(grid), true)
    {
      hide DrawLine;
      var basis := if !valid || previous.None? || !SameSize(previous.value, grid) then None else previous;
      ghost var head := if basis.None? then [Move(0, 0), Clear] else [];
      out := if basis.None? then [Move(0, 0), Clear] else [];
      var brush := NEW_BRUSH;
      var row := 0;
      while row < grid.rows
        invariant row <= grid.rows && Comparable(basis, grid)
        invariant head + DrawRows(basis, grid, NEW_BRUSH, 0).out == out + DrawRows(basis, grid, brush, row).out
      {
        var before := if basis.Some? then Some(basis.value.cells[row]) else None;
        ghost var here := DrawRow(before, grid.cells[row], brush, row);
        ghost var rest := DrawRows(basis, grid, here.brush, row + 1);
        assert out + (here.out + rest.out) == (out + here.out) + rest.out;
        if before != Some(grid.cells[row]) {
          var after, commands := EmitLine(before, grid.cells[row], brush.(repaint := false), row);
          brush, out := after, out + commands;
        } else {
          assert out + here.out == out;
        }
        row := row + 1;
      }
      assert out + DrawRows(basis, grid, brush, row).out == out;
      out := out + [Sgr(Reset), Move(grid.cursorRow, grid.cursorCol), Visible(grid.cursorVisible)];
      previous, valid := Some(grid), true;
    }
  }
}
