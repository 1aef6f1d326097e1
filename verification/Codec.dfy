/** The cell-plane wire form (src/codec.c): what the encoder chooses to send,
the bytes it becomes, and what the decoder makes of any bytes at all. */
module Codec {
  import opened Bytes
  import opened Screen

  /** A run of cells that share a style; its length is the number of texts. */
  datatype Run = Run(col: nat, style: Style, texts: seq<seq<nat>>)

  datatype Patch = Patch(row: nat, runs: seq<Run>)

  const MAGIC: seq<Byte> := [0x4b, 0x4d, 0x58, 0x31]

  // ---- bytes ---------------------------------------------------------------

  function PutColor(color: Color): seq<Byte> {
    [color.kind, color.r, color.g, color.b]
  }

  function PutCodes(codes: seq<nat>): seq<Byte> {
    if codes == [] then [] else PutVarint(codes[0]) + PutCodes(codes[1..])
  }

  function PutTexts(texts: seq<seq<nat>>): seq<Byte> {
    if texts == [] then []
    else (PutVarint(|texts[0]|) + PutCodes(texts[0])) + PutTexts(texts[1..])
  }

  function PutStyle(style: Style): seq<Byte> {
    PutVarint(style.attrs) + ([style.underline, style.width] + PutColor(style.fg) + PutColor(style.bg))
  }

  function PutRun(run: Run): seq<Byte> {
    PutVarint(run.col) + (PutVarint(|run.texts|) + (PutStyle(run.style) + PutTexts(run.texts)))
  }

  function PutRuns(runs: seq<Run>): seq<Byte> {
    if runs == [] then [] else PutRun(runs[0]) + PutRuns(runs[1..])
  }

  function PutPatch(patch: Patch): seq<Byte> {
    PutVarint(patch.row) + (PutVarint(|patch.runs|) + PutRuns(patch.runs))
  }

  function PutPatches(patches: seq<Patch>): seq<Byte> {
    if patches == [] then [] else PutPatch(patches[0]) + PutPatches(patches[1..])
  }

  function PutHeader(grid: Grid): seq<Byte> {
    MAGIC + PutVarint(grid.rows) + PutVarint(grid.cols) + PutVarint(grid.cursorRow) +
    PutVarint(grid.cursorCol) + [if grid.cursorVisible then 1 else 0]
  }

  function PutMessage(grid: Grid, patches: seq<Patch>): seq<Byte> {
    PutHeader(grid) + (PutVarint(|patches|) + PutPatches(patches))
  }

  // ---- what the encoder chooses ---------------------------------------------

  /** cell_char_count: characters before the first NUL. */
  function CharCount(chars: seq<nat>): (count: nat)
    ensures count <= |chars|
    ensures forall k :: 0 <= k < count ==> chars[k] != 0
    ensures count < |chars| ==> chars[count] == 0
  {
    if chars == [] || chars[0] == 0 then 0 else 1 + CharCount(chars[1..])
  }

  function TextOf(cell: Cell): seq<nat> {
    cell.chars[..CharCount(cell.chars)]
  }

  function TextsOf(cells: seq<Cell>): (texts: seq<seq<nat>>)
    ensures |texts| == |cells|
    ensures forall k :: 0 <= k < |cells| ==> texts[k] == TextOf(cells[k])
  {
    if cells == [] then [] else [TextOf(cells[0])] + TextsOf(cells[1..])
  }

  /** A cell the receiver is known to hold already. */
  predicate Kept(before: Option<seq<Cell>>, cells: seq<Cell>, col: nat)
    requires col < |cells| && (before.Some? ==> |before.value| == |cells|)
  {
    before.Some? && before.value[col] == cells[col]
  }

  function RunEnd(before: Option<seq<Cell>>, cells: seq<Cell>, first: nat, end: nat): (stop: nat)
    requires first < end <= |cells| && (before.Some? ==> |before.value| == |cells|)
    ensures end <= stop <= |cells|
    decreases |cells| - end
  {
    if end < |cells| && cells[end].style == cells[first].style && !Kept(before, cells, end)
    then RunEnd(before, cells, first, end + 1) else end
  }

  function RunAt(cells: seq<Cell>, col: nat, end: nat): Run
    requires col < end <= |cells|
  {
    Run(col, cells[col].style, TextsOf(cells[col..end]))
  }

  function RunsFrom(before: Option<seq<Cell>>, cells: seq<Cell>, col: nat): (runs: seq<Run>)
    requires col <= |cells| && (before.Some? ==> |before.value| == |cells|)
    ensures |runs| <= |cells| - col
    decreases |cells| - col
  {
    if col == |cells| then []
    else if Kept(before, cells, col) then RunsFrom(before, cells, col + 1)
    else
      var end := RunEnd(before, cells, col, col + 1);
      [RunAt(cells, col, end)] + RunsFrom(before, cells, end)
  }

  /** Every `stride`-th cell from `at` that differs, and how many were looked at. */
  function Sampled(before: seq<Cell>, cells: seq<Cell>, at: nat, stride: nat): (count: (nat, nat))
    requires |before| == |cells| && stride > 0
    decreases |cells| - at
  {
    if at >= |cells| then (0, 0)
    else
      var rest := Sampled(before, cells, at + stride, stride);
      ((if before[at] == cells[at] then 0 else 1) + rest.0, 1 + rest.1)
  }

  function Stride(cols: nat): (stride: nat)
    ensures stride > 0
  {
    if cols / 8 == 0 then 1 else cols / 8
  }

  /** A row that looks mostly rewritten is sent whole. */
  function Base(before: Option<seq<Cell>>, cells: seq<Cell>): (base: Option<seq<Cell>>)
    requires before.Some? ==> |before.value| == |cells|
    ensures base == None || base == before
  {
    if before.None? then None
    else
      var (changed, sampled) := Sampled(before.value, cells, 0, Stride(|cells|));
      if changed * 2 >= sampled then None else before
  }

  function RowPatch(before: Option<seq<Cell>>, cells: seq<Cell>, row: nat): Patch
    requires before.Some? ==> |before.value| == |cells|
  {
    Patch(row, RunsFrom(Base(before, cells), cells, 0))
  }

  /** The baseline a row may be diffed against, if any. */
  function RowBase(previous: Option<Grid>, current: Grid, forced: bool, row: nat): (base: Option<seq<Cell>>)
    requires row < |current.cells|
    ensures base.Some? ==> |base.value| == |current.cells[row]|
  {
    if previous.Some? && SameSize(previous.value, current) && !forced &&
       row < |previous.value.cells| && |previous.value.cells[row]| == |current.cells[row]|
    then Some(previous.value.cells[row]) else None
  }

  predicate RowChanged(previous: Option<Grid>, current: Grid, row: nat)
    requires row < |current.cells|
  {
    previous.None? || !SameSize(previous.value, current) ||
    row >= |previous.value.cells| || previous.value.cells[row] != current.cells[row]
  }

  function PatchesFrom(previous: Option<Grid>, current: Grid, mask: seq<bool>, row: nat): (patches: seq<Patch>)
    requires row <= |current.cells| == |mask|
    ensures |patches| <= |current.cells| - row
    decreases |current.cells| - row
  {
    if row == |current.cells| then []
    else if !mask[row] && !RowChanged(previous, current, row) then PatchesFrom(previous, current, mask, row + 1)
    else [RowPatch(RowBase(previous, current, mask[row], row), current.cells[row], row)] +
         PatchesFrom(previous, current, mask, row + 1)
  }

  /** kmx_cells_encode_rows; an absent mask is one that forces nothing. */
  function EncodeRows(previous: Option<Grid>, current: Grid, mask: seq<bool>): seq<Byte>
    requires |current.cells| == |mask|
  {
    PutMessage(current, PatchesFrom(previous, current, mask, 0))
  }

  // ---- the decoder -------------------------------------------------------------

  datatype Field = Field(value: nat, next: nat) | Bad(status: Status)

  function ReadBounded(data: seq<Byte>, at: nat, limit: nat): (field: Field)
    ensures field.Field? ==> at < field.next <= |data| && field.value <= limit
    ensures field.Bad? ==> field.status == Truncated || field.status == Protocol
  {
    match ReadVarint(data, at)
    case Scanned(value, next) => if value <= limit then Field(value, next) else Bad(Protocol)
    case Short => Bad(Truncated)
    case Overlong => Bad(Protocol)
  }

  function ReadByte(data: seq<Byte>, at: nat): (field: Field)
    ensures field.Field? ==> at < field.next <= |data| && field.value < 256
    ensures field.Bad? ==> field.status == Truncated
  {
    if at < |data| then Field(data[at], at + 1) else Bad(Truncated)
  }

  datatype ColorField = ColorField(color: Color, next: nat) | BadColor(status: Status)

  function ReadColor(data: seq<Byte>, at: nat): (field: ColorField)
    ensures field.ColorField? ==> at < field.next <= |data| && field.color.kind <= 2
    ensures field.BadColor? ==> field.status != Ok
  {
    if at + 4 > |data| then BadColor(Truncated)
    else if data[at] > 2 then BadColor(Protocol)
    else ColorField(Color(data[at], data[at + 1], data[at + 2], data[at + 3]), at + 4)
  }

  datatype StyleField = StyleField(style: Style, next: nat) | BadStyle(status: Status)

  function ReadStyle(data: seq<Byte>, at: nat): (field: StyleField)
    ensures field.StyleField? ==> at < field.next <= |data| && StyleInRange(field.style)
    ensures field.BadStyle? ==> field.status != Ok
  {
    match ReadBounded(data, at, 0xffff)
    case Bad(status) => BadStyle(status)
    case Field(attrs, at1) =>
      match ReadByte(data, at1)
      case Bad(status) => BadStyle(status)
      case Field(underline, at2) =>
        match ReadByte(data, at2)
        case Bad(status) => BadStyle(status)
        case Field(width, at3) =>
          match ReadColor(data, at3)
          case BadColor(status) => BadStyle(status)
          case ColorField(fg, at4) =>
            match ReadColor(data, at4)
            case BadColor(status) => BadStyle(status)
            case ColorField(bg, at5) => StyleField(Style(attrs, width, underline, fg, bg), at5)
  }

  /** Each reader reports what it has written so far even when it fails: the
  source decodes into the live grid. */
  datatype CharsRead = CharsRead(chars: seq<nat>, status: Status, next: nat)

  function ReadCodes(data: seq<Byte>, at: nat, chars: seq<nat>, slot: nat, count: nat): (r: CharsRead)
    requires slot <= count <= |chars|
    ensures |r.chars| == |chars|
    ensures r.status == Ok ==> at <= r.next && (at <= |data| ==> r.next <= |data|)
    decreases count - slot
  {
    if slot == count then CharsRead(chars, Ok, at)
    else match ReadBounded(data, at, TWO64)
      case Bad(status) => CharsRead(chars, status, at)
      case Field(code, next) =>
        if code > MAX_CODE_POINT then CharsRead(chars, Protocol, at)
        else ReadCodes(data, next, chars[slot := code], slot + 1, count)
  }

  datatype RowRead = RowRead(row: seq<Cell>, status: Status, next: nat)

  function ReadCells(data: seq<Byte>, at: nat, row: seq<Cell>, col: nat, left: nat, style: Style): (r: RowRead)
    requires col + left <= |row|
    ensures |r.row| == |row|
    ensures r.status == Ok ==> at <= r.next && (at <= |data| ==> r.next <= |data|)
    decreases left
  {
    if left == 0 then RowRead(row, Ok, at)
    else match ReadBounded(data, at, MAX_CHARS)
      case Bad(status) => RowRead(row, status, at)
      case Field(count, next) =>
        var codes := ReadCodes(data, next, NO_CHARS, 0, count);
        var written := row[col := Cell(codes.chars, style)];
        if codes.status != Ok then RowRead(written, codes.status, at)
        else ReadCells(data, codes.next, written, col + 1, left - 1, style)
  }

  function ReadRun(data: seq<Byte>, at: nat, row: seq<Cell>): (r: RowRead)
    requires |row| > 0
    ensures |r.row| == |row|
    ensures r.status == Ok ==> at < r.next <= |data|
  {
    match ReadBounded(data, at, |row| - 1)
    case Bad(status) => RowRead(row, status, at)
    case Field(col, at1) =>
      match ReadBounded(data, at1, |row| - col)
      case Bad(status) => RowRead(row, status, at)
      case Field(length, at2) =>
        match ReadStyle(data, at2)
        case BadStyle(status) => RowRead(row, status, at)
        case StyleField(style, at3) =>
          if length == 0 then RowRead(row, Protocol, at)
          else ReadCells(data, at3, row, col, length, style)
  }

  function ReadRuns(data: seq<Byte>, at: nat, row: seq<Cell>, left: nat): (r: RowRead)
    requires |row| > 0
    ensures |r.row| == |row|
    ensures r.status == Ok ==> at <= r.next && (at <= |data| ==> r.next <= |data|)
    decreases left
  {
    if left == 0 then RowRead(row, Ok, at)
    else
      var run := ReadRun(data, at, row);
      if run.status != Ok then run else ReadRuns(data, run.next, run.row, left - 1)
  }

  datatype CellsRead = CellsRead(cells: seq<seq<Cell>>, status: Status, next: nat)

  function ReadPatches(data: seq<Byte>, at: nat, cells: seq<seq<Cell>>, cols: nat, left: nat): (r: CellsRead)
    requires |cells| > 0 && cols > 0 && Rectangular(cells, |cells|, cols)
    ensures Rectangular(r.cells, |cells|, cols)
    ensures r.status == Ok ==> at <= r.next && (at <= |data| ==> r.next <= |data|)
    decreases left
  {
    if left == 0 then CellsRead(cells, Ok, at)
    else match ReadBounded(data, at, |cells| - 1)
      case Bad(status) => CellsRead(cells, status, at)
      case Field(row, at1) =>
        match ReadBounded(data, at1, cols)
        case Bad(status) => CellsRead(cells, status, at)
        case Field(count, at2) =>
          var runs := ReadRuns(data, at2, cells[row], count);
          var written := cells[row := runs.row];
          if runs.status != Ok then CellsRead(written, runs.status, at)
          else ReadPatches(data, runs.next, written, cols, left - 1)
  }

  datatype Header = Header(rows: nat, cols: nat, cursorRow: nat, cursorCol: nat, visible: bool, next: nat)
                  | BadHeader(status: Status)

  function ReadHeader(data: seq<Byte>): (h: Header)
    ensures h.Header? ==>
              4 < h.next <= |data| && h.cursorRow < h.rows <= MAX_DIMENSION && h.cursorCol < h.cols <= MAX_DIMENSION
    ensures h.BadHeader? ==> h.status != Ok
  {
    if |data| < 4 then BadHeader(Truncated)
    else if data[..4] != MAGIC then BadHeader(Protocol)
    else match ReadBounded(data, 4, MAX_DIMENSION)
      case Bad(status) => BadHeader(status)
      case Field(rows, at1) =>
        match ReadBounded(data, at1, MAX_DIMENSION)
        case Bad(status) => BadHeader(status)
        case Field(cols, at2) =>
          if rows == 0 || cols == 0 then BadHeader(Protocol)
          else match ReadBounded(data, at2, TWO64)
            case Bad(status) => BadHeader(status)
            case Field(cursorRow, at3) =>
              match ReadBounded(data, at3, TWO64)
              case Bad(status) => BadHeader(status)
              case Field(cursorCol, at4) =>
                match ReadByte(data, at4)
                case Bad(status) => BadHeader(status)
                case Field(flags, at5) =>
                  if cursorRow >= rows || cursorCol >= cols then BadHeader(Protocol)
                  else Header(rows, cols, cursorRow, cursorCol, flags % 2 == 1, at5)
  }

  datatype Decoded = Decoded(grid: Grid, status: Status)

  /** kmx_cells_apply on any bytes: the grid afterwards and the verdict. */
  function Decode(grid: Grid, data: seq<Byte>): (d: Decoded)
    requires Rectangular(grid.cells, grid.rows, grid.cols)
    ensures Rectangular(d.grid.cells, d.grid.rows, d.grid.cols)
  {
    match ReadHeader(data)
    case BadHeader(status) => Decoded(grid, status)
    case Header(rows, cols, cursorRow, cursorCol, visible, at) =>
      if !ValidDimensions(rows, cols) then Decoded(grid, Invalid)
      else
        var sized := Resized(grid, rows, cols);
        match ReadBounded(data, at, rows)
        case Bad(status) => Decoded(sized, status)
        case Field(changed, next) =>
          var r := ReadPatches(data, next, sized.cells, cols, changed);
          if r.status != Ok then Decoded(sized.(cells := r.cells), r.status)
          else Decoded(Grid(rows, cols, cursorRow, cursorCol, visible, r.cells),
                       if r.next == |data| then Ok else Protocol)
  }
}
