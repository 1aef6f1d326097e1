/** The layout plane (src/layout.c): arranging panes, its wire form, and the
composited screen. */
module Layout {
  import opened Bytes
  import opened Screen

  const MAX_PANES: nat := 32
  const TITLE_MAX: nat := 64
  const TWO32: nat := 0x1_0000_0000
  const REVERSE: nat := 0x0010
  const BOLD: nat := 0x0001

  /** `title` is the whole character array; `TitleText` is what it says. */
  datatype Pane = Pane(id: nat, x: nat, y: nat, rows: nat, cols: nat, focused: bool, title: seq<Byte>)

  datatype Layout = Layout(rows: nat, cols: nat, generation: nat, count: nat, panes: seq<Pane>)

  /** strnlen of a title. */
  function TextLength(title: seq<Byte>): (n: nat)
    ensures n <= |title| && (n < |title| ==> title[n] == 0) && forall k :: 0 <= k < n ==> title[k] != 0
  {
    if title == [] || title[0] == 0 then 0 else 1 + TextLength(title[1..])
  }

  function TitleText(title: seq<Byte>): seq<Byte> {
    title[..TextLength(title)]
  }

  ghost predicate Formed(l: Layout) {
    && |l.panes| == MAX_PANES && l.count <= MAX_PANES && l.generation < TWO32
    && forall k :: 0 <= k < MAX_PANES ==> l.panes[k].id < TWO32 && |l.panes[k].title| == TITLE_MAX
  }

  // ---- arranging -------------------------------------------------------------------------------

  /** The spans of `count` panes with one divider between neighbours, as the loop
  computes them: the floor of what is left, again and again. */
  function Spans(length: nat, count: nat): (spans: seq<nat>)
    requires count > 0 ==> length >= count - 1
    ensures |spans| == count
    decreases count
  {
    if count == 0 then []
    else
      var span := (length - (count - 1)) / count;
      SpanFits(length - (count - 1), count);
      [span] + (if count == 1 then [] else Spans(length - span - 1, count - 1))
  }

  lemma SpanFits(available: nat, count: nat)
    requires count > 0
    ensures count * (available / count) <= available < count * (available / count + 1)
    ensures available / count <= available
  {
    Product(count, available / count);
  }

  lemma Product(count: nat, span: nat)
    requires count > 0
    ensures span <= count * span && count * (span + 1) == count * span + count
  {
  }

  /** Where span `k` starts. */
  function Offset(spans: seq<nat>, k: nat): nat
    requires k <= |spans|
  {
    if k == 0 then 0 else Offset(spans, k - 1) + spans[k - 1] + 1
  }

  /** Pane `k` at `used` with `span`; its title takes the row above it when there
  is more than one pane. */
  function Positioned(l: Layout, count: nat, vertical: bool, k: nat, used: nat, span: nat): Pane
    requires k < count <= MAX_PANES == |l.panes|
  {
    var title := if count > 1 then 1 else 0;
    var rows := (if vertical then span else l.rows) - title;
    var cols := if vertical then l.cols else span;
    l.panes[k].(id := if l.panes[k].id != 0 then l.panes[k].id else k + 1,
                x := if vertical then 0 else used, y := (if vertical then used else 0) + title,
                rows := if rows < 1 then 1 else rows, cols := if cols < 1 then 1 else cols, focused := k == 0)
  }

  function Placed(l: Layout, count: nat, vertical: bool, k: nat): Pane
    requires k < count <= MAX_PANES == |l.panes|
    requires (if vertical then l.rows else l.cols) >= count - 1
  {
    var spans := Spans(if vertical then l.rows else l.cols, count);
    Positioned(l, count, vertical, k, Offset(spans, k), spans[k])
  }

  predicate Crowded(l: Layout, count: nat, vertical: bool) {
    if vertical then l.rows - (count - 1) < count * 2 else l.cols - (count - 1) < count * 4
  }

  datatype Arrangement = Arrangement(layout: Layout, status: Status)

  /** kmx_layout_arrange. */
  function Arranged(l: Layout, count: nat, vertical: bool): Arrangement
    requires |l.panes| == MAX_PANES
  {
    if count == 0 || count > MAX_PANES then Arrangement(l, Invalid)
    else if Crowded(l, count, vertical) then Arrangement(l, Limit)
    else
      Arrangement(l.(count := count, generation := (l.generation + 1) % TWO32,
                     panes := seq(MAX_PANES, k requires 0 <= k < MAX_PANES =>
                       if k < count then Placed(l, count, vertical, k) else l.panes[k])), Ok)
  }

  /** The loop, with its running `used`. */
  method PlacePanes(l: Layout, count: nat, vertical: bool) returns (panes: seq<Pane>)
    requires Formed(l) && 0 < count <= MAX_PANES && (if vertical then l.rows else l.cols) >= count - 1
    ensures |panes| == MAX_PANES
    ensures forall k :: 0 <= k < MAX_PANES ==> panes[k] == if k < count then Placed(l, count, vertical, k)
              else l.panes[k]
  {
    hide Spans, Placed, Offset;
    var length := if vertical then l.rows else l.cols;
    panes := l.panes;
    ghost var spans := Spans(length, count);
    var used, index := 0, 0;
    OffsetNext(spans, 0);
    assert spans[0..] == spans;
    while index < count
      invariant index <= count && |panes| == MAX_PANES
      invariant used == Offset(spans, index)
      invariant index < count ==> used <= length && length - used >= count - index - 1
      invariant index < count ==> spans[index..] == Spans(length - used, count - index)
      invariant forall k :: 0 <= k < MAX_PANES ==> panes[k] == if k < index then Placed(l, count, vertical, k)
                  else l.panes[k]
    {
      var remaining := count - index;
      var span := (length - used - (remaining - 1)) / remaining;
      SpanStep(length - used, remaining);
      assert span == spans[index..][0] == spans[index];
      var pane := Positioned(l, count, vertical, index, used, span);
      PlacedIs(l, count, vertical, index, spans);
      OffsetNext(spans, index);
      panes := panes[index := pane];
      assert spans[index..][1..] == spans[index + 1..];
      used := used + span + 1;
      index := index + 1;
    }
  }

  method ArrangeLayout(l: Layout, count: nat, vertical: bool) returns (after: Layout, status: Status)
    requires Formed(l)
    ensures Arrangement(after, status) == Arranged(l, count, vertical)
  {
    hide Placed;
    if count == 0 || count > MAX_PANES { return l, Invalid; }
    if vertical {
      var available := l.rows - (count - 1);
      if available < count * 2 { return l, Limit; }
    } else {
      var available := l.cols - (count - 1);
      if available < count * 4 { return l, Limit; }
    }
    var panes := PlacePanes(l, count, vertical);
    after := l.(count := count, generation := (l.generation + 1) % TWO32, panes := panes);
    assert after.panes == Arranged(l, count, vertical).layout.panes;
    status := Ok;
  }

  lemma OffsetNext(spans: seq<nat>, k: nat)
    requires k <= |spans|
    ensures Offset(spans, 0) == 0 && (k < |spans| ==> Offset(spans, k + 1) == Offset(spans, k) + spans[k] + 1)
  {
  }

  lemma SpanStep(length: nat, count: nat)
    requires count > 0 && length >= count - 1
    ensures var span := (length - (count - 1)) / count;
            && Spans(length, count)[0] == span && span <= length - (count - 1)
            && (count > 1 ==>
                  length - span - 1 >= count - 2 && Spans(length, count)[1..] == Spans(length - span - 1, count - 1))
  {
    SpanFits(length - (count - 1), count);
  }

  lemma PlacedIs(l: Layout, count: nat, vertical: bool, k: nat, spans: seq<nat>)
    requires k < count <= MAX_PANES == |l.panes| && (if vertical then l.rows else l.cols) >= count - 1
    requires spans == Spans(if vertical then l.rows else l.cols, count)
    ensures Placed(l, count, vertical, k) == Positioned(l, count, vertical, k, Offset(spans, k), spans[k])
  {
  }

  /** Every span lies between two neighbouring numbers whenever their multiples
  enclose what is available. */
  lemma {:induction false} SpansBetween(length: nat, count: nat, low: nat, high: nat)
    requires count > 0 && length >= count - 1 && low <= high <= low + 1
    requires count * low <= length - (count - 1) <= count * high
    ensures forall k :: 0 <= k < count ==> low <= Spans(length, count)[k] <= high
    decreases count
  {
    var available := length - (count - 1);
    var span := available / count;
    SpanFits(available, count);
    SpanBetween(available, count, low, high);
    if count > 1 {
      RestBetween(available, count, low, high);
      SpansBetween(length - span - 1, count - 1, low, high);
    }
  }

  lemma SpanBetween(available: nat, count: nat, low: nat, high: nat)
    requires count > 0 && count * low <= available <= count * high
    ensures low <= available / count <= high
  {
    SpanFits(available, count);
    if available / count < low { Scaled(count, available / count + 1, low); }
    if available / count > high { Scaled(count, high + 1, available / count); Product(count, high); }
  }

  lemma Scaled(count: nat, a: nat, b: nat)
    requires a <= b
    ensures count * a <= count * b
  {
  }

  lemma RestBetween(available: nat, count: nat, low: nat, high: nat)
    requires count > 1 && low <= high <= low + 1 && count * low <= available <= count * high
    ensures available >= available / count
    ensures (count - 1) * low <= available - available / count <= (count - 1) * high
  {
    var span := available / count;
    SpanFits(available, count);
    SpanBetween(available, count, low, high);
    assert (count - 1) * low == count * low - low;
    assert (count - 1) * high == count * high - high;
    if span > low { assert span == high; }
  }

  lemma {:induction false} SpansTotal(length: nat, count: nat)
    requires count > 0 && length >= count - 1
    ensures Offset(Spans(length, count), count) == length + 1
    decreases count
  {
    hide Spans, Offset;
    SpanStep(length, count);
    var span := (length - (count - 1)) / count;
    var spans := Spans(length, count);
    OffsetNext(spans, 0);
    if count > 1 {
      var rest := Spans(length - span - 1, count - 1);
      SpansTotal(length - span - 1, count - 1);
      assert spans == [spans[0]] + spans[1..];
      OffsetShift(spans, rest, span, count - 1);
    } else {
      assert span == length;
    }
  }

  lemma {:induction false} SpansOrdered(length: nat, count: nat, j: nat, k: nat)
    requires length >= count - 1 && j <= k < count
    ensures Spans(length, count)[j] <= Spans(length, count)[k] <= Spans(length, count)[j] + 1
    decreases count
  {
    hide Spans;
    var available := length - (count - 1);
    var span := available / count;
    SpanStep(length, count);
    if j == 0 {
      SpanFits(available, count);
      SpansBetween(length, count, span, span + 1);
    } else {
      SpansOrdered(length - span - 1, count - 1, j - 1, k - 1);
      assert Spans(length, count)[j] == Spans(length, count)[1..][j - 1];
      assert Spans(length, count)[k] == Spans(length, count)[1..][k - 1];
    }
  }

  /** The spans fill the screen exactly, differ by at most one, and the larger ones
  come last. */
  lemma SpansFill(length: nat, count: nat)
    requires count > 0 && length >= count - 1
    ensures var spans := Spans(length, count);
            && Offset(spans, count) == length + 1
            && (forall j, k :: 0 <= j <= k < count ==> spans[j] <= spans[k] <= spans[j] + 1)
  {
    SpansTotal(length, count);
    forall j, k | 0 <= j <= k < count
      ensures Spans(length, count)[j] <= Spans(length, count)[k] <= Spans(length, count)[j] + 1
    {
      SpansOrdered(length, count, j, k);
    }
  }

  lemma {:induction false} OffsetShift(spans: seq<nat>, rest: seq<nat>, first: nat, k: nat)
    requires spans == [first] + rest && k <= |rest|
    ensures Offset(spans, k + 1) == first + 1 + Offset(rest, k)
  {
    if k > 0 { OffsetShift(spans, rest, first, k - 1); }
  }

  lemma {:induction false} OffsetsRise(spans: seq<nat>, j: nat, k: nat)
    requires j < k <= |spans|
    ensures Offset(spans, j) + spans[j] + 1 <= Offset(spans, k)
  {
    if j < k - 1 { OffsetsRise(spans, j, k - 1); }
  }

  // ---- an arrangement tiles the screen -----------------------------------------------------------

  datatype Part = PaneArea(k: nat) | TitleBar(k: nat) | Divider(k: nat)

  /** Which positions each part of an arrangement occupies. */
  predicate Holds(l: Layout, vertical: bool, part: Part, row: nat, col: nat)
    requires |l.panes| == MAX_PANES && l.count <= MAX_PANES
  {
    part.k < l.count &&
    var pane := l.panes[part.k];
    match part
    case PaneArea(_) => pane.y <= row < pane.y + pane.rows && pane.x <= col < pane.x + pane.cols
    case TitleBar(_) => l.count > 1 && row + 1 == pane.y && pane.x <= col < pane.x + pane.cols
    case Divider(k) =>
      k + 1 < l.count && row < l.rows && col < l.cols &&
      (if vertical then row == pane.y + pane.rows else col == pane.x + pane.cols)
  }

  /** Room across the split: a column, or a row below any title. */
  predicate Roomy(l: Layout, count: nat, vertical: bool) {
    if vertical then l.cols >= 1 else l.rows >= (if count > 1 then 2 else 1)
  }

  lemma SpansAtLeast(length: nat, count: nat, least: nat, k: nat)
    requires k < count && length >= count - 1 && length - (count - 1) >= count * least
    ensures Spans(length, count)[k] >= least
  {
    hide Spans;
    var available := length - (count - 1);
    SpanStep(length, count);
    SpanFits(available, count);
    if available / count < least { Scaled(count, available / count + 1, least); }
    SpansOrdered(length, count, 0, k);
  }

  lemma SpanEnds(length: nat, count: nat, k: nat)
    requires k < count && length >= count - 1
    ensures var end := Offset(Spans(length, count), k) + Spans(length, count)[k];
            end <= length && (end == length <==> k == count - 1)
  {
    hide Spans, Offset;
    var spans := Spans(length, count);
    SpansTotal(length, count);
    OffsetNext(spans, k);
    OffsetNext(spans, count - 1);
    if k < count - 1 { OffsetsRise(spans, k, count - 1); }
  }

  /** What the pane rectangles are, once nothing had to be clamped. */
  lemma PaneShape(l: Layout, count: nat, vertical: bool, k: nat)
    requires |l.panes| == MAX_PANES && Arranged(l, count, vertical).status == Ok && k < count
    ensures (if vertical then l.rows else l.cols) >= count - 1
    ensures var pane := Arranged(l, count, vertical).layout.panes[k];
            var (spans, title) := (Spans(if vertical then l.rows else l.cols, count), if count > 1 then 1 else 0);
            var end := Offset(spans, k) + spans[k];
            && end <= (if vertical then l.rows else l.cols) &&
               (end == (if vertical then l.rows else l.cols) <==> k == count - 1)
            && spans[k] >= 2
            && (if vertical then
                  pane.x == 0 && pane.cols == Max(l.cols, 1) && pane.y == Offset(spans, k) + title &&
                    pane.rows == spans[k] - title
                else
                  pane.x == Offset(spans, k) && pane.cols == spans[k] && pane.y == title &&
                    pane.rows == Max(l.rows - title, 1))
  {
    hide Spans, Offset;
    var length := if vertical then l.rows else l.cols;
    SpansAtLeast(length, count, 2, k);
    SpanEnds(length, count, k);
    PlacedIs(l, count, vertical, k, Spans(length, count));
  }

  lemma OffsetsApart(spans: seq<nat>, j: nat, k: nat)
    requires j < |spans| && k < |spans|
    ensures j < k ==> Offset(spans, j) + spans[j] + 1 <= Offset(spans, k)
    ensures k < j ==> Offset(spans, k) + spans[k] + 1 <= Offset(spans, j)
  {
    if j < k { OffsetsRise(spans, j, k); }
    if k < j { OffsetsRise(spans, k, j); }
  }

  /** Panes, titles and dividers are pairwise disjoint. */
  lemma PartsDisjoint(l: Layout, count: nat, vertical: bool, p: Part, q: Part, row: nat, col: nat)
    requires |l.panes| == MAX_PANES && Arranged(l, count, vertical).status == Ok && Roomy(l, count, vertical)
    requires Holds(Arranged(l, count, vertical).layout, vertical, p, row, col)
    requires Holds(Arranged(l, count, vertical).layout, vertical, q, row, col)
    ensures p == q
  {
    hide Spans, Offset, Arranged;
    ArrangedCount(l, count, vertical);
    PaneShape(l, count, vertical, p.k);
    PaneShape(l, count, vertical, q.k);
    OffsetsApart(Spans(if vertical then l.rows else l.cols, count), p.k, q.k);
  }

  lemma ArrangedCount(l: Layout, count: nat, vertical: bool)
    requires |l.panes| == MAX_PANES && Arranged(l, count, vertical).status == Ok
    ensures var after := Arranged(l, count, vertical).layout;
            after.count == count <= MAX_PANES && count > 0 && after.rows == l.rows && after.cols == l.cols &&
              |after.panes| == MAX_PANES
  {
  }

  /** The span, or the divider after it, that covers a position along the split. */
  lemma {:induction false} Located(spans: seq<nat>, n: nat, position: nat) returns (k: nat)
    requires n <= |spans| && position < Offset(spans, n)
    ensures k < n && Offset(spans, k) <= position <= Offset(spans, k) + spans[k]
  {
    if position >= Offset(spans, n - 1) { k := n - 1; } else { k := Located(spans, n - 1, position); }
  }

  /** And they leave no gap. */
  lemma PartsCover(l: Layout, count: nat, vertical: bool, row: nat, col: nat) returns (part: Part)
    requires |l.panes| == MAX_PANES && Arranged(l, count, vertical).status == Ok && Roomy(l, count, vertical)
    requires row < l.rows && col < l.cols
    ensures Holds(Arranged(l, count, vertical).layout, vertical, part, row, col)
  {
    hide Spans, Offset, Arranged;
    ArrangedCount(l, count, vertical);
    var length := if vertical then l.rows else l.cols;
    PaneShape(l, count, vertical, 0);
    var spans := Spans(length, count);
    SpansTotal(length, count);
    var position := if vertical then row else col;
    var k := Located(spans, count, position);
    PaneShape(l, count, vertical, k);
    if position == Offset(spans, k) + spans[k] {
      part := Divider(k);
    } else if count > 1 && (if vertical then row == Offset(spans, k) else row == 0) {
      part := TitleBar(k);
    } else {
      part := PaneArea(k);
    }
  }

  ghost predicate Inside(l: Layout, pane: Pane) {
    0 < pane.rows && pane.y + pane.rows <= l.rows && 0 < pane.cols && pane.x + pane.cols <= l.cols
  }

  /** Every pane lies on the screen exactly when there is room across the split:
  side by side under titles, one row is too few. */
  lemma PanesInsideIff(l: Layout, count: nat, vertical: bool)
    requires |l.panes| == MAX_PANES && Arranged(l, count, vertical).status == Ok
    ensures var after := Arranged(l, count, vertical).layout;
            (forall k :: 0 <= k < count ==> Inside(after, after.panes[k])) <==> Roomy(l, count, vertical)
  {
    hide Spans, Offset, Arranged;
    ArrangedCount(l, count, vertical);
    var after := Arranged(l, count, vertical).layout;
    PaneShape(l, count, vertical, 0);
    forall k | 0 <= k < count ensures Roomy(l, count, vertical) ==> Inside(after, after.panes[k]) {
      PaneShape(l, count, vertical, k);
    }
  }

  /** Exactly when panes are arranged: one to thirty-two of them, at least two rows each
  when stacked and four columns each side by side, dividers apart. A refusal changes
  nothing. An arrangement is a new generation with only its first pane focused; panes
  keep their titles, and their numbers if they had one. */
  lemma ArrangesIff(l: Layout, count: nat, vertical: bool)
    requires |l.panes| == MAX_PANES
    ensures var a := Arranged(l, count, vertical);
            && (a.status == Invalid <==> count == 0 || count > 32)
            && (a.status == Limit <==>
                  1 <= count <= 32 && (if vertical then l.rows < 3 * count - 1 else l.cols < 5 * count - 1))
            && (a.status == Ok || a.status == Invalid || a.status == Limit)
            && (a.status != Ok ==> a.layout == l)
            && (a.status == Ok ==>
                  && a.layout.rows == l.rows && a.layout.cols == l.cols && a.layout.count == count
                  && a.layout.generation == (l.generation + 1) % 0x1_0000_0000 && |a.layout.panes| == 32
                  && forall k :: 0 <= k < 32 ==>
                       var (pane, was) := (a.layout.panes[k], l.panes[k]);
                       && pane.title == was.title
                       && (k < count ==>
                             && (pane.focused <==> k == 0)
                             && pane.id == (if was.id != 0 then was.id else k + 1))
                       && (k >= count ==> pane == was))
  {
    hide Spans, Offset;
  }

  /** Stacked panes follow one another down the screen at its full width, panes side
  by side from left to right at its full height, a row given up for their titles. */
  lemma PanesInOrder(l: Layout, count: nat, vertical: bool, j: nat, k: nat)
    requires |l.panes| == MAX_PANES && Arranged(l, count, vertical).status == Ok && Roomy(l, count, vertical)
    requires j < k < count
    ensures var (p, q) := (Arranged(l, count, vertical).layout.panes[j], Arranged(l, count, vertical).layout.panes[k]);
            if vertical then
              && p.x == 0 == q.x && p.cols == l.cols == q.cols && p.y + p.rows + 2 <= q.y
              && (k == j + 1 ==> p.y + p.rows + 2 == q.y)
            else
              && p.y == 1 == q.y && p.rows + 1 == l.rows == q.rows + 1 && p.x + p.cols + 1 <= q.x
              && (k == j + 1 ==> p.x + p.cols + 1 == q.x)
  {
    hide Spans, Offset, Arranged;
    ArrangedCount(l, count, vertical);
    PaneShape(l, count, vertical, j);
    PaneShape(l, count, vertical, k);
    var spans := Spans(if vertical then l.rows else l.cols, count);
    OffsetsApart(spans, j, k);
    if k == j + 1 { OffsetNext(spans, j); }
  }

  /** So what was arranged with room can be sent. */
  lemma ArrangedSendable(l: Layout, count: nat, vertical: bool)
    requires Formed(l) && Arranged(l, count, vertical).status == Ok && Roomy(l, count, vertical)
    requires 0 < l.rows <= MAX_DIMENSION && 0 < l.cols <= MAX_DIMENSION
    ensures Sendable(Arranged(l, count, vertical).layout)
  {
    hide Spans, Offset;
    PanesInsideIff(l, count, vertical);
  }

  // ---- the wire form -------------------------------------------------------------------------------

  function PutPane(pane: Pane): seq<Byte> {
    PutVarint(pane.id) + PutVarint(pane.x) + PutVarint(pane.y) + PutVarint(pane.rows) + PutVarint(pane.cols) +
    [if pane.focused then 1 else 0] + PutVarint(TextLength(pane.title)) + TitleText(pane.title)
  }

  function PutPanes(panes: seq<Pane>): seq<Byte> {
    if panes == [] then [] else PutPane(panes[0]) + PutPanes(panes[1..])
  }

  /** kmx_layout_encode. */
  function Encode(l: Layout): seq<Byte>
    requires l.count <= |l.panes|
  {
    PutVarint(l.rows) + PutVarint(l.cols) + PutVarint(l.generation) + PutVarint(l.count) + PutPanes(l.panes[..l.count])
  }

  datatype Field = Field(value: nat, next: nat) | Bad(status: Status)

  function ReadField(data: seq<Byte>, at: nat, limit: nat): (field: Field)
    ensures if field.Field? then at < field.next <= |data| && field.value <= limit else field.status != Ok
  {
    match ReadVarint(data, at)
    case Short => Bad(Truncated)
    case Overlong => Bad(Protocol)
    case Scanned(value, next) => if value <= limit then Field(value, next) else Bad(Protocol)
  }

  const NO_TITLE: seq<Byte> := seq(TITLE_MAX, _ => 0)
  const EMPTY_PANE := Pane(0, 0, 0, 0, 0, false, NO_TITLE)

  function Padded(text: seq<Byte>): (title: seq<Byte>)
    requires |text| < TITLE_MAX
    ensures |title| == TITLE_MAX
  {
    text + seq(TITLE_MAX - |text|, _ => 0)
  }

  datatype PaneRead = PaneRead(pane: Pane, next: nat) | PaneBad(status: Status)

  function ReadPane(data: seq<Byte>, at: nat, rows: nat, cols: nat): (read: PaneRead)
    requires rows > 0 && cols > 0
    ensures if read.PaneRead? then at < read.next <= |data| && |read.pane.title| == TITLE_MAX else read.status != Ok
  {
    var id := ReadField(data, at, TWO64 - 1);
    if id.Bad? then PaneBad(id.status)
    else
      var x := ReadField(data, id.next, cols - 1);
      if x.Bad? then PaneBad(x.status)
      else
        var y := ReadField(data, x.next, rows - 1);
        if y.Bad? then PaneBad(y.status)
        else
          var high := ReadField(data, y.next, rows);
          if high.Bad? then PaneBad(high.status)
          else
            var wide := ReadField(data, high.next, cols);
            if wide.Bad? then PaneBad(wide.status)
            else if wide.next >= |data| then PaneBad(Truncated)
            else
              var title := ReadField(data, wide.next + 1, TITLE_MAX - 1);
              if title.Bad? then PaneBad(title.status)
              else if |data| - title.next < title.value then PaneBad(Truncated)
              else if x.value + wide.value > cols || y.value + high.value > rows then PaneBad(Protocol)
              else if high.value == 0 || wide.value == 0 then PaneBad(Protocol)
              else PaneRead(Pane(id.value % TWO32, x.value, y.value, high.value, wide.value, data[wide.next] != 0,
                                 Padded(data[title.next..title.next + title.value])),
                            title.next + title.value)
  }

  datatype PanesRead = PanesRead(panes: seq<Pane>, next: nat, status: Status)

  /** The panes read before the first one refused, and why. */
  function ReadPanes(data: seq<Byte>, at: nat, count: nat, rows: nat, cols: nat): (read: PanesRead)
    requires rows > 0 && cols > 0
    ensures |read.panes| <= count
    decreases count
  {
    if count == 0 then PanesRead([], at, Ok)
    else match ReadPane(data, at, rows, cols)
      case PaneBad(status) => PanesRead([], at, status)
      case PaneRead(pane, next) =>
        var rest := ReadPanes(data, next, count - 1, rows, cols);
        PanesRead([pane] + rest.panes, rest.next, rest.status)
  }

  function Filled(panes: seq<Pane>): (filled: seq<Pane>)
    requires |panes| <= MAX_PANES
    ensures |filled| == MAX_PANES
  {
    panes + seq(MAX_PANES - |panes|, _ => EMPTY_PANE)
  }

  /** kmx_layout_apply; a refused header leaves the layout alone, a refused pane
  leaves those before it. */
  function Apply(l: Layout, data: seq<Byte>): Arrangement {
    var rows := ReadField(data, 0, MAX_DIMENSION);
    if rows.Bad? then Arrangement(l, rows.status)
    else
      var cols := ReadField(data, rows.next, MAX_DIMENSION);
      if cols.Bad? then Arrangement(l, cols.status)
      else
        var generation := ReadField(data, cols.next, TWO64 - 1);
        if generation.Bad? then Arrangement(l, generation.status)
        else
          var count := ReadField(data, generation.next, MAX_PANES);
          if count.Bad? then Arrangement(l, count.status)
          else if rows.value == 0 || cols.value == 0 then Arrangement(l, Protocol)
          else
            var read := ReadPanes(data, count.next, count.value, rows.value, cols.value);
            Arrangement(Layout(rows.value, cols.value, generation.value % TWO32, count.value, Filled(read.panes)),
                        if read.status == Ok && read.next != |data| then Protocol else read.status)
  }

  /** Where a pane lies fits a machine integer; it need not lie on the screen. */
  ghost predicate Measured(pane: Pane) {
    pane.x < TWO32 && pane.y < TWO32 && pane.rows < TWO32 && pane.cols < TWO32
  }

  method PutPaneInto(pane: Pane) returns (bytes: seq<Byte>)
    requires pane.id < TWO32 && Measured(pane) && |pane.title| == TITLE_MAX
    ensures bytes == PutPane(pane)
  {
    hide PutVarint;
    bytes := WriteVarint(pane.id);
    var part := WriteVarint(pane.x);
    bytes := bytes + part;
    part := WriteVarint(pane.y);
    bytes := bytes + part;
    part := WriteVarint(pane.rows);
    bytes := bytes + part;
    part := WriteVarint(pane.cols);
    bytes := bytes + part + [if pane.focused then 1 else 0];
    var length := 0;
    while length < TITLE_MAX && pane.title[length] != 0
      invariant length <= TITLE_MAX && forall k :: 0 <= k < length ==> pane.title[k] != 0
    {
      length := length + 1;
    }
    assert length == TextLength(pane.title);
    part := WriteVarint(length);
    bytes := bytes + part + pane.title[..length];
  }

  method EncodeLayout(l: Layout) returns (bytes: seq<Byte>)
    requires Formed(l) && l.rows < TWO32 && l.cols < TWO32
    requires forall k :: 0 <= k < l.count ==> Measured(l.panes[k])
    ensures bytes == Encode(l)
  {
    hide PutVarint, PutPane;
    bytes := WriteVarint(l.rows);
    var part := WriteVarint(l.cols);
    bytes := bytes + part;
    part := WriteVarint(l.generation);
    bytes := bytes + part;
    part := WriteVarint(l.count);
    bytes := bytes + part;
    ghost var panes := l.panes[..l.count];
    ghost var head := bytes;
    var index := 0;
    assert panes[0..] == panes;
    while index < l.count
      invariant index <= l.count
      invariant head + PutPanes(panes) == bytes + PutPanes(panes[index..])
    {
      part := PutPaneInto(l.panes[index]);
      assert panes[index..][1..] == panes[index + 1..] && panes[index..][0] == l.panes[index];
      assert bytes + (part + PutPanes(panes[index + 1..])) == (bytes + part) + PutPanes(panes[index + 1..]);
      bytes := bytes + part;
      index := index + 1;
    }
    assert bytes + [] == bytes;
  }

  /** The pane loop of kmx_layout_apply. */
  method ApplyPanes(data: seq<Byte>, at: nat, count: nat, rows: nat, cols: nat)
    returns (panes: seq<Pane>, next: nat, status: Status)
    requires rows > 0 && cols > 0
    ensures PanesRead(panes, next, status) == ReadPanes(data, at, count, rows, cols)
  {
    hide ReadPane;
    panes, next, status := [], at, Ok;
    var index := 0;
    while index < count
      invariant index <= count
      invariant var rest := ReadPanes(data, next, count - index, rows, cols);
                ReadPanes(data, at, count, rows, cols) == PanesRead(panes + rest.panes, rest.next, rest.status)
    {
      var read := ReadPane(data, next, rows, cols);
      if read.PaneBad? {
        assert panes + [] == panes;
        status := read.status;
        return;
      }
      ghost var rest := ReadPanes(data, read.next, count - index - 1, rows, cols);
      assert panes + ([read.pane] + rest.panes) == (panes + [read.pane]) + rest.panes;
      panes, next, index := panes + [read.pane], read.next, index + 1;
    }
    assert panes + [] == panes;
  }

  // ---- the round trip ---------------------------------------------------------------------------------

  /** kmx_layout_equal. */
  ghost predicate SamePane(a: Pane, b: Pane) {
    a.id == b.id && a.x == b.x && a.y == b.y && a.rows == b.rows && a.cols == b.cols && a.focused == b.focused &&
    TitleText(a.title) == TitleText(b.title)
  }

  ghost predicate SameLayout(a: Layout, b: Layout)
    requires a.count <= |a.panes| && b.count <= |b.panes|
  {
    a.rows == b.rows && a.cols == b.cols && a.count == b.count &&
    forall k :: 0 <= k < a.count ==> SamePane(a.panes[k], b.panes[k])
  }

  /** A layout whose panes are on its screen. */
  ghost predicate Sendable(l: Layout) {
    Formed(l) && 0 < l.rows <= MAX_DIMENSION && 0 < l.cols <= MAX_DIMENSION &&
    forall k :: 0 <= k < l.count ==> Inside(l, l.panes[k])
  }

  ghost predicate Ended(pane: Pane) {
    TextLength(pane.title) < TITLE_MAX
  }

  lemma FieldRead(data: seq<Byte>, at: nat, value: nat, rest: seq<Byte>, limit: nat)
    requires value < TWO64 && At(data, at, PutVarint(value) + rest)
    ensures ReadField(data, at, limit) == if value <= limit then Field(value, at + |PutVarint(value)|)
              else Bad(Protocol)
    ensures At(data, at + |PutVarint(value)|, rest)
  {
    hide PutVarint, ReadVarint;
    AtSplit(data, at, PutVarint(value), rest);
    VarintRoundTrip(data, at, value);
  }

  lemma PaddedText(text: seq<Byte>)
    requires |text| < TITLE_MAX && forall k :: 0 <= k < |text| ==> text[k] != 0
    ensures TitleText(Padded(text)) == text
  {
    var title, n := Padded(text), TextLength(Padded(text));
    assert title[|text|] == 0;
    assert forall k :: 0 <= k < |text| ==> title[k] == text[k];
    assert n == |text|;
  }

  /** What follows the five numbers of a pane. */
  lemma TitleRead(data: seq<Byte>, at: nat, focused: Byte, text: seq<Byte>, rest: seq<Byte>)
    requires |text| <= TITLE_MAX && At(data, at, [focused] + (PutVarint(|text|) + (text + rest)))
    ensures at < |data| && data[at] == focused
    ensures var title := ReadField(data, at + 1, TITLE_MAX - 1);
            if |text| == TITLE_MAX then title == Bad(Protocol)
            else title.Field? && title.value == |text| && title.next == at + 1 + |PutVarint(|text|)| &&
                 title.next + |text| <= |data| && data[title.next..title.next + |text|] == text &&
                 At(data, title.next + |text|, rest)
  {
    hide PutVarint, ReadVarint;
    AtSplit(data, at, [focused], PutVarint(|text|) + (text + rest));
    assert data[at] == data[at..at + 1][0];
    FieldRead(data, at + 1, |text|, text + rest, TITLE_MAX - 1);
    AtSplit(data, at + 1 + |PutVarint(|text|)|, text, rest);
  }

  lemma PaneRoundTrip(l: Layout, pane: Pane, data: seq<Byte>, at: nat, rest: seq<Byte>)
    requires 0 < l.rows <= MAX_DIMENSION && 0 < l.cols <= MAX_DIMENSION && Inside(l, pane) && pane.id < TWO32 &&
             |pane.title| == TITLE_MAX
    requires At(data, at, PutPane(pane) + rest)
    ensures var read := ReadPane(data, at, l.rows, l.cols);
            if !Ended(pane) then read == PaneBad(Protocol)
            else read.PaneRead? && SamePane(read.pane, pane) && read.next == at + |PutPane(pane)| &&
                 At(data, read.next, rest)
  {
    hide PutVarint, ReadField, TextLength, At;
    var text := TitleText(pane.title);
    var flag: Byte := if pane.focused then 1 else 0;
    var c7 := [flag] + (PutVarint(|text|) + (text + rest));
    var c5 := PutVarint(pane.cols) + c7;
    var c4 := PutVarint(pane.rows) + c5;
    var c3 := PutVarint(pane.y) + c4;
    var c2 := PutVarint(pane.x) + c3;
    assert PutPane(pane) + rest == PutVarint(pane.id) + c2;
    var a1 := at + |PutVarint(pane.id)|;
    var a2 := a1 + |PutVarint(pane.x)|;
    var a3 := a2 + |PutVarint(pane.y)|;
    var a4 := a3 + |PutVarint(pane.rows)|;
    var a5 := a4 + |PutVarint(pane.cols)|;
    FieldRead(data, at, pane.id, c2, TWO64 - 1);
    FieldRead(data, a1, pane.x, c3, l.cols - 1);
    FieldRead(data, a2, pane.y, c4, l.rows - 1);
    FieldRead(data, a3, pane.rows, c5, l.rows);
    FieldRead(data, a4, pane.cols, c7, l.cols);
    TitleRead(data, a5, flag, text, rest);
    if Ended(pane) { PaddedText(text); }
  }

  /** Encoded panes are read back, unless one of their titles was never ended. */
  lemma {:induction false} PanesRoundTrip(l: Layout, panes: seq<Pane>, data: seq<Byte>, at: nat)
    requires 0 < l.rows <= MAX_DIMENSION && 0 < l.cols <= MAX_DIMENSION
    requires forall k :: 0 <= k < |panes| ==>
               Inside(l, panes[k]) && panes[k].id < TWO32 && |panes[k].title| == TITLE_MAX
    requires At(data, at, PutPanes(panes))
    ensures var read := ReadPanes(data, at, |panes|, l.rows, l.cols);
            && (read.status == Ok <==> forall k :: 0 <= k < |panes| ==> Ended(panes[k]))
            && (read.status == Ok ==> |read.panes| == |panes| && read.next == at + |PutPanes(panes)|)
            && (read.status == Ok ==> forall k :: 0 <= k < |panes| ==> SamePane(read.panes[k], panes[k]))
            && (read.status != Ok ==> read.status == Protocol)
    decreases |panes|
  {
    hide PutPane, ReadPane, Ended, SamePane, At;
    if panes != [] {
      PaneRoundTrip(l, panes[0], data, at, PutPanes(panes[1..]));
      var read := ReadPane(data, at, l.rows, l.cols);
      if Ended(panes[0]) {
        PanesRoundTrip(l, panes[1..], data, read.next);
        var rest := ReadPanes(data, read.next, |panes| - 1, l.rows, l.cols);
        assert (forall k :: 0 <= k < |panes| ==> Ended(panes[k])) <==>
                 (forall k :: 0 <= k < |panes[1..]| ==> Ended(panes[1..][k])) by {
          assert forall k :: 0 < k < |panes| ==> panes[k] == panes[1..][k - 1];
        }
      }
    }
  }

  /** The encoding decodes to an equal layout of the same generation exactly when
  every title is NUL-terminated; otherwise it is refused as a protocol error. */
  lemma LayoutRoundTrip(l: Layout, held: Layout)
    requires Sendable(l)
    ensures var r := Apply(held, Encode(l));
            && (r.status == Ok <==> forall k :: 0 <= k < l.count ==> Ended(l.panes[k]))
            && (r.status == Ok ==> SameLayout(r.layout, l) && r.layout.generation == l.generation)
            && (r.status != Ok ==> r.status == Protocol)
  {
    hide PutVarint, ReadField, PutPanes, ReadPanes, Ended, SamePane, At;
    var data, panes := Encode(l), l.panes[..l.count];
    var c3 := PutVarint(l.count) + PutPanes(panes);
    var c2 := PutVarint(l.generation) + c3;
    var c1 := PutVarint(l.cols) + c2;
    assert data == PutVarint(l.rows) + c1;
    AtWhole(data);
    var a1 := |PutVarint(l.rows)|;
    var a2 := a1 + |PutVarint(l.cols)|;
    var a3 := a2 + |PutVarint(l.generation)|;
    FieldRead(data, 0, l.rows, c1, MAX_DIMENSION);
    FieldRead(data, a1, l.cols, c2, MAX_DIMENSION);
    FieldRead(data, a2, l.generation, c3, TWO64 - 1);
    FieldRead(data, a3, l.count, PutPanes(panes), MAX_PANES);
    PanesRoundTrip(l, panes, data, a3 + |PutVarint(l.count)|);
  }

  /** Whatever was received, an accepted layout keeps its panes on its screen. */
  lemma AcceptedInside(l: Layout, data: seq<Byte>)
    requires Apply(l, data).status == Ok
    ensures var r := Apply(l, data).layout; forall k :: 0 <= k < r.count ==> Inside(r, r.panes[k])
  {
    hide ReadField, ReadPanes;
    var rows := ReadField(data, 0, MAX_DIMENSION);
    var cols := ReadField(data, rows.next, MAX_DIMENSION);
    var generation := ReadField(data, cols.next, TWO64 - 1);
    var count := ReadField(data, generation.next, MAX_PANES);
    PanesInside(data, count.next, count.value, rows.value, cols.value);
  }

  // ---- nothing after the end -----------------------------------------------------------------------

  lemma FieldAgree(data: seq<Byte>, other: seq<Byte>, at: nat, limit: nat)
    requires ReadField(data, at, limit).Field? && Agree(data, other, ReadField(data, at, limit).next)
    ensures ReadField(other, at, limit) == ReadField(data, at, limit)
  {
    hide ReadVarint;
    VarintAgree(data, other, at);
  }

  lemma FieldWithin(data: seq<Byte>, other: seq<Byte>, at: nat, limit: nat, upto: nat)
    requires ReadField(data, at, limit).Field? && ReadField(data, at, limit).next <= upto && Agree(data, other, upto)
    ensures ReadField(other, at, limit) == ReadField(data, at, limit)
  {
    hide ReadField, Agree;
    AgreeLess(data, other, upto, ReadField(data, at, limit).next);
    FieldAgree(data, other, at, limit);
  }

  lemma PaneAgree(data: seq<Byte>, other: seq<Byte>, at: nat, rows: nat, cols: nat, upto: nat)
    requires rows > 0 && cols > 0 && ReadPane(data, at, rows, cols).PaneRead?
    requires ReadPane(data, at, rows, cols).next <= upto && Agree(data, other, upto)
    ensures ReadPane(other, at, rows, cols) == ReadPane(data, at, rows, cols)
  {
    hide ReadField, Padded;
    var id := ReadField(data, at, TWO64 - 1);
    var x := ReadField(data, id.next, cols - 1);
    var y := ReadField(data, x.next, rows - 1);
    var high := ReadField(data, y.next, rows);
    var wide := ReadField(data, high.next, cols);
    var title := ReadField(data, wide.next + 1, TITLE_MAX - 1);
    FieldWithin(data, other, at, TWO64 - 1, upto);
    FieldWithin(data, other, id.next, cols - 1, upto);
    FieldWithin(data, other, x.next, rows - 1, upto);
    FieldWithin(data, other, y.next, rows, upto);
    FieldWithin(data, other, high.next, cols, upto);
    FieldWithin(data, other, wide.next + 1, TITLE_MAX - 1, upto);
    AgreeAt(data, other, upto, wide.next);
    assert data[title.next..title.next + title.value] == data[..upto][title.next..title.next + title.value];
    assert other[title.next..title.next + title.value] == other[..upto][title.next..title.next + title.value];
  }

  lemma {:induction false} PanesAgree(data: seq<Byte>, other: seq<Byte>, at: nat, count: nat, rows: nat, cols: nat,
                                      upto: nat)
    requires rows > 0 && cols > 0 && ReadPanes(data, at, count, rows, cols).status == Ok
    requires ReadPanes(data, at, count, rows, cols).next <= upto && Agree(data, other, upto)
    ensures ReadPanes(other, at, count, rows, cols) == ReadPanes(data, at, count, rows, cols)
    ensures at <= ReadPanes(data, at, count, rows, cols).next
    decreases count
  {
    hide ReadPane, Agree;
    if count > 0 {
      var next := ReadPane(data, at, rows, cols).next;
      PanesNext(data, next, count - 1, rows, cols);
      PaneAgree(data, other, at, rows, cols, upto);
      PanesAgree(data, other, next, count - 1, rows, cols, upto);
    }
  }

  lemma {:induction false} PanesNext(data: seq<Byte>, at: nat, count: nat, rows: nat, cols: nat)
    requires rows > 0 && cols > 0 && ReadPanes(data, at, count, rows, cols).status == Ok
    ensures at <= ReadPanes(data, at, count, rows, cols).next
    decreases count
  {
    hide ReadPane;
    if count > 0 { PanesNext(data, ReadPane(data, at, rows, cols).next, count - 1, rows, cols); }
  }

  /** An accepted layout is the whole message: with anything after it, it is refused. */
  lemma AcceptedIsWhole(l: Layout, other: Layout, data: seq<Byte>, extra: seq<Byte>)
    requires Apply(l, data).status == Ok && extra != []
    ensures Apply(other, data + extra).status == Protocol
  {
    hide ReadField, ReadPanes;
    var more := data + extra;
    assert Agree(data, more, |data|);
    var rows := ReadField(data, 0, MAX_DIMENSION);
    var cols := ReadField(data, rows.next, MAX_DIMENSION);
    var generation := ReadField(data, cols.next, TWO64 - 1);
    var count := ReadField(data, generation.next, MAX_PANES);
    FieldWithin(data, more, 0, MAX_DIMENSION, |data|);
    FieldWithin(data, more, rows.next, MAX_DIMENSION, |data|);
    FieldWithin(data, more, cols.next, TWO64 - 1, |data|);
    FieldWithin(data, more, generation.next, MAX_PANES, |data|);
    PanesAgree(data, more, count.next, count.value, rows.value, cols.value, |data|);
  }

  lemma {:induction false} PanesInside(data: seq<Byte>, at: nat, count: nat, rows: nat, cols: nat)
    requires rows > 0 && cols > 0
    ensures var read := ReadPanes(data, at, count, rows, cols);
            (read.status == Ok ==> |read.panes| == count) &&
            forall k :: 0 <= k < |read.panes| ==>
              0 < read.panes[k].rows && read.panes[k].y + read.panes[k].rows <= rows &&
              0 < read.panes[k].cols && read.panes[k].x + read.panes[k].cols <= cols
    decreases count
  {
    hide ReadField;
    if count > 0 {
      match ReadPane(data, at, rows, cols)
      case PaneRead(_, next) => PanesInside(data, next, count - 1, rows, cols);
      case PaneBad(_) =>
    }
  }
}
