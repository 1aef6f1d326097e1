/** The motion plane (src/motion.c): lossless frame deltas in bands of sixteen
rows, and the sink that applies them. */
module Motion {
  import opened Bytes
  import opened Wire
  import opened Rate

  const BAND: nat := 16
  const PIXEL: nat := 3
  const FRAME_MAX: nat := 64 * 1024 * 1024
  const BODY_MAX: nat := FRAME_MAX + 64 * 1024
  const MAGIC: seq<Byte> := [0x4b, 0x4d, 0x56, 0x01]

  predicate ValidDimensions(width: int, height: int) {
    0 < width <= 8192 && 0 < height <= 8192 && width * height * PIXEL <= FRAME_MAX
  }

  /** A frame is `height` rows of `stride` bytes. */
  function Area(height: nat, stride: nat): nat { height * stride }

  lemma AreaOf(width: nat, height: nat)
    ensures Area(height, width * PIXEL) == width * height * PIXEL
  {
  }

  lemma AreaMonotone(rows: nat, more: nat, stride: nat)
    requires rows <= more
    ensures Area(rows, stride) <= Area(more, stride)
    ensures Area(more, stride) - Area(rows, stride) == Area(more - rows, stride)
  {
    assert more * stride == rows * stride + (more - rows) * stride;
  }

  function Rows(pixels: seq<Byte>, from: nat, to: nat, stride: nat): (rows: seq<Byte>)
    requires from <= to && Area(to, stride) <= |pixels|
    ensures |rows| == Area(to - from, stride)
  {
    AreaMonotone(from, to, stride);
    pixels[Area(from, stride)..Area(to, stride)]
  }

  // ---- the sender ------------------------------------------------------------------------------

  datatype Source = Source(previous: seq<Byte>, width: nat, height: nat, have: bool, dropped: nat,
                           window: Window, budget: nat)

  datatype Packed = Packed(bytes: seq<Byte>, count: nat)

  function BandEnd(row: nat, height: nat): nat {
    if row + BAND > height then height else row + BAND
  }

  /** Changed bands from `row` down, each with its position. */
  function PackBands(previous: seq<Byte>, pixels: seq<Byte>, height: nat, stride: nat, row: nat): (packed: Packed)
    requires |previous| == |pixels| == Area(height, stride) && row <= height
    decreases height - row
  {
    if row >= height then Packed([], 0)
    else
      var end := BandEnd(row, height);
      AreaMonotone(end, height, stride);
      var rest := PackBands(previous, pixels, height, stride, end);
      if Rows(previous, row, end, stride) == Rows(pixels, row, end, stride) then rest
      else Packed(PutVarint(row) + PutVarint(end - row) + Rows(pixels, row, end, stride) + rest.bytes, rest.count + 1)
  }

  lemma PackNext(previous: seq<Byte>, pixels: seq<Byte>, height: nat, stride: nat, row: nat)
    requires |previous| == |pixels| == Area(height, stride) && row < height
    ensures var end := BandEnd(row, height);
            && Area(row, stride) <= Area(end, stride) <= |pixels|
            && (var rest := PackBands(previous, pixels, height, stride, end);
                var band := pixels[Area(row, stride)..Area(end, stride)];
                PackBands(previous, pixels, height, stride, row) ==
                if previous[Area(row, stride)..Area(end, stride)] == band then rest
                else Packed(PutVarint(row) + PutVarint(end - row) + band + rest.bytes, rest.count + 1))
  {
    hide PutVarint, Area;
    AreaMonotone(row, BandEnd(row, height), stride);
    AreaMonotone(BandEnd(row, height), height, stride);
  }

  lemma PackEnd(previous: seq<Byte>, pixels: seq<Byte>, height: nat, stride: nat)
    requires |previous| == |pixels| == Area(height, stride)
    ensures PackBands(previous, pixels, height, stride, height) == Packed([], 0)
  {
  }

  function Keyframe(m: Source, width: nat, height: nat): bool {
    !m.have || m.width != width || m.height != height
  }

  /** Shape of the sender: its previous frame has the size it says. */
  ghost predicate Shaped(m: Source) {
    |m.previous| == Area(m.height, m.width * PIXEL)
  }

  function Body(m: Source, pixels: seq<Byte>, width: nat, height: nat): seq<Byte>
    requires Shaped(m) && |pixels| == Area(height, width * PIXEL)
  {
    var size := PutVarint(width) + PutVarint(height);
    if Keyframe(m, width, height) then size + [1] + pixels
    else
      var bands := PackBands(m.previous, pixels, height, width * PIXEL, 0);
      size + [0] + PutVarint(bands.count) + bands.bytes
  }

  datatype Offer = Offer(source: Source, status: Status, out: seq<Byte>, produced: bool)

  /** kmx_motion_offer: the message is appended to `out`, and the whole buffer is
  what the allowance is charged. */
  function Offering(zstd: Zstd, m: Source, pixels: seq<Byte>, width: int, height: int, now: nat, out: seq<Byte>): Offer
    requires Shaped(m) && (ValidDimensions(width, height) ==> |pixels| == Area(height, width * PIXEL))
  {
    if !ValidDimensions(width, height) then Offer(m, Invalid, out, false)
    else if !Keyframe(m, width, height) && m.previous == pixels then Offer(m, Ok, out, false)
    else
      var window := if m.budget == 0 then m.window else Advance(m.window, m.budget, now);
      if m.budget != 0 && window.bytes >= m.budget then
        Offer(m.(window := window, dropped := m.dropped + 1), Ok, out, false)
      else
        var sent := out + MAGIC + Compress(zstd, Body(m, pixels, width, height));
        var charged := if m.budget == 0 then window else window.(bytes := window.bytes + |sent|);
        Offer(m.(previous := pixels, width := width, height := height, have := true, window := charged), Ok, sent, true)
  }

  function Invalidated(m: Source): Source {
    m.(have := false)
  }

  // ---- the sink ----------------------------------------------------------------------------------

  datatype Sink = Sink(pixels: seq<Byte>, width: nat, height: nat)

  datatype Painted = Painted(pixels: seq<Byte>, status: Status, next: nat)

  function Overlay(pixels: seq<Byte>, at: nat, data: seq<Byte>): (painted: seq<Byte>)
    requires at + |data| <= |pixels|
    ensures |painted| == |pixels|
  {
    pixels[..at] + data + pixels[at + |data|..]
  }

  /** `count` bands, painted in place until one is refused. */
  function PaintBands(plain: seq<Byte>, at: nat, count: nat, height: nat, stride: nat,
                      pixels: seq<Byte>): (painted: Painted)
    requires at <= |plain| && |pixels| == Area(height, stride)
    ensures |painted.pixels| == |pixels| && at <= painted.next <= |plain|
    decreases count
  {
    if count == 0 then Painted(pixels, Ok, at)
    else match ReadVarint(plain, at)
      case Short => Painted(pixels, Truncated, at)
      case Overlong => Painted(pixels, Protocol, at)
      case Scanned(row, at1) =>
        match ReadVarint(plain, at1)
        case Short => Painted(pixels, Truncated, at)
        case Overlong => Painted(pixels, Protocol, at)
        case Scanned(rows, at2) =>
          if rows == 0 || row >= height || rows > height - row then Painted(pixels, Protocol, at2)
          else if |plain| - at2 < Area(rows, stride) then Painted(pixels, Truncated, at2)
          else
            BandFits(row, rows, height, stride);
            var end := at2 + Area(rows, stride);
            PaintBands(plain, end, count - 1, height, stride, Overlay(pixels, Area(row, stride), plain[at2..end]))
  }

  lemma BandFits(row: nat, rows: nat, height: nat, stride: nat)
    requires row + rows <= height
    ensures Area(row, stride) + Area(rows, stride) <= Area(height, stride)
  {
    AreaMonotone(row, row + rows, stride);
    AreaMonotone(row + rows, height, stride);
  }

  datatype Applied = Applied(sink: Sink, status: Status)

  ghost predicate SinkOk(s: Sink) {
    |s.pixels| == Area(s.height, s.width * PIXEL)
  }

  /** What the decompressed body does to the sink. */
  function ApplyBody(s: Sink, plain: seq<Byte>): (applied: Applied)
    requires SinkOk(s)
    ensures SinkOk(applied.sink)
  {
    match ReadVarint(plain, 0)
    case Short => Applied(s, Truncated)
    case Overlong => Applied(s, Protocol)
    case Scanned(width, at1) =>
      match ReadVarint(plain, at1)
      case Short => Applied(s, Truncated)
      case Overlong => Applied(s, Protocol)
      case Scanned(height, at2) =>
        if !ValidDimensions(width, height) then Applied(s, Protocol)
        else if at2 >= |plain| then Applied(s, Truncated)
        else
          var stride := width * PIXEL;
          var whole := plain[at2] % 2 == 1;
          var sized := s.width == width && s.height == height;
          if !sized && !whole then Applied(s, Protocol)
          else
            var held := if sized then s else Sink(seq(Area(height, stride), _ => 0), width, height);
            if whole then
              if |plain| - (at2 + 1) != Area(height, stride) then Applied(held, Protocol)
              else Applied(held.(pixels := plain[at2 + 1..]), Ok)
            else match ReadVarint(plain, at2 + 1)
              case Short => Applied(held, Truncated)
              case Overlong => Applied(held, Protocol)
              case Scanned(count, at3) =>
                if count > height then Applied(held, Protocol)
                else
                  var painted := PaintBands(plain, at3, count, height, stride, held.pixels);
                  Applied(held.(pixels := painted.pixels),
                          if painted.status == Ok && painted.next != |plain| then Protocol else painted.status)
  }

  /** kmx_motion_sink_apply. */
  function Apply(zstd: Zstd, s: Sink, data: seq<Byte>): (applied: Applied)
    requires SinkOk(s)
    ensures SinkOk(applied.sink)
  {
    if |data| < 4 then Applied(s, Truncated)
    else if data[..4] != MAGIC then Applied(s, Protocol)
    else match Decompress(zstd, data[4..], BODY_MAX)
      case Refused(status) => Applied(s, status)
      case Unpacked(plain) => ApplyBody(s, plain)
  }

  // ---- a delta paints exactly what changed ----------------------------------------------------------

  /** A frame whose rows above `row` are already the new ones. */
  ghost predicate PaintedAbove(held: seq<Byte>, previous: seq<Byte>, pixels: seq<Byte>, upTo: nat) {
    && |held| == |previous| == |pixels| && upTo <= |held|
    && held[..upTo] == pixels[..upTo] && held[upTo..] == previous[upTo..]
  }

  lemma PaintedBelow(held: seq<Byte>, previous: seq<Byte>, pixels: seq<Byte>, upTo: nat, end: nat)
    requires PaintedAbove(held, previous, pixels, upTo) && upTo <= end <= |held|
    ensures previous[upTo..end] == pixels[upTo..end] ==> PaintedAbove(held, previous, pixels, end)
    ensures PaintedAbove(Overlay(held, upTo, pixels[upTo..end]), previous, pixels, end)
  {
    assert held[end..] == held[upTo..][end - upTo..] && previous[end..] == previous[upTo..][end - upTo..];
    if previous[upTo..end] == pixels[upTo..end] {
      assert held[upTo..end] == held[upTo..][..end - upTo] == previous[upTo..][..end - upTo] == previous[upTo..end];
      assert held[..end] == held[..upTo] + held[upTo..end];
      assert pixels[..end] == pixels[..upTo] + pixels[upTo..end];
    }
    var painted := Overlay(held, upTo, pixels[upTo..end]);
    assert painted[..end] == held[..upTo] + pixels[upTo..end] == pixels[..upTo] + pixels[upTo..end] == pixels[..end];
    assert painted[end..] == held[end..];
  }

  /** The body of a delta never outgrows its frame by more than the band headers. */
  lemma {:induction false} BandsLength(previous: seq<Byte>, pixels: seq<Byte>, height: nat, stride: nat, row: nat)
    requires |previous| == |pixels| == Area(height, stride) && row <= height <= 8192
    ensures var packed := PackBands(previous, pixels, height, stride, row);
            && |packed.bytes| <= Area(height - row, stride) + 4 * packed.count
            && 16 * packed.count <= height - row + 15
            && (packed.count > 0 ==> row < height) && packed.count <= height - row
    decreases height - row
  {
    if row < height {
      var end := BandEnd(row, height);
      Pow128Values();
      PutVarintLength(row, 2);
      PutVarintLength(end - row, 2);
      AreaMonotone(end, height, stride);
      AreaMonotone(height - end, height - row, stride);
      assert height - row - (height - end) == end - row;
      BandsLength(previous, pixels, height, stride, end);
    }
  }

  lemma {:induction false} BandsPaint(previous: seq<Byte>, pixels: seq<Byte>, height: nat, stride: nat, row: nat,
                                      held: seq<Byte>, plain: seq<Byte>, at: nat)
    requires |previous| == |pixels| == Area(height, stride) && row <= height <= 8192
    requires Area(row, stride) <= |pixels| && PaintedAbove(held, previous, pixels, Area(row, stride))
    requires At(plain, at, PackBands(previous, pixels, height, stride, row).bytes)
    ensures var packed := PackBands(previous, pixels, height, stride, row);
            at + |packed.bytes| <= |plain| &&
            PaintBands(plain, at, packed.count, height, stride, held) == Painted(pixels, Ok, at + |packed.bytes|)
    decreases height - row
  {
    hide PutVarint, ReadVarint, At, Area, PaintBands, PaintedAbove, Overlay;
    AtBound(plain, at, PackBands(previous, pixels, height, stride, row).bytes);
    AboveLength(held, previous, pixels, Area(row, stride));
    if row >= height {
      AllPainted(held, previous, pixels);
      PaintNone(plain, at, height, stride, held);
    } else {
      var end := BandEnd(row, height);
      AreaMonotone(row, end, stride);
      AreaMonotone(end, height, stride);
      PaintedBelow(held, previous, pixels, Area(row, stride), Area(end, stride));
      var data := Rows(pixels, row, end, stride);
      if Rows(previous, row, end, stride) == data {
        BandsPaint(previous, pixels, height, stride, end, held, plain, at);
      } else {
        var rest := PackBands(previous, pixels, height, stride, end);
        BandRead(plain, at, row, end - row, data, rest.bytes);
        var next := at + |PutVarint(row)| + |PutVarint(end - row)| + |data|;
        BandsPaint(previous, pixels, height, stride, end, Overlay(held, Area(row, stride), data), plain, next);
        PaintOne(plain, at, row, end - row, rest.count, height, stride, held, data);
      }
    }
  }

  lemma AllPainted(held: seq<Byte>, previous: seq<Byte>, pixels: seq<Byte>)
    requires PaintedAbove(held, previous, pixels, |held|)
    ensures held == pixels
  {
    assert held[..|held|] == held && pixels[..|held|] == pixels;
  }

  lemma AboveLength(held: seq<Byte>, previous: seq<Byte>, pixels: seq<Byte>, upTo: nat)
    requires PaintedAbove(held, previous, pixels, upTo)
    ensures |held| == |pixels|
  {
  }

  lemma PaintNone(plain: seq<Byte>, at: nat, height: nat, stride: nat, held: seq<Byte>)
    requires at <= |plain| && |held| == Area(height, stride)
    ensures PaintBands(plain, at, 0, height, stride, held) == Painted(held, Ok, at)
  {
  }

  lemma PaintOne(plain: seq<Byte>, at: nat, row: nat, rows: nat, count: nat, height: nat, stride: nat,
                 held: seq<Byte>, data: seq<Byte>)
    requires |held| == Area(height, stride) && rows > 0 && row + rows <= height && |data| == Area(rows, stride)
    requires row < TWO64 && rows < TWO64 && at <= |plain|
    requires var at1 := at + |PutVarint(row)|;
             var at2 := at1 + |PutVarint(rows)|;
             && ReadVarint(plain, at) == Scanned(row, at1) && ReadVarint(plain, at1) == Scanned(rows, at2)
             && at2 + |data| <= |plain| && plain[at2..at2 + |data|] == data
    ensures Area(row, stride) + |data| <= |held|
    ensures PaintBands(plain, at, count + 1, height, stride, held) ==
            PaintBands(plain, at + |PutVarint(row)| + |PutVarint(rows)| + |data|, count, height, stride,
                       Overlay(held, Area(row, stride), data))
  {
    hide PutVarint, ReadVarint, Area, Overlay;
    BandFits(row, rows, height, stride);
  }

  lemma AtBound(data: seq<Byte>, at: nat, part: seq<Byte>)
    requires At(data, at, part)
    ensures at + |part| <= |data|
  {
  }

  lemma BandRead(plain: seq<Byte>, at: nat, row: nat, rows: nat, data: seq<Byte>, rest: seq<Byte>)
    requires row < TWO64 && rows < TWO64 && At(plain, at, PutVarint(row) + PutVarint(rows) + data + rest)
    ensures var at1 := at + |PutVarint(row)|;
            var at2 := at1 + |PutVarint(rows)|;
            && ReadVarint(plain, at) == Scanned(row, at1) && ReadVarint(plain, at1) == Scanned(rows, at2)
            && at2 + |data| <= |plain| && plain[at2..at2 + |data|] == data
            && At(plain, at2 + |data|, rest)
  {
    hide PutVarint, ReadVarint;
    var head := PutVarint(row) + PutVarint(rows);
    AtSplit(plain, at, head + data, rest);
    AtSplit(plain, at, head, data);
    AtSplit(plain, at, PutVarint(row), PutVarint(rows));
    VarintRoundTrip(plain, at, row);
    VarintRoundTrip(plain, at + |PutVarint(row)|, rows);
  }

  // ---- agreement ------------------------------------------------------------------------------------

  /** The sink shows the sender's previous frame, whether or not it was invalidated. */
  ghost predicate Agree(m: Source, s: Sink) {
    Shaped(m) && s == Sink(m.previous, m.width, m.height)
  }

  lemma BodyFits(m: Source, pixels: seq<Byte>, width: nat, height: nat)
    requires Shaped(m) && ValidDimensions(width, height) && |pixels| == Area(height, width * PIXEL)
    ensures |Body(m, pixels, width, height)| <= BODY_MAX
  {
    hide PutVarint;
    Pow128Values();
    PutVarintLength(width, 2);
    PutVarintLength(height, 2);
    AreaOf(width, height);
    if !Keyframe(m, width, height) {
      var bands := PackBands(m.previous, pixels, height, width * PIXEL, 0);
      BandsLength(m.previous, pixels, height, width * PIXEL, 0);
      PutVarintLength(bands.count, 2);
    }
  }

  /** The head every body starts with. */
  lemma BodyHead(body: seq<Byte>, width: nat, height: nat, flag: Byte, tail: seq<Byte>)
    requires ValidDimensions(width, height) && body == PutVarint(width) + PutVarint(height) + [flag] + tail
    ensures var at1 := |PutVarint(width)|;
            var at2 := at1 + |PutVarint(height)|;
            && ReadVarint(body, 0) == Scanned(width, at1) && ReadVarint(body, at1) == Scanned(height, at2)
            && at2 < |body| && body[at2] == flag && body[at2 + 1..] == tail && At(body, at2 + 1, tail)
  {
    hide PutVarint, ReadVarint;
    AtWhole(body);
    BandRead(body, 0, width, height, [flag], tail);
    var at2 := |PutVarint(width)| + |PutVarint(height)|;
    assert body[at2] == body[at2..at2 + 1][0];
  }

  lemma KeyApplies(m: Source, s: Sink, pixels: seq<Byte>, width: nat, height: nat)
    requires Agree(m, s) && ValidDimensions(width, height) && |pixels| == Area(height, width * PIXEL)
    requires Keyframe(m, width, height)
    ensures ApplyBody(s, Body(m, pixels, width, height)) == Applied(Sink(pixels, width, height), Ok)
  {
    hide PutVarint, ReadVarint, PackBands, PaintBands, Area, At;
    BodyHead(Body(m, pixels, width, height), width, height, 1, pixels);
  }

  /** What a body that reads as a delta does. */
  lemma ApplyDelta(s: Sink, plain: seq<Byte>, width: nat, height: nat, at1: nat, at2: nat, count: nat, at3: nat,
                   pixels: seq<Byte>)
    requires SinkOk(s) && s.width == width && s.height == height && ValidDimensions(width, height)
    requires ReadVarint(plain, 0) == Scanned(width, at1) && ReadVarint(plain, at1) == Scanned(height, at2)
    requires at2 < |plain| && plain[at2] == 0 && ReadVarint(plain, at2 + 1) == Scanned(count, at3)
    requires at3 <= |plain| && count <= height
    requires PaintBands(plain, at3, count, height, width * PIXEL, s.pixels) == Painted(pixels, Ok, |plain|)
    ensures ApplyBody(s, plain) == Applied(Sink(pixels, width, height), Ok)
  {
    hide ReadVarint, PaintBands, Area;
  }

  lemma DeltaApplies(m: Source, s: Sink, pixels: seq<Byte>, width: nat, height: nat)
    requires Agree(m, s) && ValidDimensions(width, height) && |pixels| == Area(height, width * PIXEL)
    requires !Keyframe(m, width, height)
    ensures ApplyBody(s, Body(m, pixels, width, height)) == Applied(Sink(pixels, width, height), Ok)
  {
    hide PutVarint, ReadVarint, PackBands, PaintBands, Area, At, ApplyBody, PaintedAbove;
    var body, stride := Body(m, pixels, width, height), width * PIXEL;
    var bands := PackBands(m.previous, pixels, height, stride, 0);
    var count := PutVarint(bands.count);
    var at3 := |PutVarint(width)| + |PutVarint(height)| + 1;
    BodyHead(body, width, height, 0, count + bands.bytes);
    AtSplit(body, at3, count, bands.bytes);
    BandsLength(m.previous, pixels, height, stride, 0);
    VarintRoundTrip(body, at3, bands.count);
    NothingPainted(s.pixels, pixels, stride);
    BandsPaint(m.previous, pixels, height, stride, 0, s.pixels, body, at3 + |count|);
    ApplyDelta(s, body, width, height, |PutVarint(width)|, at3 - 1, bands.count, at3 + |count|, pixels);
  }

  lemma NothingPainted(previous: seq<Byte>, pixels: seq<Byte>, stride: nat)
    requires |previous| == |pixels|
    ensures Area(0, stride) == 0 && PaintedAbove(previous, previous, pixels, 0)
  {
  }

  lemma BodyApplies(m: Source, s: Sink, pixels: seq<Byte>, width: nat, height: nat)
    requires Agree(m, s) && ValidDimensions(width, height) && |pixels| == Area(height, width * PIXEL)
    ensures ApplyBody(s, Body(m, pixels, width, height)) == Applied(Sink(pixels, width, height), Ok)
  {
    hide Body, ApplyBody, Area, Agree;
    if Keyframe(m, width, height) {
      KeyApplies(m, s, pixels, width, height);
    } else {
      DeltaApplies(m, s, pixels, width, height);
    }
  }

  lemma {:induction false} PaintAgree(plain: seq<Byte>, other: seq<Byte>, at: nat, count: nat, height: nat, stride: nat,
                                      pixels: seq<Byte>)
    requires at <= |plain| <= |other| && other[..|plain|] == plain && |pixels| == Area(height, stride)
    requires PaintBands(plain, at, count, height, stride, pixels).status == Ok
    ensures PaintBands(other, at, count, height, stride, pixels) == PaintBands(plain, at, count, height, stride, pixels)
    decreases count
  {
    hide ReadVarint, Area, Overlay;
    if count > 0 {
      var row := ReadVarint(plain, at);
      var rows := ReadVarint(plain, row.next);
      AgreeLess(plain, other, |plain|, row.next);
      VarintAgree(plain, other, at);
      AgreeLess(plain, other, |plain|, rows.next);
      VarintAgree(plain, other, row.next);
      BandFits(row.value, rows.value, height, stride);
      var end := rows.next + Area(rows.value, stride);
      SameSlice(plain, other, rows.next, end);
      PaintAgree(plain, other, end, count - 1, height, stride,
                 Overlay(pixels, Area(row.value, stride), plain[rows.next..end]));
    }
  }

  lemma SameSlice(plain: seq<Byte>, other: seq<Byte>, from: nat, end: nat)
    requires from <= end <= |plain| <= |other| && other[..|plain|] == plain
    ensures other[from..end] == plain[from..end]
  {
    forall k | from <= k < end ensures other[k] == plain[k] {
      assert other[..|plain|][k] == other[k];
    }
  }

  /** A body that is accepted is a frame, is the whole of what was unpacked - with
  anything after it, it is refused - and is a delta only of a frame of its size. */
  lemma AcceptedIsWhole(s: Sink, plain: seq<Byte>, extra: seq<Byte>)
    requires SinkOk(s) && ApplyBody(s, plain).status == Ok && extra != []
    ensures var r := ApplyBody(s, plain).sink;
            && 1 <= r.width <= 8192 && 1 <= r.height <= 8192 && r.width * r.height * 3 <= 64 * 1024 * 1024
            && ((r.width == s.width && r.height == s.height) || |plain| >= |r.pixels|)
    ensures ApplyBody(s, plain + extra).status == Protocol
  {
    hide ReadVarint, PaintBands, Area;
    var other := plain + extra;
    var width := ReadVarint(plain, 0);
    var height := ReadVarint(plain, width.next);
    assert Bytes.Agree(plain, other, |plain|);
    AgreeLess(plain, other, |plain|, width.next);
    VarintAgree(plain, other, 0);
    AgreeLess(plain, other, |plain|, height.next);
    VarintAgree(plain, other, width.next);
    if plain[height.next] % 2 != 1 {
      var count := ReadVarint(plain, height.next + 1);
      AgreeLess(plain, other, |plain|, count.next);
      VarintAgree(plain, other, height.next + 1);
      PaintAgree(plain, other, count.next, count.value, height.value, width.value * PIXEL, s.pixels);
    }
  }

  /** One offer: if it produced a message, applying it is accepted and the sink
  then shows exactly the offered frame; if it did not, nothing moved. */
  lemma OfferAgrees(zstd: Zstd, m: Source, s: Sink, pixels: seq<Byte>, width: int, height: int, now: nat,
                    out: seq<Byte>)
    requires Lossless(zstd) && Agree(m, s) &&
             (ValidDimensions(width, height) ==> |pixels| == Area(height, width * PIXEL))
    ensures var o := Offering(zstd, m, pixels, width, height, now, out);
            if o.produced then
              && out <= o.out
              && Apply(zstd, s, o.out[|out|..]) == Applied(Sink(pixels, width, height), Ok)
              && Agree(o.source, Sink(pixels, width, height))
            else o.out == out && Agree(o.source, s)
  {
    hide PutVarint, ReadVarint, Body, ApplyBody, Compress, Decompress, Advance;
    var o := Offering(zstd, m, pixels, width, height, now, out);
    if o.produced {
      var body := Body(m, pixels, width, height);
      assert o.out[|out|..] == MAGIC + Compress(zstd, body);
      assert (MAGIC + Compress(zstd, body))[4..] == Compress(zstd, body);
      BodyFits(m, pixels, width, height);
      CompressRoundTrip(zstd, body, BODY_MAX);
      BodyApplies(m, s, pixels, width, height);
    }
  }

  /** Exactly when a frame is sent: when it is one, when it is not what the receiver has,
  and when there is no allowance or its gate is open. Otherwise nothing is sent, and
  a frame the gate keeps back is counted as dropped. */
  lemma OfferSendsIff(zstd: Zstd, m: Source, pixels: seq<Byte>, width: int, height: int, now: nat, out: seq<Byte>)
    requires Shaped(m) && (ValidDimensions(width, height) ==> |pixels| == Area(height, width * PIXEL))
    ensures var o := Offering(zstd, m, pixels, width, height, now, out);
            var frame := 1 <= width <= 8192 && 1 <= height <= 8192 && width * height * 3 <= 64 * 1024 * 1024;
            var news := !m.have || m.width != width || m.height != height || m.previous != pixels;
            var passes := m.budget == 0 || Rate.Open(m.window, m.budget, now);
            && (o.produced <==> frame && news && passes)
            && o.status == (if frame then Ok else Invalid)
            && o.source.dropped == m.dropped + (if frame && news && !passes then 1 else 0)
            && (o.produced ==> o.source.have && o.source.previous == pixels && |o.out| > |out|)
            && (!o.produced ==> o.out == out && o.source == m.(window := o.source.window, dropped := o.source.dropped))
  {
    hide Compress, Body, Advance;
  }

  // ---- what a delta holds -----------------------------------------------------------------------

  /** The bands that start at these rows. */
  function BandBytes(pixels: seq<Byte>, height: nat, stride: nat, rows: seq<nat>): seq<Byte>
    requires |pixels| == Area(height, stride) && forall k :: 0 <= k < |rows| ==> rows[k] < height
  {
    if rows == [] then []
    else
      var end := if rows[0] + 16 > height then height else rows[0] + 16;
      AreaMonotone(end, height, stride);
      PutVarint(rows[0]) + PutVarint(end - rows[0]) + Rows(pixels, rows[0], end, stride) +
      BandBytes(pixels, height, stride, rows[1..])
  }

  /** Some of these sixteen rows changed. */
  predicate BandChanged(previous: seq<Byte>, pixels: seq<Byte>, height: nat, stride: nat, row: nat)
    requires |previous| == |pixels| == Area(height, stride) && row < height
  {
    var end := if row + 16 > height then height else row + 16;
    AreaMonotone(end, height, stride);
    Rows(previous, row, end, stride) != Rows(pixels, row, end, stride)
  }

  ghost predicate ChangedFrom(previous: seq<Byte>, pixels: seq<Byte>, height: nat, stride: nat, row: nat,
                              rows: seq<nat>)
    requires |previous| == |pixels| == Area(height, stride)
  {
    && (forall k :: 0 < k < |rows| ==> rows[k - 1] < rows[k])
    && forall r: nat :: r in rows <==>
         row <= r < height && r % 16 == 0 && BandChanged(previous, pixels, height, stride, r)
  }

  lemma NoneChanged(previous: seq<Byte>, pixels: seq<Byte>, height: nat, stride: nat, row: nat)
    requires |previous| == |pixels| == Area(height, stride) && row >= height
    ensures ChangedFrom(previous, pixels, height, stride, row, [])
  {
  }

  lemma ChangedOne(previous: seq<Byte>, pixels: seq<Byte>, height: nat, stride: nat, row: nat, rest: seq<nat>)
    requires |previous| == |pixels| == Area(height, stride) && row < height && row % 16 == 0
    requires ChangedFrom(previous, pixels, height, stride, BandEnd(row, height), rest)
    ensures ChangedFrom(previous, pixels, height, stride, row,
                        if BandChanged(previous, pixels, height, stride, row) then [row] + rest else rest)
  {
    hide BandChanged;
    var rows := if BandChanged(previous, pixels, height, stride, row) then [row] + rest else rest;
    forall k | 0 < k < |rows| ensures rows[k - 1] < rows[k] {
      if rows != rest {
        assert rest[k - 1] in rest;
        if k > 1 { assert rows[k - 1] == rest[k - 2]; }
      }
    }
    forall r: nat
      ensures r in rows <==>
                row <= r < height && r % 16 == 0 && BandChanged(previous, pixels, height, stride, r)
    {
      assert row < r < BandEnd(row, height) ==> r % 16 != 0;
    }
  }

  lemma {:induction false} PacksChanged(previous: seq<Byte>, pixels: seq<Byte>, height: nat, stride: nat, row: nat)
    returns (rows: seq<nat>)
    requires |previous| == |pixels| == Area(height, stride) && row <= height && (row % 16 == 0 || row == height)
    ensures ChangedFrom(previous, pixels, height, stride, row, rows)
    ensures (forall k :: 0 <= k < |rows| ==> rows[k] < height)
    ensures PackBands(previous, pixels, height, stride, row) ==
            Packed(BandBytes(pixels, height, stride, rows), |rows|)
    decreases height - row
  {
    hide PutVarint, BandChanged, Area, ChangedFrom;
    if row == height {
      PackEnd(previous, pixels, height, stride);
      NoneChanged(previous, pixels, height, stride, row);
      rows := [];
    } else {
      var end := BandEnd(row, height);
      var rest := PacksChanged(previous, pixels, height, stride, end);
      ChangedOne(previous, pixels, height, stride, row, rest);
      PackBand(previous, pixels, height, stride, row, rest);
      rows := if BandChanged(previous, pixels, height, stride, row) then [row] + rest else rest;
    }
  }

  lemma PackBand(previous: seq<Byte>, pixels: seq<Byte>, height: nat, stride: nat, row: nat, rest: seq<nat>)
    requires |previous| == |pixels| == Area(height, stride) && row < height
    requires forall k :: 0 <= k < |rest| ==> rest[k] < height
    requires PackBands(previous, pixels, height, stride, BandEnd(row, height)) ==
             Packed(BandBytes(pixels, height, stride, rest), |rest|)
    ensures var rows := if BandChanged(previous, pixels, height, stride, row) then [row] + rest else rest;
            && (forall k :: 0 <= k < |rows| ==> rows[k] < height)
            && PackBands(previous, pixels, height, stride, row) ==
               Packed(BandBytes(pixels, height, stride, rows), |rows|)
  {
    hide PutVarint, Area;
    assert ([row] + rest)[1..] == rest;
  }

  /** A message holds no more than it must: the whole frame only where no frame of its
  size is held, else exactly the bands of sixteen rows in which something changed,
  from top to bottom. */
  lemma BodyHoldsChanges(m: Source, pixels: seq<Byte>, width: nat, height: nat) returns (rows: seq<nat>)
    requires Shaped(m) && ValidDimensions(width, height) && |pixels| == Area(height, width * PIXEL)
    ensures var held := m.have && m.width == width && m.height == height;
            var head := PutVarint(width) + PutVarint(height);
            && (!held ==> Body(m, pixels, width, height) == head + [1] + pixels)
            && (held ==>
                  && ChangedFrom(m.previous, pixels, height, width * PIXEL, 0, rows)
                  && (forall k :: 0 <= k < |rows| ==> rows[k] < height)
                  && Body(m, pixels, width, height) ==
                     head + [0] + PutVarint(|rows|) + BandBytes(pixels, height, width * PIXEL, rows))
  {
    hide PutVarint, PackBands, BandBytes, ChangedFrom;
    rows := [];
    if m.have && m.width == width && m.height == height {
      rows := PacksChanged(m.previous, pixels, height, width * PIXEL, 0);
    }
  }

  datatype Event =
    | Frame(pixels: seq<Byte>, width: int, height: int, now: nat, out: seq<Byte>)
    | Invalidate

  ghost predicate FramesOk(events: seq<Event>) {
    forall k :: 0 <= k < |events| && events[k].Frame? ==>
      (ValidDimensions(events[k].width, events[k].height) ==>
         |events[k].pixels| == Area(events[k].height, events[k].width * PIXEL))
  }

  datatype Played = Played(source: Source, sink: Sink, rejected: nat, last: Option<Sink>)

  /** Every produced message applied in order; `last` is the frame produced last. */
  ghost function Play(zstd: Zstd, m: Source, s: Sink, events: seq<Event>): Played
    requires Shaped(m) && SinkOk(s) && FramesOk(events)
    decreases |events|
  {
    if events == [] then Played(m, s, 0, None)
    else
      assert FramesOk(events[1..]);
      match events[0]
      case Invalidate => Play(zstd, Invalidated(m), s, events[1..])
      case Frame(pixels, width, height, now, out) =>
        var o := Offering(zstd, m, pixels, width, height, now, out);
        if !o.produced then Play(zstd, o.source, s, events[1..])
        else
          var applied := Apply(zstd, s, o.out[|out|..]);
          var rest := Play(zstd, o.source, applied.sink, events[1..]);
          rest.(rejected := rest.rejected + (if applied.status == Ok then 0 else 1),
                last := if rest.last.Some? then rest.last else Some(Sink(pixels, width, height)))
  }

  /** Over any interleaving of frames, drops, size changes and invalidations, no
  produced message is rejected and the sink shows the last one produced. */
  lemma {:induction false} MotionAgreement(zstd: Zstd, m: Source, s: Sink, events: seq<Event>)
    requires Lossless(zstd) && Agree(m, s) && FramesOk(events)
    ensures var played := Play(zstd, m, s, events);
            && played.rejected == 0 && Agree(played.source, played.sink)
            && played.sink == (if played.last.Some? then played.last.value else s)
    decreases |events|
  {
    hide Offering, Apply;
    if events != [] {
      assert FramesOk(events[1..]);
      match events[0]
      case Invalidate => MotionAgreement(zstd, Invalidated(m), s, events[1..]);
      case Frame(pixels, width, height, now, out) =>
        OfferAgrees(zstd, m, s, pixels, width, height, now, out);
        var o := Offering(zstd, m, pixels, width, height, now, out);
        MotionAgreement(zstd, o.source, if o.produced then Apply(zstd, s, o.out[|out|..]).sink else s, events[1..]);
    }
  }

  // ---- the ceiling ---------------------------------------------------------------------------------------

  /** The bytes of every message produced along a run. */
  ghost function Sent(zstd: Zstd, m: Source, events: seq<Event>): nat
    requires Shaped(m) && FramesOk(events)
    decreases |events|
  {
    if events == [] then 0
    else
      assert FramesOk(events[1..]);
      match events[0]
      case Invalidate => Sent(zstd, Invalidated(m), events[1..])
      case Frame(pixels, width, height, now, out) =>
        var o := Offering(zstd, m, pixels, width, height, now, out);
        |o.out| - |out| + Sent(zstd, o.source, events[1..])
  }

  /** No produced message leaves more than `largest` bytes in its buffer. */
  ghost predicate SentWithin(zstd: Zstd, m: Source, events: seq<Event>, largest: nat)
    requires Shaped(m) && FramesOk(events)
    decreases |events|
  {
    events != [] ==>
      assert FramesOk(events[1..]);
      match events[0]
      case Invalidate => SentWithin(zstd, Invalidated(m), events[1..], largest)
      case Frame(pixels, width, height, now, out) =>
        var o := Offering(zstd, m, pixels, width, height, now, out);
        (o.produced ==> |o.out| <= largest) && SentWithin(zstd, o.source, events[1..], largest)
  }

  /** The clock of the offers never runs backwards. */
  ghost predicate Clocked(events: seq<Event>, from: nat, until: nat)
    decreases |events|
  {
    if events == [] then from <= until
    else match events[0]
      case Invalidate => Clocked(events[1..], from, until)
      case Frame(_, _, _, now, _) => from <= now && Clocked(events[1..], now, until)
  }

  /** An offer the gate is asked about: not malformed, and not of a still frame. */
  predicate AtGate(m: Source, pixels: seq<Byte>, width: int, height: int) {
    ValidDimensions(width, height) && (Keyframe(m, width, height) || m.previous != pixels)
  }

  function Charge(zstd: Zstd, m: Source, pixels: seq<Byte>, width: int, height: int, out: seq<Byte>): nat
    requires Shaped(m) && ValidDimensions(width, height) && |pixels| == Area(height, width * PIXEL)
  {
    |out| + 4 + |Compress(zstd, Body(m, pixels, width, height))|
  }

  /** What the run asks of its rate window. */
  ghost function Attempts(zstd: Zstd, m: Source, events: seq<Event>): seq<Attempt>
    requires Shaped(m) && FramesOk(events)
    decreases |events|
  {
    if events == [] then []
    else
      assert FramesOk(events[1..]);
      match events[0]
      case Invalidate => Attempts(zstd, Invalidated(m), events[1..])
      case Frame(pixels, width, height, now, out) =>
        var rest := Attempts(zstd, Offering(zstd, m, pixels, width, height, now, out).source, events[1..]);
        if AtGate(m, pixels, width, height)
        then [Attempt(now, Charge(zstd, m, pixels, width, height, out))] + rest else rest
  }

  /** One offer and the gate: what it sends is admitted there, and the window is
  left as the gate leaves it. */
  lemma OfferCharged(zstd: Zstd, m: Source, pixels: seq<Byte>, width: int, height: int, now: nat, out: seq<Byte>)
    requires Shaped(m) && (ValidDimensions(width, height) ==> |pixels| == Area(height, width * PIXEL)) && m.budget > 0
    ensures var o := Offering(zstd, m, pixels, width, height, now, out);
            && o.source.budget == m.budget
            && (!AtGate(m, pixels, width, height) ==> o.source.window == m.window && !o.produced && o.out == out)
            && (AtGate(m, pixels, width, height) ==>
                  var charge := Charge(zstd, m, pixels, width, height, out);
                  && o.source.window == Rate.Offered(m.window, m.budget, now, charge)
                  && o.produced == Rate.Open(m.window, m.budget, now)
                  && |o.out| - |out| <= (if o.produced then charge else 0)
                  && (o.produced ==> |o.out| == charge))
  {
    hide Compress, Advance, Body;
  }

  lemma {:induction false} RunCharged(zstd: Zstd, m: Source, events: seq<Event>, from: nat, until: nat, largest: nat)
    requires Shaped(m) && FramesOk(events) && m.budget > 0
    requires Clocked(events, from, until) && SentWithin(zstd, m, events, largest)
    ensures var attempts := Attempts(zstd, m, events);
            && Sent(zstd, m, events) <= Admitted(m.window, m.budget, attempts)
            && Within(m.window, m.budget, attempts, largest) && InOrder(attempts, from, until)
    decreases |events|
  {
    hide Offering, Rate.Offered, Rate.Open, Charge, AtGate;
    if events != [] {
      assert FramesOk(events[1..]);
      match events[0]
      case Invalidate => RunCharged(zstd, Invalidated(m), events[1..], from, until, largest);
      case Frame(pixels, width, height, now, out) =>
        OfferCharged(zstd, m, pixels, width, height, now, out);
        OfferShaped(zstd, m, pixels, width, height, now, out);
        var next := Offering(zstd, m, pixels, width, height, now, out).source;
        RunCharged(zstd, next, events[1..], now, until, largest);
        var attempts, rest := Attempts(zstd, m, events), Attempts(zstd, next, events[1..]);
        if AtGate(m, pixels, width, height) {
          assert attempts[1..] == rest;
        }
    }
  }

  lemma OfferShaped(zstd: Zstd, m: Source, pixels: seq<Byte>, width: int, height: int, now: nat, out: seq<Byte>)
    requires Shaped(m) && (ValidDimensions(width, height) ==> |pixels| == Area(height, width * PIXEL))
    ensures Shaped(Offering(zstd, m, pixels, width, height, now, out).source)
  {
    hide Compress, Body, Advance;
  }

  /** The allowance is a ceiling: over any run of offers under a clock that never
  runs backwards, the bytes of all messages produced by any time are at most the
  budget for the time since the window of the first one opened, one budget more,
  and the largest message. */
  lemma MotionCeiling(zstd: Zstd, m: Source, events: seq<Event>, until: nat, largest: nat)
    requires Shaped(m) && FramesOk(events) && m.budget > 0 && m.window == FRESH_WINDOW && until < TWO64
    requires Clocked(events, 0, until) && SentWithin(zstd, m, events, largest)
    ensures var since := Since(m.budget, Attempts(zstd, m, events));
            since <= until && 1000 * Sent(zstd, m, events) <= m.budget * (until - since) + 1000 * (m.budget + largest)
  {
    hide Sent, SentWithin, Attempts, Admitted, Advance;
    RunCharged(zstd, m, events, 0, until, largest);
    CeilingSince(m.budget, Attempts(zstd, m, events), until, largest);
  }

  /** No buffer a message is appended to holds more than `prefix` bytes. */
  ghost predicate Prefixed(events: seq<Event>, prefix: nat) {
    forall k :: 0 <= k < |events| && events[k].Frame? ==> |events[k].out| <= prefix
  }

  lemma ChargeFits(zstd: Zstd, m: Source, pixels: seq<Byte>, width: nat, height: nat, out: seq<Byte>)
    requires Shaped(m) && ValidDimensions(width, height) && |pixels| == Area(height, width * PIXEL)
    ensures Charge(zstd, m, pixels, width, height, out) <= BODY_MAX + 15 + |out|
  {
    hide PutVarint, Body, Compress;
    var body := Body(m, pixels, width, height);
    BodyFits(m, pixels, width, height);
    CompressLength(zstd, body);
    Pow128Values();
    assert |body| < TWO64;
    PutVarintLength(|body|, 10);
  }

  lemma {:induction false} PrefixedWithin(zstd: Zstd, m: Source, events: seq<Event>, prefix: nat)
    requires Shaped(m) && FramesOk(events) && Prefixed(events, prefix) && m.budget > 0
    ensures SentWithin(zstd, m, events, BODY_MAX + 15 + prefix)
    decreases |events|
  {
    hide Offering, Charge, AtGate, Rate.Offered, Rate.Open;
    if events != [] {
      assert FramesOk(events[1..]) && Prefixed(events[1..], prefix);
      match events[0]
      case Invalidate => PrefixedWithin(zstd, Invalidated(m), events[1..], prefix);
      case Frame(pixels, width, height, now, out) =>
        OfferCharged(zstd, m, pixels, width, height, now, out);
        OfferShaped(zstd, m, pixels, width, height, now, out);
        if AtGate(m, pixels, width, height) {
          GateValid(m, pixels, width, height);
          ChargeFits(zstd, m, pixels, width, height, out);
        }
        PrefixedWithin(zstd, Offering(zstd, m, pixels, width, height, now, out).source, events[1..], prefix);
    }
  }

  lemma GateValid(m: Source, pixels: seq<Byte>, width: int, height: int)
    requires AtGate(m, pixels, width, height)
    ensures ValidDimensions(width, height)
  {
  }

  /** The ceiling without a hypothesis about messages: one is at most a body, its
  header and what its buffer held before, a byte of framing in the server. */
  lemma MotionCeilingPrefixed(zstd: Zstd, m: Source, events: seq<Event>, until: nat, prefix: nat)
    requires Shaped(m) && FramesOk(events) && Prefixed(events, prefix)
    requires m.budget > 0 && m.window == FRESH_WINDOW && until < TWO64 && Clocked(events, 0, until)
    ensures var since := Since(m.budget, Attempts(zstd, m, events));
            && since <= until
            && 1000 * Sent(zstd, m, events) <= m.budget * (until - since) + 1000 * (m.budget + BODY_MAX + 15 + prefix)
  {
    hide Sent, SentWithin, Attempts, Since;
    PrefixedWithin(zstd, m, events, prefix);
    MotionCeiling(zstd, m, events, until, BODY_MAX + 15 + prefix);
  }

  // ---- as the source runs it -----------------------------------------------------------------------------

  class MotionPlane {
    var previous: seq<Byte>
    var width: nat
    var height: nat
    var have: bool
    var dropped: nat
    const window: RateWindow

    ghost function View(): Source
      reads this, window
    {
      Source(previous, width, height, have, dropped, window.View(), window.budget)
    }

    constructor (bytesPerSecond: nat)
      ensures fresh(window) && View() == Source([], 0, 0, false, 0, FRESH_WINDOW, bytesPerSecond) && Shaped(View())
    {
      previous, width, height, have, dropped := [], 0, 0, false, 0;
      window := new RateWindow(bytesPerSecond);
    }

    method Invalidate()
      modifies this`have
      ensures View() == Invalidated(old(View()))
    {
      have := false;
    }

    /** The band loop of a delta. */
    method ChangedBands(pixels: seq<Byte>, rows: nat, stride: nat) returns (bands: seq<Byte>, count: nat)
      requires |previous| == |pixels| == Area(rows, stride) && rows <= 8192
      ensures Packed(bands, count) == PackBands(previous, pixels, rows, stride, 0)
    {
      hide PutVarint, PackBands, Area;
      bands, count := [], 0;
      var row := 0;
      while row < rows
        invariant row <= rows
        invariant var rest := PackBands(previous, pixels, rows, stride, row);
                  PackBands(previous, pixels, rows, stride, 0) == Packed(bands + rest.bytes, count + rest.count)
      {
        var end := BandEnd(row, rows);
        PackNext(previous, pixels, rows, stride, row);
        ghost var rest := PackBands(previous, pixels, rows, stride, end);
        if previous[Area(row, stride)..Area(end, stride)] != pixels[Area(row, stride)..Area(end, stride)] {
          var start := WriteVarint(row);
          var size := WriteVarint(end - row);
          var band := start + size + pixels[Area(row, stride)..Area(end, stride)];
          assert bands + (band + rest.bytes) == (bands + band) + rest.bytes;
          bands, count := bands + band, count + 1;
        }
        row := end;
      }
      PackEnd(previous, pixels, rows, stride);
    }

    method OfferFrame(zstd: Zstd, pixels: seq<Byte>, w: int, h: int, now: nat, out: seq<Byte>)
      returns (status: Status, sent: seq<Byte>, produced: bool)
      requires Shaped(View()) && (ValidDimensions(w, h) ==> |pixels| == Area(h, w * PIXEL))
      modifies this, window
      ensures Offer(View(), status, sent, produced) == Offering(zstd, old(View()), pixels, w, h, now, out)
      ensures var m := old(View());
              produced <==>
                && 1 <= w <= 8192 && 1 <= h <= 8192 && w * h * 3 <= 64 * 1024 * 1024
                && (!m.have || m.width != w || m.height != h || m.previous != pixels)
                && (m.budget == 0 || Rate.Open(m.window, m.budget, now))
    {
      OfferSendsIff(zstd, View(), pixels, w, h, now, out);
      hide PutVarint, Compress, Advance, PackBands, Area, Rate.Open;
      status, sent, produced := Ok, out, false;
      if !ValidDimensions(w, h) { return Invalid, out, false; }
      var keyframe := !have || width != w || height != h;
      if !keyframe && previous == pixels { return; }
      if window.budget != 0 {
        window.AdvanceTo(now);
        if window.bytes >= window.budget {
          dropped := dropped + 1;
          return;
        }
      }
      var wide := WriteVarint(w);
      var high := WriteVarint(h);
      var body := wide + high;
      if keyframe {
        body := body + [1] + pixels;
      } else {
        var bands, count := ChangedBands(pixels, h, w * PIXEL);
        assert count == PackBands(previous, pixels, h, w * PIXEL, 0).count;
        BandsLength(previous, pixels, h, w * PIXEL, 0);
        var counted := WriteVarint(count);
        body := body + [0] + counted + bands;
      }
      assert body == old(Body(View(), pixels, w, h));
      sent := out + MAGIC + Compress(zstd, body);
      previous, width, height, have := pixels, w, h, true;
      window.Charge(|sent|);
      produced := true;
    }
  }

  class MotionSink {
    var pixels: seq<Byte>
    var width: nat
    var height: nat

    ghost function View(): Sink
      reads this
    {
      Sink(pixels, width, height)
    }

    constructor ()
      ensures View() == Sink([], 0, 0) && SinkOk(View())
    {
      pixels, width, height := [], 0, 0;
    }

    /** The band loop: every operand is bounded before it is used, and bands already
    painted stay painted when a later one is refused. */
    method PaintAll(plain: seq<Byte>, at: nat, count: nat, rows: nat, stride: nat) returns (status: Status, next: nat)
      requires at <= |plain| && |pixels| == Area(rows, stride)
      modifies this`pixels
      ensures var painted := PaintBands(plain, at, count, rows, stride, old(pixels));
              pixels == painted.pixels && status == painted.status && (status == Ok ==> next == painted.next)
    {
      hide ReadVarint, Overlay;
      var band := 0;
      next, status := at, Ok;
      while band < count
        invariant band <= count && next <= |plain| && |pixels| == Area(rows, stride)
        invariant PaintBands(plain, at, count, rows, stride, old(pixels)) ==
                  PaintBands(plain, next, count - band, rows, stride, pixels)
      {
        var row := GetVarint(plain, next);
        if row.Short? { return Truncated, next; }
        if row.Overlong? { return Protocol, next; }
        var tall := GetVarint(plain, row.next);
        if tall.Short? { return Truncated, next; }
        if tall.Overlong? { return Protocol, next; }
        if tall.value == 0 || row.value >= rows || tall.value > rows - row.value { return Protocol, next; }
        var length := Area(tall.value, stride);
        if |plain| - tall.next < length { return Truncated, next; }
        BandFits(row.value, tall.value, rows, stride);
        pixels := Overlay(pixels, Area(row.value, stride), plain[tall.next..tall.next + length]);
        next, band := tall.next + length, band + 1;
      }
    }

    method ApplyMessage(zstd: Zstd, data: seq<Byte>) returns (status: Status)
      requires SinkOk(View())
      modifies this
      ensures Applied(View(), status) == Apply(zstd, old(View()), data)
    {
      hide ReadVarint, Decompress, PaintBands, Area;
      if |data| < 4 { return Truncated; }
      if data[..4] != MAGIC { return Protocol; }
      var unpacked := Decompress(zstd, data[4..], BODY_MAX);
      if unpacked.Refused? { return unpacked.status; }
      var plain := unpacked.bytes;
      var wide := GetVarint(plain, 0);
      if wide.Short? { return Truncated; }
      if wide.Overlong? { return Protocol; }
      var high := GetVarint(plain, wide.next);
      if high.Short? { return Truncated; }
      if high.Overlong? { return Protocol; }
      if !ValidDimensions(wide.value, high.value) { return Protocol; }
      if high.next >= |plain| { return Truncated; }
      var whole := plain[high.next] % 2 == 1;
      var frame := Area(high.value, wide.value * PIXEL);
      if width != wide.value || height != high.value {
        if !whole { return Protocol; }
        pixels, width, height := seq(frame, _ => 0), wide.value, high.value;
      }
      if whole {
        if |plain| - (high.next + 1) != frame { return Protocol; }
        pixels := plain[high.next + 1..];
        return Ok;
      }
      var count := GetVarint(plain, high.next + 1);
      if count.Short? { return Truncated; }
      if count.Overlong? || count.value > height { return Protocol; }
      var end;
      status, end := PaintAll(plain, count.next, count.value, height, width * PIXEL);
      if status == Ok && end != |plain| { status := Protocol; }
    }
  }
}
