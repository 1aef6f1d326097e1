/** The audio plane (src/audio.c): timestamped blocks that are dropped, never held,
when the allowance is spent, and the sink that reports what is missing. */
module Audio {
  import opened Bytes
  import opened Wire
  import opened Rate

  const BLOCK_MAX: nat := 1024 * 1024
  const PLAIN_MAX: nat := BLOCK_MAX + 64
  const MAGIC: seq<Byte> := [0x4b, 0x4d, 0x41, 0x01]

  predicate ValidFormat(rate: nat, channels: nat) {
    0 < rate <= 384000 && 0 < channels <= 8
  }

  /** How long a block of 16-bit samples plays, in whole milliseconds. */
  function Duration(bytes: nat, rate: nat, channels: nat): nat
    requires ValidFormat(rate, channels)
  {
    bytes / (channels * 2) * 1000 / rate
  }

  // ---- the sender ------------------------------------------------------------------------------

  datatype Source = Source(rate: nat, channels: Byte, dropped: nat, window: Window, budget: nat)

  predicate Formed(a: Source) {
    ValidFormat(a.rate, a.channels)
  }

  function Body(a: Source, pcm: seq<Byte>, timestamp: nat): seq<Byte> {
    PutVarint(a.rate) + ([a.channels] + (PutVarint(timestamp) + (PutVarint(|pcm|) + pcm)))
  }

  datatype Offer = Offer(source: Source, status: Status, out: seq<Byte>, produced: bool)

  predicate ValidBlock(pcm: seq<Byte>) {
    0 < |pcm| <= BLOCK_MAX
  }

  function Message(zstd: Zstd, a: Source, pcm: seq<Byte>, timestamp: nat): seq<Byte> {
    MAGIC + Compress(zstd, Body(a, pcm, timestamp))
  }

  /** kmx_audio_offer; the whole buffer is what the allowance is charged. */
  function Offering(zstd: Zstd, a: Source, pcm: seq<Byte>, timestamp: nat, out: seq<Byte>): Offer {
    if !ValidBlock(pcm) then Offer(a, Invalid, out, false)
    else
      var window := if a.budget == 0 then a.window else Advance(a.window, a.budget, timestamp);
      if a.budget != 0 && window.bytes >= a.budget then
        Offer(a.(window := window, dropped := a.dropped + 1), Ok, out, false)
      else
        var sent := out + Message(zstd, a, pcm, timestamp);
        var charged := if a.budget == 0 then window else window.(bytes := window.bytes + |sent|);
        Offer(a.(window := charged), Ok, sent, true)
  }

  // ---- the sink --------------------------------------------------------------------------------

  datatype Sink = Sink(pcm: seq<Byte>, rate: nat, channels: nat, timestamp: nat, expected: nat, gap: nat,
                       primed: bool)

  const FRESH_SINK := Sink([], 0, 0, 0, 0, 0, false)

  datatype Plain = Plain(rate: nat, channels: nat, timestamp: nat, pcm: seq<Byte>) | Bad(status: Status)

  function Refusal(read: Scan): Plain
    requires !read.Scanned?
  {
    Bad(if read.Short? then Truncated else Protocol)
  }

  /** The decompressed block. */
  function ReadPlain(plain: seq<Byte>): Plain {
    var rate := ReadVarint(plain, 0);
    if !rate.Scanned? then Refusal(rate)
    else if rate.next >= |plain| then Bad(Truncated)
    else
      var channels := plain[rate.next];
      var timestamp := ReadVarint(plain, rate.next + 1);
      if !timestamp.Scanned? then Refusal(timestamp)
      else
        var length := ReadVarint(plain, timestamp.next);
        if !length.Scanned? then Refusal(length)
        else if !ValidFormat(rate.value, channels) || length.value == 0 || length.value > BLOCK_MAX then Bad(Protocol)
        else if |plain| - length.next != length.value then Bad(Protocol)
        else Plain(rate.value, channels, timestamp.value, plain[length.next..])
  }

  /** A block that starts after the previous one ended reports the gap. */
  function Heard(s: Sink, rate: nat, channels: nat, timestamp: nat, pcm: seq<Byte>): Sink
    requires ValidFormat(rate, channels)
  {
    Sink(pcm, rate, channels, timestamp, (timestamp + Duration(|pcm|, rate, channels)) % TWO64,
         if s.primed && timestamp > s.expected then (s.gap + (timestamp - s.expected)) % TWO64 else s.gap, true)
  }

  datatype Applied = Applied(sink: Sink, status: Status)

  /** kmx_audio_sink_apply. */
  function Apply(zstd: Zstd, s: Sink, data: seq<Byte>): Applied {
    if |data| < 4 then Applied(s, Truncated)
    else if data[..4] != MAGIC then Applied(s, Protocol)
    else match Decompress(zstd, data[4..], PLAIN_MAX)
      case Refused(status) => Applied(s, status)
      case Unpacked(plain) =>
        match ReadPlain(plain)
        case Bad(status) => Applied(s, status)
        case Plain(rate, channels, timestamp, pcm) =>
          if ValidFormat(rate, channels) then Applied(Heard(s, rate, channels, timestamp, pcm), Ok)
          else Applied(s, Protocol)
  }

  /** A block that is accepted is one the player can play, and a refused one changes
  nothing. */
  lemma AcceptedIsPlayable(zstd: Zstd, s: Sink, data: seq<Byte>)
    ensures var a := Apply(zstd, s, data);
            if a.status == Ok then
              && 1 <= a.sink.rate <= 384000 && 1 <= a.sink.channels <= 8 && 1 <= |a.sink.pcm| <= 1024 * 1024
              && a.sink.primed && (a.sink.gap == s.gap || (s.primed && a.sink.timestamp > s.expected))
            else a.sink == s
  {
    hide ReadVarint, Decompress;
    if |data| >= 4 { RefusalIsAnError(zstd, data[4..], PLAIN_MAX); }
  }

  // ---- agreement -----------------------------------------------------------------------------------

  lemma BodyReads(a: Source, pcm: seq<Byte>, timestamp: nat)
    requires Formed(a) && ValidBlock(pcm) && timestamp < TWO64
    ensures ReadPlain(Body(a, pcm, timestamp)) == Plain(a.rate, a.channels, timestamp, pcm)
    ensures |Body(a, pcm, timestamp)| <= PLAIN_MAX
  {
    hide PutVarint, ReadVarint, At;
    var body := Body(a, pcm, timestamp);
    var rate, clock, size := PutVarint(a.rate), PutVarint(timestamp), PutVarint(|pcm|);
    Pow128Values();
    PutVarintLength(a.rate, 10);
    PutVarintLength(timestamp, 10);
    PutVarintLength(|pcm|, 10);
    AtWhole(body);
    AtSplit(body, 0, rate, [a.channels] + (clock + (size + pcm)));
    AtSplit(body, |rate|, [a.channels], clock + (size + pcm));
    AtSplit(body, |rate| + 1, clock, size + pcm);
    AtSplit(body, |rate| + 1 + |clock|, size, pcm);
    VarintRoundTrip(body, 0, a.rate);
    VarintRoundTrip(body, |rate| + 1, timestamp);
    VarintRoundTrip(body, |rate| + 1 + |clock|, |pcm|);
    assert body[|rate|] == a.channels;
    assert body[|rate| + 1 + |clock| + |size|..] == pcm;
  }

  /** A block that can be read is the whole of what was unpacked: with anything after it,
  it is refused. */
  lemma BlockIsWhole(plain: seq<Byte>, extra: seq<Byte>)
    requires ReadPlain(plain).Plain? && extra != []
    ensures ReadPlain(plain + extra) == Bad(Protocol)
  {
    hide ReadVarint;
    var rate := ReadVarint(plain, 0);
    var timestamp := ReadVarint(plain, rate.next + 1);
    VarintAgree(plain, plain + extra, 0);
    VarintAgree(plain, plain + extra, rate.next + 1);
    VarintAgree(plain, plain + extra, timestamp.next);
  }

  /** A block that was produced is accepted, and the sink then holds exactly it. */
  lemma OfferAgrees(zstd: Zstd, a: Source, s: Sink, pcm: seq<Byte>, timestamp: nat, out: seq<Byte>)
    requires Lossless(zstd) && Formed(a) && timestamp < TWO64
    ensures var o := Offering(zstd, a, pcm, timestamp, out);
            && Formed(o.source) && o.source.rate == a.rate && o.source.channels == a.channels
            && (if o.produced then
                  && out <= o.out
                  && Apply(zstd, s, o.out[|out|..]) == Applied(Heard(s, a.rate, a.channels, timestamp, pcm), Ok)
                else o.out == out)
  {
    hide Body, ReadPlain, Compress, Decompress, Advance, Heard;
    var o := Offering(zstd, a, pcm, timestamp, out);
    if o.produced {
      var body := Body(a, pcm, timestamp);
      assert o.out[|out|..] == MAGIC + Compress(zstd, body);
      assert (MAGIC + Compress(zstd, body))[4..] == Compress(zstd, body);
      BodyReads(a, pcm, timestamp);
      CompressRoundTrip(zstd, body, PLAIN_MAX);
    }
  }

  /** Exactly when a block is sent: when it holds one to a mebibyte of samples, and when
  there is no allowance or its gate is open; one the gate keeps back is counted. */
  lemma OfferSendsIff(zstd: Zstd, a: Source, pcm: seq<Byte>, timestamp: nat, out: seq<Byte>)
    ensures var o := Offering(zstd, a, pcm, timestamp, out);
            var block := 1 <= |pcm| <= 1024 * 1024;
            var passes := a.budget == 0 || Rate.Open(a.window, a.budget, timestamp);
            && (o.produced <==> block && passes)
            && o.status == (if block then Ok else Invalid)
            && o.source.dropped == a.dropped + (if block && !passes then 1 else 0)
            && (o.produced ==> |o.out| > |out|)
  {
    hide Message, Advance;
    assert |Message(zstd, a, pcm, timestamp)| > 0 by { MessageLong(zstd, a, pcm, timestamp); }
  }

  lemma MessageLong(zstd: Zstd, a: Source, pcm: seq<Byte>, timestamp: nat)
    ensures |Message(zstd, a, pcm, timestamp)| > 0
  {
    hide Compress, Body;
  }

  /** A captured block offered to the plane. */
  datatype Capture = Capture(pcm: seq<Byte>, timestamp: nat, out: seq<Byte>)

  datatype Played = Played(source: Source, sink: Sink, rejected: nat)

  /** Every produced message applied in order. */
  ghost function Play(zstd: Zstd, a: Source, s: Sink, captures: seq<Capture>): Played
    decreases |captures|
  {
    if captures == [] then Played(a, s, 0)
    else
      var c := captures[0];
      var o := Offering(zstd, a, c.pcm, c.timestamp, c.out);
      if !o.produced then Play(zstd, o.source, s, captures[1..])
      else
        var applied := Apply(zstd, s, o.out[|c.out|..]);
        var rest := Play(zstd, o.source, applied.sink, captures[1..]);
        rest.(rejected := rest.rejected + (if applied.status == Ok then 0 else 1))
  }

  // ---- what is missing is reported -------------------------------------------------------------------

  /** Blocks captured without a break: each starts where the one before it ended. */
  ghost predicate Steady(a: Source, captures: seq<Capture>, clock: nat)
    requires Formed(a)
    decreases |captures|
  {
    captures != [] ==>
      var c := captures[0];
      ValidBlock(c.pcm) && c.timestamp == clock &&
      Steady(a, captures[1..], clock + Duration(|c.pcm|, a.rate, a.channels))
  }

  /** When the last block ends. */
  function End(a: Source, captures: seq<Capture>, clock: nat): (end: nat)
    requires Formed(a)
    ensures clock <= end
    decreases |captures|
  {
    if captures == [] then clock
    else End(a, captures[1..], clock + Duration(|captures[0].pcm|, a.rate, a.channels))
  }

  /** Milliseconds of blocks dropped once the sink had heard one. */
  ghost function Missing(zstd: Zstd, a: Source, primed: bool, captures: seq<Capture>): nat
    requires Formed(a)
    decreases |captures|
  {
    if captures == [] then 0
    else
      var c := captures[0];
      var o := Offering(zstd, a, c.pcm, c.timestamp, c.out);
      (if primed && !o.produced then Duration(|c.pcm|, a.rate, a.channels) else 0) +
      Missing(zstd, o.source, primed || o.produced, captures[1..])
  }

  /** No silent loss: over any blocks captured without a break, none produced is
  rejected, and the gap the sink has reported, with the time since its last block
  ended, is exactly the time of the blocks dropped since its first. */
  lemma {:induction false} GapIsDropped(zstd: Zstd, a: Source, s: Sink, captures: seq<Capture>, clock: nat)
    requires Lossless(zstd) && Formed(a) && Steady(a, captures, clock)
    requires s.primed ==> s.expected <= clock
    requires var end := End(a, captures, clock);
             end < TWO64 && s.gap + (end - if s.primed then s.expected else clock) < TWO64
    ensures var played := Play(zstd, a, s, captures);
            var end := End(a, captures, clock);
            && played.rejected == 0 && played.source.rate == a.rate && played.source.channels == a.channels
            && (if played.sink.primed then
                  && played.sink.expected <= end
                  && played.sink.gap + (end - played.sink.expected) ==
                     s.gap + (if s.primed then clock - s.expected else 0) + Missing(zstd, a, s.primed, captures)
                else played.sink == s)
    decreases |captures|
  {
    hide Offering, Apply, Duration;
    if captures != [] {
      var c := captures[0];
      var o := Offering(zstd, a, c.pcm, c.timestamp, c.out);
      var next := clock + Duration(|c.pcm|, a.rate, a.channels);
      OfferAgrees(zstd, a, s, c.pcm, c.timestamp, c.out);
      SameFormat(a, o.source, captures[1..], next);
      var heard := if o.produced then Heard(s, a.rate, a.channels, clock, c.pcm) else s;
      assert next <= End(a, captures[1..], next);
      GapIsDropped(zstd, o.source, heard, captures[1..], next);
    }
  }

  lemma {:induction false} SameFormat(a: Source, b: Source, captures: seq<Capture>, clock: nat)
    requires Formed(a) && Formed(b) && a.rate == b.rate && a.channels == b.channels
    ensures Steady(a, captures, clock) <==> Steady(b, captures, clock)
    ensures End(a, captures, clock) == End(b, captures, clock)
    decreases |captures|
  {
    hide Duration;
    if captures != [] {
      SameFormat(a, b, captures[1..], clock + Duration(|captures[0].pcm|, a.rate, a.channels));
    }
  }

  // ---- the ceiling -----------------------------------------------------------------------------------

  /** The bytes of every message produced along a run. */
  ghost function Sent(zstd: Zstd, a: Source, captures: seq<Capture>): nat
    decreases |captures|
  {
    if captures == [] then 0
    else
      var c := captures[0];
      var o := Offering(zstd, a, c.pcm, c.timestamp, c.out);
      |o.out| - |c.out| + Sent(zstd, o.source, captures[1..])
  }

  /** The timestamps, which are this plane's clock, never run backwards, and no
  buffer holds more than `prefix` bytes before its block. */
  ghost predicate Clocked(captures: seq<Capture>, from: nat, until: nat, prefix: nat)
    decreases |captures|
  {
    if captures == [] then from <= until
    else
      from <= captures[0].timestamp && |captures[0].out| <= prefix &&
      Clocked(captures[1..], captures[0].timestamp, until, prefix)
  }

  function Charge(zstd: Zstd, a: Source, c: Capture): nat {
    |c.out| + |Message(zstd, a, c.pcm, c.timestamp)|
  }

  /** What the run asks of its rate window; a malformed block asks nothing. */
  ghost function Attempts(zstd: Zstd, a: Source, captures: seq<Capture>): seq<Attempt>
    decreases |captures|
  {
    if captures == [] then []
    else
      var c := captures[0];
      var rest := Attempts(zstd, Offering(zstd, a, c.pcm, c.timestamp, c.out).source, captures[1..]);
      if ValidBlock(c.pcm) then [Attempt(c.timestamp, Charge(zstd, a, c))] + rest else rest
  }

  lemma OfferCharged(zstd: Zstd, a: Source, c: Capture)
    requires a.budget > 0
    ensures var o := Offering(zstd, a, c.pcm, c.timestamp, c.out);
            && o.source.budget == a.budget && o.source.rate == a.rate && o.source.channels == a.channels
            && (!ValidBlock(c.pcm) ==> o.source.window == a.window && o.out == c.out)
            && (ValidBlock(c.pcm) ==>
                  && o.source.window == Rate.Offered(a.window, a.budget, c.timestamp, Charge(zstd, a, c))
                  && |o.out| - |c.out| <= (if Rate.Open(a.window, a.budget, c.timestamp) then Charge(zstd, a, c)
                                             else 0))
  {
    hide Message, Advance;
  }

  lemma ChargeFits(zstd: Zstd, a: Source, c: Capture)
    requires Formed(a) && ValidBlock(c.pcm) && c.timestamp < TWO64
    ensures Charge(zstd, a, c) <= PLAIN_MAX + 15 + |c.out|
  {
    hide PutVarint, Compress, Body;
    var body := Body(a, c.pcm, c.timestamp);
    BodyReads(a, c.pcm, c.timestamp);
    CompressLength(zstd, body);
    Pow128Values();
    PutVarintLength(|body|, 10);
  }

  lemma {:induction false} RunCharged(zstd: Zstd, a: Source, captures: seq<Capture>, from: nat, until: nat, prefix: nat)
    requires Formed(a) && a.budget > 0 && Clocked(captures, from, until, prefix) && until < TWO64
    ensures var attempts := Attempts(zstd, a, captures);
            && Sent(zstd, a, captures) <= Admitted(a.window, a.budget, attempts)
            && Within(a.window, a.budget, attempts, PLAIN_MAX + 15 + prefix) && InOrder(attempts, from, until)
    decreases |captures|
  {
    hide Offering, Rate.Offered, Rate.Open, Charge;
    if captures != [] {
      var c := captures[0];
      OfferCharged(zstd, a, c);
      ClockedLess(captures[1..], c.timestamp, until, prefix);
      var next := Offering(zstd, a, c.pcm, c.timestamp, c.out).source;
      RunCharged(zstd, next, captures[1..], c.timestamp, until, prefix);
      if ValidBlock(c.pcm) {
        ChargeFits(zstd, a, c);
        assert Attempts(zstd, a, captures)[1..] == Attempts(zstd, next, captures[1..]);
      }
    }
  }

  lemma {:induction false} ClockedLess(captures: seq<Capture>, from: nat, until: nat, prefix: nat)
    requires Clocked(captures, from, until, prefix)
    ensures from <= until
    decreases |captures|
  {
    if captures != [] { ClockedLess(captures[1..], captures[0].timestamp, until, prefix); }
  }

  /** The audio allowance is a ceiling too: over any run of blocks whose timestamps
  never run backwards, the bytes of all messages produced by any time are at most
  the budget for the time since the first window opened, one budget more, and one
  whole block with its header and what its buffer held before. */
  lemma AudioCeiling(zstd: Zstd, a: Source, captures: seq<Capture>, until: nat, prefix: nat)
    requires Formed(a) && a.budget > 0 && a.window == FRESH_WINDOW
    requires Clocked(captures, 0, until, prefix) && until < TWO64
    ensures var since := Since(a.budget, Attempts(zstd, a, captures));
            && since <= until
            && 1000 * Sent(zstd, a, captures) <= a.budget * (until - since) +
               1000 * (a.budget + PLAIN_MAX + 15 + prefix)
  {
    hide Sent, Attempts, Admitted, Within, Since;
    RunCharged(zstd, a, captures, 0, until, prefix);
    CeilingSince(a.budget, Attempts(zstd, a, captures), until, PLAIN_MAX + 15 + prefix);
  }

  // ---- as the source runs it ---------------------------------------------------------------------------

  class AudioPlane {
    const rate: nat
    const channels: Byte
    var dropped: nat
    const window: RateWindow

    ghost function View(): Source
      reads this, window
    {
      Source(rate, channels, dropped, window.View(), window.budget)
    }

    constructor (rate: nat, channels: Byte, bytesPerSecond: nat)
      ensures fresh(window) && View() == Source(rate, channels, 0, FRESH_WINDOW, bytesPerSecond)
    {
      this.rate, this.channels, dropped := rate, channels, 0;
      window := new RateWindow(bytesPerSecond);
    }

    method OfferBlock(zstd: Zstd, pcm: seq<Byte>, timestamp: nat, out: seq<Byte>)
      returns (status: Status, sent: seq<Byte>, produced: bool)
      requires timestamp < TWO64 && rate < TWO64
      modifies this`dropped, window
      ensures Offer(View(), status, sent, produced) == Offering(zstd, old(View()), pcm, timestamp, out)
    {
      hide PutVarint, Compress, Advance;
      status, sent, produced := Ok, out, false;
      if |pcm| == 0 || |pcm| > BLOCK_MAX { return Invalid, out, false; }
      if window.budget != 0 {
        window.AdvanceTo(timestamp);
        if window.bytes >= window.budget {
          dropped := dropped + 1;
          return;
        }
      }
      var hertz := WriteVarint(rate);
      var clock := WriteVarint(timestamp);
      var size := WriteVarint(|pcm|);
      var body := hertz + [channels] + clock + size + pcm;
      assert body == old(Body(View(), pcm, timestamp));
      sent := out + MAGIC + Compress(zstd, body);
      assert sent == out + old(Message(zstd, View(), pcm, timestamp));
      window.Charge(|sent|);
      produced := true;
    }
  }

  class AudioSink {
    var pcm: seq<Byte>
    var rate: nat
    var channels: nat
    var timestamp: nat
    var expected: nat
    var gap: nat
    var primed: bool

    ghost function View(): Sink
      reads this
    {
      Sink(pcm, rate, channels, timestamp, expected, gap, primed)
    }

    constructor ()
      ensures View() == FRESH_SINK
    {
      pcm, rate, channels, timestamp, expected, gap, primed := [], 0, 0, 0, 0, 0, false;
    }

    method ApplyBlock(zstd: Zstd, data: seq<Byte>) returns (status: Status)
      modifies this
      ensures Applied(View(), status) == Apply(zstd, old(View()), data)
    {
      hide ReadVarint, Decompress;
      if |data| < 4 { return Truncated; }
      if data[..4] != MAGIC { return Protocol; }
      var unpacked := Decompress(zstd, data[4..], PLAIN_MAX);
      if unpacked.Refused? { return unpacked.status; }
      var plain := unpacked.bytes;
      var hertz := GetVarint(plain, 0);
      if hertz.Short? { return Truncated; }
      if hertz.Overlong? { return Protocol; }
      if hertz.next >= |plain| { return Truncated; }
      var stereo := plain[hertz.next];
      var clock := GetVarint(plain, hertz.next + 1);
      if clock.Short? { return Truncated; }
      if clock.Overlong? { return Protocol; }
      var size := GetVarint(plain, clock.next);
      if size.Short? { return Truncated; }
      if size.Overlong? { return Protocol; }
      if !ValidFormat(hertz.value, stereo) || size.value == 0 || size.value > BLOCK_MAX { return Protocol; }
      if |plain| - size.next != size.value { return Protocol; }
      pcm, rate, channels, timestamp := plain[size.next..], hertz.value, stereo, clock.value;
      if primed && timestamp > expected { gap := (gap + (timestamp - expected)) % TWO64; }
      expected := (timestamp + Duration(|pcm|, rate, channels)) % TWO64;
      primed := true;
      status := Ok;
    }
  }
}
