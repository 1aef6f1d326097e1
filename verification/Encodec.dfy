/** The encoder side of the EnCodec pipeline (tools/kmx_encodec.c): a scheduler and
a worker joined by two rings and one monotone boundary, interleaved one atomic
access at a time. */
module Encodec {
  import opened Bytes
  import opened Ring

  const ENCODER_INPUT_SLOTS: nat := 6
  const ENCODER_RING_SLOTS: nat := 8
  const OUTPUT_SLOTS: nat := 2
  const STALE_MS: nat := 250
  const FRAME_SAMPLES: nat := 960
  const CAPTURE_MAX_FRAMES: nat := 1920

  datatype Input = Input(pts: nat, offered: nat, generation: nat, pcm: seq<Byte>)

  /** History: an input that was resampled, and how many samples it gave. */
  datatype Chunk = Chunk(input: Input, frames: nat)

  /** History: `sources` is the input each of the packet's samples came from, `index`
  its number in its epoch and `fed` what the epoch had resampled when it was made. */
  datatype Packet = Packet(pts: nat, reset: bool, created: nat, generation: nat, sources: seq<Input>,
                           index: nat, fed: seq<Chunk>)

  /** break_epoch: load, then compare-and-swap until the boundary is reached. */
  datatype Break = Loading(boundary: nat) | Trying(boundary: nat, previous: nat)

  datatype Scheduler =
    | Idle
    | Offering(pts: nat, offered: nat, pcm: seq<Byte>)
    | Admitting(pts: nat, offered: nat, pcm: seq<Byte>)
    | Tagging(pts: nat, offered: nat, pcm: seq<Byte>)
    | Storing
    | OfferBreaking(broke: Break)
    | Polling
    | Copying
    | Popping
    | Checking(packet: Packet)
    | Timing(packet: Packet)
    | Aging(packet: Packet)
    | DropBreaking(packet: Packet, broke: Break)

  datatype Turn =
    | Top
    | Room
    | Looking
    | Reading
    | Taking
    | Judging(input: Input)
    | Starting(input: Input)
    | Feeding(input: Input, left: nat)
    | Publishing(input: Input, left: nat, packet: Packet)
    | Putting(input: Input, left: nat, packet: Packet)
    | Committing(input: Input, left: nat, packet: Packet)
    | Breaking(broke: Break)

  /** `primed` says the native encoder was reset and has produced nothing since;
  `samples` holds the source of each accumulated sample. History: `fed` is what was
  resampled since the reset and `sent` how many packets were sent since. */
  datatype Worker = Worker(turn: Turn, generation: nat, nextCapture: nat, nextPts: nat, oldest: nat,
                           started: bool, primed: bool, samples: seq<Input>, sent: nat, fed: seq<Chunk>)

  /** History: `returned` is what receive handed out, `handled` how many packets it
  has decided about, `kept` whether it returned the last of them. */
  datatype State = State(input: Ring<Input>, output: Ring<Packet>, broken: nat, clock: nat,
                         scheduler: Scheduler, worker: Worker,
                         returned: seq<Packet>, handled: nat, kept: bool)

  /** What is not decided by the state: calls, the clock, spurious failures of the
  weak compare-and-swap, the resampler's yield and the native encoder's success. */
  datatype Event =
    | Offer(pts: nat, pcm: seq<Byte>)
    | Receive
    | Scheduled(spurious: bool)
    | Worked(spurious: bool, frames: int, encoded: bool)
    | Tick(elapsed: nat)

  function Initial(inputSlots: seq<Input>, outputSlots: seq<Packet>, clock: nat): State {
    State(NewRing(inputSlots, ENCODER_INPUT_SLOTS), NewRing(outputSlots, OUTPUT_SLOTS), 0, clock,
          Idle, Worker(Top, 0, 0, 0, 0, false, false, [], 0, []), [], 0, false)
  }

  /** The first whole second after `pts`, saturating. */
  function Boundary(pts: nat): nat {
    if pts > TWO64 - 1 - 1000 then TWO64 - 1 else (pts / 1000 + 1) * 1000
  }

  predicate Stale(clock: nat, since: nat) {
    (clock - since) % TWO64 > STALE_MS
  }

  datatype Broke = Broke(broken: nat, next: Option<Break>)

  /** One access of break_epoch; no next step when it is done. */
  function BreakStep(broken: nat, broke: Break, spurious: bool): Broke {
    match broke
    case Loading(boundary) => Broke(broken, if broken < boundary then Some(Trying(boundary, broken)) else None)
    case Trying(boundary, previous) =>
      if previous == broken && !spurious then Broke(boundary, None)
      else Broke(broken, if broken < boundary then Some(Trying(boundary, broken)) else None)
  }

  function Dropped(s: State): State {
    s.(scheduler := Polling, handled := s.handled + 1, kept := false)
  }

  function SchedulerStep(s: State, spurious: bool): State {
    match s.scheduler
    case Idle => s
    case Offering(pts, offered, pcm) =>
      if pts < s.broken then s.(scheduler := Idle) else s.(scheduler := Admitting(pts, offered, pcm))
    case Admitting(pts, offered, pcm) =>
      var input := CheckedRoom(s.input);
      if input.producer.Checked? then s.(input := input, scheduler := Tagging(pts, offered, pcm))
      else s.(scheduler := OfferBreaking(Loading(Boundary(pts))))
    case Tagging(pts, offered, pcm) =>
      s.(input := Filled(s.input, Input(pts, offered, s.broken, pcm)), scheduler := Storing)
    case Storing => s.(input := Stored(s.input), scheduler := Idle)
    case OfferBreaking(broke) =>
      var b := BreakStep(s.broken, broke, spurious);
      s.(broken := b.broken, scheduler := if b.next.Some? then OfferBreaking(b.next.value) else Idle)
    case Polling =>
      var output := CheckedItems(s.output);
      s.(output := output, scheduler := if output.consumer.Ready? then Copying else Idle)
    case Copying => s.(output := ReadItem(s.output), scheduler := Popping)
    case Popping =>
      if s.output.consumer.Holding? then
        s.(output := Taken(s.output), scheduler := Checking(s.output.consumer.item))
      else s
    case Checking(packet) =>
      if packet.generation != s.broken then Dropped(s) else s.(scheduler := Timing(packet))
    case Timing(packet) =>
      if packet.pts < s.broken then Dropped(s) else s.(scheduler := Aging(packet))
    case Aging(packet) =>
      if Stale(s.clock, packet.created) then s.(scheduler := DropBreaking(packet, Loading(Boundary(packet.pts))))
      else s.(scheduler := Idle, returned := s.returned + [packet], handled := s.handled + 1, kept := true)
    case DropBreaking(packet, broke) =>
      var b := BreakStep(s.broken, broke, spurious);
      if b.next.Some? then s.(broken := b.broken, scheduler := DropBreaking(packet, b.next.value))
      else Dropped(s.(broken := b.broken))
  }

  function Stopped(w: Worker, boundary: nat): Worker {
    w.(started := false, samples := [], turn := Breaking(Loading(boundary)))
  }

  /** The start of an epoch, if one is due, and the resampling. */
  function Started(w: Worker, input: Input, frames: int): Worker {
    if (!w.started || input.pts != w.nextCapture) && input.pts % 1000 != 0 then Stopped(w, Boundary(input.pts))
    else
      var ready := if !w.started || input.pts != w.nextCapture
                   then w.(nextPts := input.pts, samples := [], started := true, primed := true, sent := 0, fed := [])
                   else w;
      var next := ready.(nextCapture := (input.pts + 40) % TWO64);
      if frames < 0 then Stopped(next, Boundary(input.pts))
      else next.(turn := Feeding(input, frames), fed := ready.fed + [Chunk(input, frames)])
  }

  /** One more sample; the last of a frame runs the native encoder. */
  function Fed(w: Worker, input: Input, left: nat, encoded: bool, clock: nat): Worker {
    if left == 0 then w.(turn := Top)
    else
      var oldest := if w.samples == [] then input.offered else w.oldest;
      var samples := w.samples + [input];
      if |samples| < FRAME_SAMPLES then w.(oldest := oldest, samples := samples, turn := Feeding(input, left - 1))
      else
        var packet := Packet(w.nextPts, w.primed, oldest, w.generation, samples, w.sent, w.fed);
        var emptied := w.(oldest := oldest, samples := [], primed := false);
        if !encoded || Stale(clock, oldest) then Stopped(emptied, Boundary(input.pts))
        else emptied.(turn := Publishing(input, left - 1, packet))
  }

  function WorkerStep(s: State, spurious: bool, frames: int, encoded: bool): State {
    var w := s.worker;
    match w.turn
    case Top =>
      s.(worker := if w.generation != s.broken
                   then w.(turn := Room, generation := s.broken, started := false, samples := [])
                   else w.(turn := Room))
    case Room =>
      s.(worker := w.(turn := if Live(s.output) >= OUTPUT_SLOTS then Top else Looking))
    case Looking =>
      var input := CheckedItems(s.input);
      s.(input := input, worker := w.(turn := if input.consumer.Ready? then Reading else Top))
    case Reading => s.(input := ReadItem(s.input), worker := w.(turn := Taking))
    case Taking =>
      if !s.input.consumer.Holding? then s
      else
        var input := s.input.consumer.item;
        s.(input := Taken(s.input),
           worker := w.(turn := if input.generation != w.generation then Top else Judging(input)))
    case Judging(input) =>
      s.(worker := if input.pts < s.broken then w.(started := false, samples := [], turn := Top)
                   else if Stale(s.clock, input.offered) then Stopped(w, Boundary(input.pts))
                   else w.(turn := Starting(input)))
    case Starting(input) => s.(worker := Started(w, input, frames))
    case Feeding(input, left) => s.(worker := Fed(w, input, left, encoded, s.clock))
    case Publishing(input, left, packet) =>
      var output := CheckedRoom(s.output);
      if output.producer.Checked? then s.(output := output, worker := w.(turn := Putting(input, left, packet)))
      else s.(worker := w.(started := false, turn := Breaking(Loading(Boundary(packet.pts)))))
    case Putting(input, left, packet) =>
      s.(output := Filled(s.output, packet), worker := w.(turn := Committing(input, left, packet)))
    case Committing(input, left, packet) =>
      s.(output := Stored(s.output),
         worker := w.(nextPts := (w.nextPts + 40) % TWO64, sent := w.sent + 1, turn := Feeding(input, left)))
    case Breaking(broke) =>
      var b := BreakStep(s.broken, broke, spurious);
      s.(broken := b.broken, worker := w.(turn := if b.next.Some? then Breaking(b.next.value) else Top))
  }

  function Step(s: State, event: Event): State {
    match event
    case Offer(pts, pcm) =>
      if s.scheduler.Idle? && pts % 40 == 0 && pts <= TWO64 - 1 - 1000
      then s.(scheduler := Offering(pts, s.clock, pcm)) else s
    case Receive => if s.scheduler.Idle? then s.(scheduler := Polling) else s
    case Scheduled(spurious) => SchedulerStep(s, spurious)
    case Worked(spurious, frames, encoded) =>
      WorkerStep(s, spurious, if frames <= CAPTURE_MAX_FRAMES then frames else CAPTURE_MAX_FRAMES, encoded)
    case Tick(elapsed) => s.(clock := s.clock + elapsed)
  }
}
