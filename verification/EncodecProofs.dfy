/** What every interleaving of the encoder pipeline keeps: gap-free packets from
one generation, and rings that lose, repeat and overwrite nothing. */
module EncodecProofs {
  import opened Bytes
  import opened Ring
  import opened Encodec

  /** The latest capture time an offer is accepted with. */
  const LATEST: nat := TWO64 - 1 - 1000

  ghost predicate FromEpoch(sources: seq<Input>, generation: nat) {
    forall k :: 0 <= k < |sources| ==> sources[k].generation == generation
  }

  /** Forty milliseconds on, by a clock of 64 bits. */
  function NextPts(pts: nat): nat {
    (pts + 40) % TWO64
  }

  /** The packet before this one in the same epoch ended where this one starts. */
  ghost predicate Follows(log: seq<Packet>, pts: nat, generation: nat) {
    log != [] && NextPts(log[|log| - 1].pts) == pts && log[|log| - 1].generation == generation
  }

  /** Packets start at whole seconds and every 40 ms on, so the clock is even. */
  predicate OnClock(pts: nat) {
    pts < TWO64 && pts % 8 == 0
  }

  ghost predicate PacketOk(log: seq<Packet>, packet: Packet) {
    && |packet.sources| == FRAME_SAMPLES && FromEpoch(packet.sources, packet.generation)
    && OnClock(packet.pts)
    && (if packet.reset then packet.pts % 1000 == 0 else Follows(log, packet.pts, packet.generation))
  }

  ghost predicate Published(log: seq<Packet>, broken: nat) {
    forall n :: 0 <= n < |log| ==> PacketOk(log[..n], log[n]) && log[n].generation <= broken
  }

  ghost predicate InputOk(input: Input, broken: nat) {
    input.pts <= LATEST && input.generation <= broken
  }

  ghost predicate InputsOk(r: Ring<Input>, broken: nat) {
    && (forall k :: 0 <= k < |r.accepted| ==> InputOk(r.accepted[k], broken))
    && (r.producer.Wrote? ==> InputOk(r.producer.item, broken))
  }

  /** Who is at which ring. */
  ghost predicate Places(s: State) {
    && (s.input.producer.Checked? <==> s.scheduler.Tagging?) && (s.input.producer.Wrote? <==> s.scheduler.Storing?)
    && (s.output.consumer.Ready? <==> s.scheduler.Copying?) && (s.output.consumer.Holding? <==> s.scheduler.Popping?)
    && (s.input.consumer.Ready? <==> s.worker.turn.Reading?) && (s.input.consumer.Holding? <==> s.worker.turn.Taking?)
    && (s.output.producer.Checked? <==> s.worker.turn.Putting?) &&
       (s.output.producer.Wrote? <==> s.worker.turn.Committing?)
    && (s.worker.turn.Committing? ==> s.output.producer == Wrote(s.worker.turn.packet))
  }

  predicate HasPacket(turn: Turn) {
    turn.Publishing? || turn.Putting? || turn.Committing?
  }

  ghost predicate WorkerOk(w: Worker, log: seq<Packet>, broken: nat) {
    && w.generation <= broken
    && (w.turn.Judging? ==> InputOk(w.turn.input, broken) && w.turn.input.generation == w.generation)
    && (w.turn.Starting? ==>
          InputOk(w.turn.input, broken) && w.turn.input.generation == w.generation <= w.turn.input.pts)
    && (w.turn.Feeding? || HasPacket(w.turn) ==>
          w.started && InputOk(w.turn.input, broken) && w.turn.input.generation == w.generation)
    && (if HasPacket(w.turn) then
          var packet := w.turn.packet;
          && w.samples == [] && !w.primed && packet.pts == w.nextPts && packet.generation == w.generation
          && PacketOk(log, packet)
        else w.started ==>
          && |w.samples| < FRAME_SAMPLES && FromEpoch(w.samples, w.generation) && OnClock(w.nextPts)
          && (if w.primed then w.nextPts % 1000 == 0 else Follows(log, w.nextPts, w.generation)))
  }

  predicate Deciding(scheduler: Scheduler) {
    scheduler.Checking? || scheduler.Timing? || scheduler.Aging? || scheduler.DropBreaking?
  }

  /** Consecutive returned packets: 40 ms apart in one generation, or the second
  resets at a second. */
  ghost predicate GapFree(returned: seq<Packet>) {
    forall n :: 0 <= n < |returned| ==> Continues(returned, n)
  }

  predicate Continues(returned: seq<Packet>, n: nat)
    requires n < |returned|
  {
    if returned[n].reset then returned[n].pts % 1000 == 0
    else n > 0 && returned[n].pts == NextPts(returned[n - 1].pts) &&
         returned[n].generation == returned[n - 1].generation
  }

  /** Packets are decided about one after another, in the order of the ring. */
  ghost predicate ReceiverOk(s: State) {
    var log := s.output.accepted;
    && s.handled + (if Deciding(s.scheduler) then 1 else 0) == |s.output.consumed| <= |log|
    && (Deciding(s.scheduler) ==> s.scheduler.packet == log[s.handled])
    && (s.handled > 0 && s.kept ==> s.returned != [] && s.returned[|s.returned| - 1] == log[s.handled - 1])
    && (s.scheduler.DropBreaking? ==> s.scheduler.packet.pts < s.scheduler.broke.boundary)
  }

  /** A packet that is not timed before the boundary that made its generation. */
  predicate InTime(packet: Packet) {
    packet.generation <= packet.pts
  }

  ghost predicate Timely(s: State) {
    && (forall n :: 0 <= n < |s.output.accepted| ==> InTime(s.output.accepted[n]))
    && (HasPacket(s.worker.turn) ==> InTime(s.worker.turn.packet))
  }

  /** A packet in time that was not returned left a boundary above its whole epoch;
  one that is not in time is never returned. */
  ghost predicate Chained(s: State) {
    && s.handled <= |s.output.accepted|
    && (s.scheduler.Timing? || s.scheduler.Aging? ==>
          s.scheduler.packet.reset ||
          (s.handled > 0 && (s.kept <==> InTime(s.output.accepted[s.handled - 1]))))
    && (s.scheduler.Aging? ==> InTime(s.scheduler.packet))
    && (s.handled > 0 ==>
          var last := s.output.accepted[s.handled - 1];
          if s.kept then InTime(last) else s.broken > last.generation || !InTime(last))
  }

  ghost predicate BreakOk(broke: Break) {
    broke.boundary < TWO64 && (broke.Trying? ==> broke.previous < broke.boundary)
  }

  ghost predicate BreaksOk(s: State) {
    && (s.scheduler.OfferBreaking? || s.scheduler.DropBreaking? ==> BreakOk(s.scheduler.broke))
    && (s.worker.turn.Breaking? ==> BreakOk(s.worker.turn.broke))
  }

  ghost predicate Inv(s: State) {
    && Sound(s.input) && Sound(s.output)
    && |s.input.slots| == ENCODER_RING_SLOTS && s.input.limit == ENCODER_INPUT_SLOTS
    && |s.output.slots| == OUTPUT_SLOTS == s.output.limit
    && Places(s) && InputsOk(s.input, s.broken) && Published(s.output.accepted, s.broken)
    && WorkerOk(s.worker, s.output.accepted, s.broken)
    && ReceiverOk(s) && BreaksOk(s)
    && (s.scheduler.Offering? || s.scheduler.Admitting? || s.scheduler.Tagging? ==> s.scheduler.pts <= LATEST)
  }

  /** The worker is about to complete a packet. */
  predicate Packs(w: Worker) {
    w.turn.Feeding? && w.turn.left > 0 && |w.samples| + 1 == FRAME_SAMPLES
  }

  /** The packet being completed is not timed before its generation's boundary: the
  64-bit packet clock has not wrapped below it since the epoch's start. */
  predicate Fits(s: State, event: Event) {
    event.Worked? && Packs(s.worker) ==> s.worker.generation <= s.worker.nextPts
  }

  // ---- the boundary ----------------------------------------------------------------------------

  lemma BoundaryAbove(pts: nat)
    requires pts < TWO64 - 1
    ensures pts < Boundary(pts) < TWO64
  {
  }

  /** Each access of break_epoch keeps the boundary or raises it, and the last one
  leaves it at or above what was asked for. */
  lemma BreakRises(broken: nat, broke: Break, spurious: bool)
    requires BreakOk(broke)
    ensures var b := BreakStep(broken, broke, spurious);
            && broken <= b.broken
            && (b.next.None? ==> b.broken >= broke.boundary)
            && (b.next.Some? ==> BreakOk(b.next.value) && b.next.value.boundary == broke.boundary)
  {
  }

  lemma PublishedRises(log: seq<Packet>, broken: nat, higher: nat)
    requires Published(log, broken) && broken <= higher
    ensures Published(log, higher)
  {
    hide PacketOk;
  }

  lemma InputsRise(r: Ring<Input>, broken: nat, higher: nat)
    requires InputsOk(r, broken) && broken <= higher
    ensures InputsOk(r, higher)
  {
  }

  lemma WorkerRises(w: Worker, log: seq<Packet>, broken: nat, higher: nat)
    requires WorkerOk(w, log, broken) && broken <= higher
    ensures WorkerOk(w, log, higher)
  {
    hide PacketOk, FromEpoch, Follows;
  }

  // ---- the scheduler's steps ------------------------------------------------------------------------

  lemma OfferKeeps(s: State, spurious: bool)
    requires Inv(s) && (s.scheduler.Offering? || s.scheduler.Admitting? || s.scheduler.Tagging? || s.scheduler.Storing?)
    ensures Inv(SchedulerStep(s, spurious))
  {
    hide Sound, WorkerOk, PacketOk, Published, CheckedRoom, Filled, Stored;
    RoomShape(s.input);
    match s.scheduler
    case Offering(_, _, _) =>
    case Admitting(pts, _, _) =>
      CheckedRoomSound(s.input);
      BoundaryAbove(pts);
    case Tagging(pts, offered, pcm) =>
      WroteSound(s.input, Input(pts, offered, s.broken, pcm));
      FilledShape(s.input, Input(pts, offered, s.broken, pcm));
    case Storing =>
      StoredSound(s.input);
      StoredShape(s.input);
  }

  lemma OfferBreakKeeps(s: State, spurious: bool)
    requires Inv(s) && s.scheduler.OfferBreaking?
    ensures Inv(SchedulerStep(s, spurious))
  {
    hide Sound, WorkerOk, PacketOk, Published, InputsOk;
    var broke := s.scheduler.broke;
    BreakRises(s.broken, broke, spurious);
    var higher := BreakStep(s.broken, broke, spurious).broken;
    PublishedRises(s.output.accepted, s.broken, higher);
    InputsRise(s.input, s.broken, higher);
    WorkerRises(s.worker, s.output.accepted, s.broken, higher);
  }

  lemma RoomShape<T>(r: Ring<T>)
    ensures CheckedRoom(r) == r || CheckedRoom(r) == r.(producer := Checked)
  {
  }

  lemma FilledShape<T>(r: Ring<T>, item: T)
    requires r.producer.Checked? && r.slots != []
    ensures var f := Filled(r, item); f == r.(producer := Wrote(item), slots := f.slots) && |f.slots| == |r.slots|
  {
  }

  lemma StoredShape<T>(r: Ring<T>)
    requires r.producer.Wrote?
    ensures var f := Stored(r); f == r.(producer := Out, head := f.head, accepted := r.accepted + [r.producer.item])
  {
  }

  lemma ItemsShape<T>(r: Ring<T>)
    ensures CheckedItems(r) == r || CheckedItems(r) == r.(consumer := Ready)
  {
  }

  lemma ReadShape<T>(r: Ring<T>)
    requires r.consumer.Ready? && r.slots != []
    ensures var f := ReadItem(r); f == r.(consumer := f.consumer) && f.consumer.Holding?
  {
  }

  lemma TakenShape<T>(r: Ring<T>)
    requires r.consumer.Holding?
    ensures var f := Taken(r); f == r.(consumer := Away, tail := f.tail, consumed := r.consumed + [r.consumer.item])
  {
  }

  lemma SoundOrder<T>(r: Ring<T>)
    requires Sound(r)
    ensures |r.consumed| <= |r.accepted| && r.consumed == r.accepted[..|r.consumed|]
    ensures r.consumer.Holding? ==> |r.consumed| < |r.accepted| && r.consumer.item == r.accepted[|r.consumed|]
  {
  }

  /** Fetching a packet from the output ring. */
  lemma PollKeeps(s: State, spurious: bool)
    requires Inv(s) && (s.scheduler.Polling? || s.scheduler.Copying? || s.scheduler.Popping?)
    ensures Inv(SchedulerStep(s, spurious))
  {
    hide Sound, WorkerOk, PacketOk, Published, CheckedItems, ReadItem, Taken;
    ItemsShape(s.output);
    SoundOrder(s.output);
    match s.scheduler
    case Polling => CheckedItemsSound(s.output);
    case Copying => ReadSound(s.output); ReadShape(s.output);
    case Popping => TakenSound(s.output); TakenShape(s.output);
  }

  lemma PacketAt(s: State)
    requires Inv(s) && Deciding(s.scheduler)
    ensures var (log, p) := (s.output.accepted, s.scheduler.packet);
            && s.handled < |log| && p == log[s.handled] && p.pts < TWO64 - 1 && p.generation <= s.broken
            && (if p.reset then p.pts % 1000 == 0
                else s.handled > 0 && NextPts(log[s.handled - 1].pts) == p.pts &&
                     log[s.handled - 1].generation == p.generation)
  {
    hide Sound, WorkerOk, FromEpoch;
    var log := s.output.accepted;
    assert PacketOk(log[..s.handled], log[s.handled]);
  }

  /** Deciding about the packet fetched. */
  lemma DecideKeeps(s: State, spurious: bool)
    requires Inv(s) && Deciding(s.scheduler)
    ensures Inv(SchedulerStep(s, spurious))
  {
    hide Sound, WorkerOk, PacketOk, Published, InputsOk;
    PacketAt(s);
    match s.scheduler
    case Checking(packet) =>
    case Timing(packet) =>
    case Aging(packet) =>
      BoundaryAbove(packet.pts);
    case DropBreaking(packet, broke) =>
      BreakRises(s.broken, broke, spurious);
      var higher := BreakStep(s.broken, broke, spurious).broken;
      PublishedRises(s.output.accepted, s.broken, higher);
      InputsRise(s.input, s.broken, higher);
      WorkerRises(s.worker, s.output.accepted, s.broken, higher);
  }

  // ---- the worker's steps -----------------------------------------------------------------------------

  /** The receiver's side does not move with the worker, which only adds packets
  and raises the boundary. */
  lemma ReceiverStays(s: State, after: State)
    requires ReceiverOk(s) && s.broken <= after.broken
    requires after.scheduler == s.scheduler && after.handled == s.handled && after.kept == s.kept &&
             after.returned == s.returned
    requires s.output.accepted <= after.output.accepted && after.output.consumed == s.output.consumed
    ensures ReceiverOk(after)
  {
  }

  predicate AtRing(turn: Turn) {
    turn.Reading? || turn.Taking? || turn.Putting? || turn.Committing?
  }

  /** A step of the worker alone. */
  lemma AloneKeeps(s: State, worker: Worker)
    requires Inv(s) && !AtRing(s.worker.turn) && !AtRing(worker.turn)
    requires WorkerOk(worker, s.output.accepted, s.broken) && (worker.turn.Breaking? ==> BreakOk(worker.turn.broke))
    ensures Inv(s.(worker := worker))
  {
    hide Sound, Published, InputsOk, WorkerOk, ReceiverOk;
    ReceiverStays(s, s.(worker := worker));
  }

  lemma TopKeeps(w: Worker, log: seq<Packet>, broken: nat)
    requires WorkerOk(w, log, broken) && w.turn.Top?
    ensures WorkerOk(if w.generation != broken
                     then w.(turn := Room, generation := broken, started := false, samples := [])
                     else w.(turn := Room), log, broken)
  {
    hide Follows, PacketOk, FromEpoch;
  }

  /** Taking work from the input ring. */
  lemma FetchKeeps(s: State, spurious: bool, frames: int, encoded: bool)
    requires Inv(s) &&
             (s.worker.turn.Top? || s.worker.turn.Room? || s.worker.turn.Looking? || s.worker.turn.Reading? ||
              s.worker.turn.Taking?)
    ensures Inv(WorkerStep(s, spurious, frames, encoded))
  {
    hide Sound, PacketOk, Published, CheckedItems, ReadItem, Taken, Live, Follows, ReceiverOk;
    ItemsShape(s.input);
    SoundOrder(s.input);
    ReceiverStays(s, WorkerStep(s, spurious, frames, encoded));
    match s.worker.turn
    case Top =>
      TopKeeps(s.worker, s.output.accepted, s.broken);
      AloneKeeps(s, WorkerStep(s, spurious, frames, encoded).worker);
    case Room =>
    case Looking => CheckedItemsSound(s.input);
    case Reading => ReadSound(s.input); ReadShape(s.input);
    case Taking => TakenSound(s.input); TakenShape(s.input);
  }

  lemma StartKeeps(w: Worker, input: Input, frames: int, log: seq<Packet>, broken: nat)
    requires WorkerOk(w, log, broken) && w.turn == Starting(input) && frames <= CAPTURE_MAX_FRAMES
    ensures var after := Started(w, input, frames);
            WorkerOk(after, log, broken) && !AtRing(after.turn) && (after.turn.Breaking? ==> BreakOk(after.turn.broke))
  {
    hide Follows, PacketOk, FromEpoch, Boundary, OnClock;
    BoundaryAbove(input.pts);
    NoSources(w.generation);
    WholeSecond(input.pts);
    var due := !w.started || input.pts != w.nextCapture;
    if (due && input.pts % 1000 != 0) || frames < 0 {
      assert !Started(w, input, frames).started;
    } else {
      assert !HasPacket(Started(w, input, frames).turn);
    }
  }

  lemma WholeSecond(pts: nat)
    requires pts < TWO64
    ensures pts % 1000 == 0 ==> OnClock(pts)
  {
  }

  lemma NoSources(generation: nat)
    ensures FromEpoch([], generation)
  {
  }

  lemma JudgeKeeps(s: State, spurious: bool, frames: int, encoded: bool)
    requires Inv(s) && (s.worker.turn.Judging? || s.worker.turn.Starting?) && frames <= CAPTURE_MAX_FRAMES
    ensures Inv(WorkerStep(s, spurious, frames, encoded))
  {
    hide Sound, PacketOk, Published, Follows, ReceiverOk, FromEpoch, Started, InputsOk;
    var w, after := s.worker, WorkerStep(s, spurious, frames, encoded).worker;
    BoundaryAbove(w.turn.input.pts);
    if w.turn.Starting? { StartKeeps(w, w.turn.input, frames, s.output.accepted, s.broken); }
    AloneKeeps(s, after);
  }

  lemma FedKeeps(w: Worker, input: Input, left: nat, encoded: bool, clock: nat, log: seq<Packet>, broken: nat)
    requires WorkerOk(w, log, broken) && w.turn == Feeding(input, left)
    ensures var after := Fed(w, input, left, encoded, clock);
            WorkerOk(after, log, broken) && !AtRing(after.turn) && (after.turn.Breaking? ==> BreakOk(after.turn.broke))
  {
    hide Follows;
    BoundaryAbove(input.pts);
  }

  lemma FeedKeeps(s: State, spurious: bool, frames: int, encoded: bool)
    requires Inv(s) && s.worker.turn.Feeding?
    ensures Inv(WorkerStep(s, spurious, frames, encoded))
  {
    hide Sound, Published, WorkerOk, ReceiverOk, InputsOk, Fed;
    var turn := s.worker.turn;
    FedKeeps(s.worker, turn.input, turn.left, encoded, s.clock, s.output.accepted, s.broken);
    AloneKeeps(s, Fed(s.worker, turn.input, turn.left, encoded, s.clock));
  }

  /** The packet, once in the log, is what the next one must follow. */
  lemma CommitKeeps(w: Worker, log: seq<Packet>, broken: nat)
    requires WorkerOk(w, log, broken) && w.turn.Committing?
    ensures var after := w.(nextPts := (w.nextPts + 40) % TWO64, sent := w.sent + 1,
                            turn := Feeding(w.turn.input, w.turn.left));
            WorkerOk(after, log + [w.turn.packet], broken)
  {
    hide FromEpoch;
    NoSources(w.generation);
  }

  lemma FullKeeps(w: Worker, log: seq<Packet>, broken: nat)
    requires WorkerOk(w, log, broken) && w.turn.Publishing?
    ensures var after := w.(started := false, turn := Breaking(Loading(Boundary(w.turn.packet.pts))));
            WorkerOk(after, log, broken) && BreakOk(after.turn.broke)
    ensures WorkerOk(w.(turn := Putting(w.turn.input, w.turn.left, w.turn.packet)), log, broken)
    ensures w.turn.packet.generation <= broken
  {
    BoundaryAbove(w.turn.packet.pts);
  }

  lemma PutKeeps(s: State, spurious: bool, frames: int, encoded: bool)
    requires Inv(s) && (s.worker.turn.Publishing? || s.worker.turn.Putting?)
    ensures Inv(WorkerStep(s, spurious, frames, encoded))
  {
    hide Sound, Published, CheckedRoom, Filled, ReceiverOk, InputsOk, PacketOk, FromEpoch;
    RoomShape(s.output);
    var packet := s.worker.turn.packet;
    if s.worker.turn.Publishing? {
      FullKeeps(s.worker, s.output.accepted, s.broken);
      CheckedRoomSound(s.output);
    } else {
      WroteSound(s.output, packet);
      FilledShape(s.output, packet);
    }
    ReceiverStays(s, WorkerStep(s, spurious, frames, encoded));
  }

  lemma StoreKeeps(s: State, spurious: bool, frames: int, encoded: bool)
    requires Inv(s) && s.worker.turn.Committing?
    ensures Inv(WorkerStep(s, spurious, frames, encoded))
  {
    hide Sound, Published, Stored, ReceiverOk, InputsOk, FromEpoch;
    var packet := s.worker.turn.packet;
    StoredSound(s.output);
    StoredShape(s.output);
    ReceiverStays(s, WorkerStep(s, spurious, frames, encoded));
    PublishedMore(s.output.accepted, packet, s.broken);
    CommitKeeps(s.worker, s.output.accepted, s.broken);
    hide WorkerOk, PacketOk;
  }

  lemma PublishedMore(log: seq<Packet>, packet: Packet, broken: nat)
    requires Published(log, broken) && PacketOk(log, packet) && packet.generation <= broken
    ensures Published(log + [packet], broken)
  {
    hide PacketOk;
    var more := log + [packet];
    forall n | 0 <= n < |more| ensures PacketOk(more[..n], more[n]) && more[n].generation <= broken {
      assert more[..n] == log[..n];
      if n == |log| { assert log[..n] == log; }
    }
  }

  lemma WorkerBreakKeeps(s: State, spurious: bool, frames: int, encoded: bool)
    requires Inv(s) && s.worker.turn.Breaking?
    ensures Inv(WorkerStep(s, spurious, frames, encoded))
  {
    hide Sound, PacketOk, Published, ReceiverOk, FromEpoch, Follows;
    var broke := s.worker.turn.broke;
    BreakRises(s.broken, broke, spurious);
    var higher := BreakStep(s.broken, broke, spurious).broken;
    PublishedRises(s.output.accepted, s.broken, higher);
    InputsRise(s.input, s.broken, higher);
    WorkerRises(s.worker, s.output.accepted, s.broken, higher);
    ReceiverStays(s, WorkerStep(s, spurious, frames, encoded));
  }

  // ---- every interleaving ------------------------------------------------------------------------------

  lemma StepKeeps(s: State, event: Event)
    requires Inv(s)
    ensures Inv(Step(s, event))
  {
    hide SchedulerStep, WorkerStep, Sound, WorkerOk, InputsOk, Published;
    match event
    case Offer(_, _) => ReceiverStays(s, s);
    case Receive =>
    case Scheduled(spurious) =>
      if Deciding(s.scheduler) { DecideKeeps(s, spurious); }
      else if s.scheduler.Polling? || s.scheduler.Copying? || s.scheduler.Popping? { PollKeeps(s, spurious); }
      else if s.scheduler.Idle? { IdleStays(s, spurious); }
      else if s.scheduler.OfferBreaking? { OfferBreakKeeps(s, spurious); }
      else { OfferKeeps(s, spurious); }
    case Worked(spurious, frames, encoded) =>
      var count := Min(frames, CAPTURE_MAX_FRAMES);
      match s.worker.turn {
      case Judging(_) => JudgeKeeps(s, spurious, count, encoded);
      case Starting(_) => JudgeKeeps(s, spurious, count, encoded);
      case Feeding(_, _) => FeedKeeps(s, spurious, count, encoded);
      case Publishing(_, _, _) => PutKeeps(s, spurious, count, encoded);
      case Putting(_, _, _) => PutKeeps(s, spurious, count, encoded);
      case Committing(_, _, _) => StoreKeeps(s, spurious, count, encoded);
      case Breaking(_) => WorkerBreakKeeps(s, spurious, count, encoded);
      case _ => FetchKeeps(s, spurious, count, encoded);
      }
    case Tick(_) => ReceiverTicks(s, Step(s, event));
  }

  lemma IdleStays(s: State, spurious: bool)
    requires s.scheduler.Idle?
    ensures SchedulerStep(s, spurious) == s
  {
  }

  lemma ReceiverTicks(s: State, after: State)
    requires ReceiverOk(s) && after == s.(clock := after.clock)
    ensures ReceiverOk(after)
  {
  }

  function Run(s: State, events: seq<Event>): State
    decreases |events|
  {
    if events == [] then s else Run(Step(s, events[0]), events[1..])
  }

  lemma {:induction false} RunKeeps(s: State, events: seq<Event>)
    requires Inv(s)
    ensures Inv(Run(s, events))
    decreases |events|
  {
    hide Inv, Step;
    if events != [] {
      StepKeeps(s, events[0]);
      RunKeeps(Step(s, events[0]), events[1..]);
    }
  }

  lemma InitialInv(inputSlots: seq<Input>, outputSlots: seq<Packet>, clock: nat)
    requires |inputSlots| == ENCODER_RING_SLOTS && |outputSlots| == OUTPUT_SLOTS
    ensures Inv(Initial(inputSlots, outputSlots, clock))
  {
  }

  /** When a packet passes receive's generation check, every input that gave it a
  sample carries the generation that is current at that moment. */
  lemma SourcesAreCurrent(inputSlots: seq<Input>, outputSlots: seq<Packet>, clock: nat, events: seq<Event>,
                          spurious: bool)
    requires |inputSlots| == ENCODER_RING_SLOTS && |outputSlots| == OUTPUT_SLOTS
    requires var s := Run(Initial(inputSlots, outputSlots, clock), events);
             s.scheduler.Checking? && SchedulerStep(s, spurious).scheduler.Timing?
    ensures var s := Run(Initial(inputSlots, outputSlots, clock), events);
            var packet := s.scheduler.packet;
            && |packet.sources| == FRAME_SAMPLES && packet.generation == s.broken
            && forall k :: 0 <= k < |packet.sources| ==> packet.sources[k].generation == s.broken
  {
    hide Run, Sound, InputsOk, WorkerOk;
    InitialInv(inputSlots, outputSlots, clock);
    RunKeeps(Initial(inputSlots, outputSlots, clock), events);
    var s := Run(Initial(inputSlots, outputSlots, clock), events);
    assert PacketOk(s.output.accepted[..s.handled], s.output.accepted[s.handled]);
  }

  /** At most six inputs and two packets are live, and each thread receives what
  the other stored, once and in order, however often the counters wrapped. */
  lemma PipelineRings(inputSlots: seq<Input>, outputSlots: seq<Packet>, clock: nat, events: seq<Event>)
    requires |inputSlots| == ENCODER_RING_SLOTS && |outputSlots| == OUTPUT_SLOTS
    ensures var s := Run(Initial(inputSlots, outputSlots, clock), events);
            && s.input.consumed <= s.input.accepted && |s.input.accepted| - |s.input.consumed| == Live(s.input) <= 6
            && s.output.consumed <= s.output.accepted &&
               |s.output.accepted| - |s.output.consumed| == Live(s.output) <= 2
  {
    hide Run, Published, InputsOk, WorkerOk;
    InitialInv(inputSlots, outputSlots, clock);
    RunKeeps(Initial(inputSlots, outputSlots, clock), events);
    var s := Run(Initial(inputSlots, outputSlots, clock), events);
    LiveCounts(s.input);
    LiveCounts(s.output);
  }

  /** The boundary never falls, so a generation once left is never current again. */
  lemma BoundaryNeverFalls(s: State, event: Event)
    requires Inv(s)
    ensures s.broken <= Step(s, event).broken
  {
    hide Sound, Published, InputsOk, WorkerOk, ReceiverOk, Places, Started, Fed, CheckedRoom, Filled, Stored,
         CheckedItems, ReadItem, Taken;
    match event
    case Scheduled(spurious) =>
      if s.scheduler.OfferBreaking? || s.scheduler.DropBreaking? { BreakRises(s.broken, s.scheduler.broke, spurious); }
    case Worked(spurious, _, _) =>
      if s.worker.turn.Breaking? { BreakRises(s.broken, s.worker.turn.broke, spurious); }
    case _ =>
  }

  // ---- no gaps -----------------------------------------------------------------------------------------

  lemma FedTimely(w: Worker, input: Input, left: nat, encoded: bool, clock: nat)
    requires w.turn == Feeding(input, left) && |w.samples| < FRAME_SAMPLES
    requires Packs(w) ==> w.generation <= w.nextPts
    ensures var turn := Fed(w, input, left, encoded, clock).turn;
            HasPacket(turn) ==> InTime(turn.packet)
  {
    hide Stale, Boundary;
  }

  /** A worker's step completes a packet, sends it, or leaves packets alone. */
  lemma WorkerPackets(s: State, spurious: bool, frames: int, encoded: bool)
    requires Inv(s)
    ensures var (turn, after) := (s.worker.turn, WorkerStep(s, spurious, frames, encoded));
            && after.output.accepted == s.output.accepted + (if turn.Committing? then [turn.packet] else [])
            && (!turn.Feeding? && HasPacket(after.worker.turn) ==>
                  HasPacket(turn) && after.worker.turn.packet == turn.packet)
            && after.returned == s.returned
  {
    hide Sound, Published, InputsOk, ReceiverOk, BreaksOk, FromEpoch, Follows, OnClock, CheckedRoom, Filled,
         CheckedItems, ReadItem, Taken, Started, Fed, BreakStep, Stale, Boundary, NextPts, PacketOk;
    RoomShape(s.output);
    match s.worker.turn
    case Starting(input) => StartedHasNone(s.worker, input, frames);
    case Putting(_, _, packet) => FilledShape(s.output, packet);
    case Committing(_, _, _) => StoredShape(s.output);
    case _ =>
  }

  lemma TimelyKeeps(s: State, event: Event)
    requires Inv(s) && Timely(s) && Fits(s, event)
    ensures Timely(Step(s, event))
  {
    hide Sound, Published, InputsOk, ReceiverOk, BreaksOk, FromEpoch, Follows, OnClock, PacketOk, WorkerStep,
         SchedulerStep, Packs;
    match event
    case Worked(spurious, frames, encoded) =>
      WorkerPackets(s, spurious, Min(frames, CAPTURE_MAX_FRAMES), encoded);
      if s.worker.turn.Feeding? {
        FedTimely(s.worker, s.worker.turn.input, s.worker.turn.left, encoded, s.clock);
        FeedingStep(s, spurious, Min(frames, CAPTURE_MAX_FRAMES), encoded);
      }
    case Scheduled(spurious) => SchedulerLeavesLog(s, spurious);
    case _ =>
  }

  lemma FeedingStep(s: State, spurious: bool, frames: int, encoded: bool)
    requires s.worker.turn.Feeding?
    ensures WorkerStep(s, spurious, frames, encoded).worker ==
            Fed(s.worker, s.worker.turn.input, s.worker.turn.left, encoded, s.clock)
  {
  }

  lemma StartedHasNone(w: Worker, input: Input, frames: int)
    ensures !HasPacket(Started(w, input, frames).turn)
  {
    hide Boundary;
  }

  lemma SchedulerLeavesLog(s: State, spurious: bool)
    requires Places(s)
    ensures SchedulerStep(s, spurious).output.accepted == s.output.accepted
    ensures SchedulerStep(s, spurious).worker == s.worker
  {
    hide CheckedRoom, Filled, Stored, Stale, Boundary, BreakStep;
  }

  lemma WorkerLeavesReceiver(s: State, spurious: bool, frames: int, encoded: bool)
    ensures var after := WorkerStep(s, spurious, frames, encoded);
            && after.scheduler == s.scheduler && after.handled == s.handled && after.kept == s.kept
            && after.returned == s.returned
  {
    hide CheckedRoom, Filled, Stored, CheckedItems, ReadItem, Taken, Started, Fed, BreakStep, Stale, Boundary;
  }

  /** What the receiver relies on survives a step that decides nothing. */
  lemma ChainedStays(s: State, after: State)
    requires Chained(s) && s.broken <= after.broken && s.output.accepted <= after.output.accepted
    requires after.handled == s.handled && after.kept == s.kept
    requires after.scheduler == s.scheduler || (!after.scheduler.Timing? && !after.scheduler.Aging?)
    ensures Chained(after)
  {
    hide InTime;
  }

  /** What deciding needs to know of the packet fetched. */
  ghost predicate Fetched(s: State) {
    && Deciding(s.scheduler) && s.handled < |s.output.accepted| && s.scheduler.packet == s.output.accepted[s.handled]
    && s.scheduler.packet.generation <= s.broken
    && (!s.scheduler.packet.reset ==>
          s.handled > 0 && s.output.accepted[s.handled - 1].generation == s.scheduler.packet.generation)
    && (s.scheduler.DropBreaking? ==> BreakOk(s.scheduler.broke) && s.scheduler.packet.pts < s.scheduler.broke.boundary)
  }

  lemma InvFetched(s: State)
    requires Inv(s) && Deciding(s.scheduler)
    ensures Fetched(s)
  {
    PacketAt(s);
    hide Sound, Published, InputsOk, WorkerOk, Places, NextPts;
  }

  lemma CheckedChains(s: State, spurious: bool)
    requires Fetched(s) && Chained(s) && s.scheduler.Checking?
    ensures Chained(SchedulerStep(s, spurious))
  {
  }

  lemma TimedChains(s: State, spurious: bool)
    requires Fetched(s) && Chained(s) && s.scheduler.Timing?
    ensures Chained(SchedulerStep(s, spurious))
  {
  }

  lemma AgedChains(s: State, spurious: bool)
    requires Fetched(s) && Chained(s) && (s.scheduler.Aging? || s.scheduler.DropBreaking?)
    ensures Chained(SchedulerStep(s, spurious))
  {
    hide Stale, Boundary, BreakStep;
    if s.scheduler.DropBreaking? { BreakRises(s.broken, s.scheduler.broke, spurious); }
  }

  lemma ChainedDecides(s: State, spurious: bool)
    requires Inv(s) && Chained(s) && Deciding(s.scheduler)
    ensures Chained(SchedulerStep(s, spurious))
  {
    InvFetched(s);
    hide Inv, Chained, Fetched, SchedulerStep;
    match s.scheduler
    case Checking(_) => CheckedChains(s, spurious);
    case Timing(_) => TimedChains(s, spurious);
    case _ => AgedChains(s, spurious);
  }

  lemma ReturnedGapFree(returned: seq<Packet>, packet: Packet)
    requires GapFree(returned)
    ensures (if packet.reset then packet.pts % 1000 == 0
             else returned != [] && packet.pts == NextPts(returned[|returned| - 1].pts) &&
                  packet.generation == returned[|returned| - 1].generation) ==>
              GapFree(returned + [packet])
  {
    var more := returned + [packet];
    forall n | 0 <= n < |returned| ensures Continues(more, n) {
      assert Continues(returned, n);
    }
  }

  lemma ChainedKeeps(s: State, event: Event)
    requires Inv(s) && Chained(s)
    ensures Chained(Step(s, event))
  {
    hide Sound, Published, InputsOk, WorkerOk, ReceiverOk, BreaksOk, InTime, WorkerStep;
    BoundaryNeverFalls(s, event);
    match event
    case Scheduled(spurious) =>
      if Deciding(s.scheduler) {
        ChainedDecides(s, spurious);
      } else {
        SchedulerLeavesLog(s, spurious);
        UndecidedSchedule(s, spurious);
        ChainedStays(s, Step(s, event));
      }
    case Worked(spurious, frames, encoded) =>
      WorkerLeavesReceiver(s, spurious, Min(frames, CAPTURE_MAX_FRAMES), encoded);
      WorkerPackets(s, spurious, Min(frames, CAPTURE_MAX_FRAMES), encoded);
      ChainedStays(s, Step(s, event));
    case _ => ChainedStays(s, Step(s, event));
  }

  lemma UndecidedSchedule(s: State, spurious: bool)
    requires !Deciding(s.scheduler)
    ensures var after := SchedulerStep(s, spurious);
            && after.handled == s.handled && after.kept == s.kept && after.returned == s.returned
            && !after.scheduler.Timing? && !after.scheduler.Aging?
  {
    hide CheckedRoom, Filled, Stored, CheckedItems, ReadItem, Taken, Stale, Boundary, BreakStep;
  }

  /** Along the run the packet clock never wraps below its epoch's generation. */
  predicate FitsAlong(s: State, events: seq<Event>)
    decreases |events|
  {
    events != [] ==> Fits(s, events[0]) && FitsAlong(Step(s, events[0]), events[1..])
  }

  lemma {:induction false} RunChained(s: State, events: seq<Event>)
    requires Inv(s) && Chained(s)
    ensures Chained(Run(s, events))
    decreases |events|
  {
    hide Inv, Chained, Step;
    if events != [] {
      StepKeeps(s, events[0]);
      ChainedKeeps(s, events[0]);
      RunChained(Step(s, events[0]), events[1..]);
    }
  }

  /** In every run, when a packet that is no reset is about to be returned, the packet
  that ends where it starts is the one decided about just before it, and that one
  was returned if and only if it was not timed before its generation's boundary. So
  a gap needs a packet clock that wrapped below its epoch's generation, and there
  is a gap wherever that happened. */
  lemma ContinuesIffInTime(inputSlots: seq<Input>, outputSlots: seq<Packet>, clock: nat, events: seq<Event>)
    requires |inputSlots| == ENCODER_RING_SLOTS && |outputSlots| == OUTPUT_SLOTS
    requires var s := Run(Initial(inputSlots, outputSlots, clock), events);
             s.scheduler.Aging? && !s.scheduler.packet.reset
    ensures var s := Run(Initial(inputSlots, outputSlots, clock), events);
            var packet := s.scheduler.packet;
            && 0 < s.handled < |s.output.accepted| && packet == s.output.accepted[s.handled]
            && var before := s.output.accepted[s.handled - 1];
               && NextPts(before.pts) == packet.pts && before.generation == packet.generation
               && (s.kept <==> InTime(before))
               && (s.kept ==> s.returned != [] && s.returned[|s.returned| - 1] == before)
  {
    hide Run, Sound, InputsOk, WorkerOk, NextPts;
    InitialInv(inputSlots, outputSlots, clock);
    RunKeeps(Initial(inputSlots, outputSlots, clock), events);
    RunChained(Initial(inputSlots, outputSlots, clock), events);
    PacketAt(Run(Initial(inputSlots, outputSlots, clock), events));
  }

  lemma GapFreeKeeps(s: State, event: Event)
    requires Inv(s) && Timely(s) && Chained(s) && GapFree(s.returned)
    ensures GapFree(Step(s, event).returned)
  {
    hide Sound, Published, InputsOk, WorkerOk, BreaksOk, GapFree, WorkerStep, NextPts;
    match event
    case Scheduled(spurious) =>
      if Deciding(s.scheduler) {
        PacketAt(s);
        ReturnedGapFree(s.returned, s.scheduler.packet);
      } else {
        UndecidedSchedule(s, spurious);
      }
    case Worked(spurious, frames, encoded) =>
      WorkerLeavesReceiver(s, spurious, Min(frames, CAPTURE_MAX_FRAMES), encoded);
    case _ =>
  }

  lemma {:induction false} RunGapFree(s: State, events: seq<Event>)
    requires Inv(s) && Timely(s) && Chained(s) && GapFree(s.returned) && FitsAlong(s, events)
    ensures GapFree(Run(s, events).returned)
    decreases |events|
  {
    hide Inv, Timely, Chained, GapFree, Step, Fits;
    if events != [] {
      StepKeeps(s, events[0]);
      TimelyKeeps(s, events[0]);
      ChainedKeeps(s, events[0]);
      GapFreeKeeps(s, events[0]);
      RunGapFree(Step(s, events[0]), events[1..]);
    }
  }

  // ---- runs that fit ---------------------------------------------------------------------------------------

  /** A resampler that yields no more than it was given, or offers below 2^63 ms. */
  predicate Paced(event: Event, twice: bool) {
    match event
    case Offer(pts, _) => twice ==> pts < TWO64 / 2 - 1000
    case Worked(_, frames, _) => !twice ==> frames <= FRAME_SAMPLES
    case _ => true
  }

  predicate AllPaced(events: seq<Event>, twice: bool) {
    forall k :: 0 <= k < |events| ==> Paced(events[k], twice)
  }

  predicate Early(pts: nat, twice: bool) {
    pts <= LATEST && (twice ==> pts < TWO64 / 2 - 1000)
  }

  function Waiting(w: Worker): nat {
    if HasPacket(w.turn) then FRAME_SAMPLES + w.turn.left
    else |w.samples| + if w.turn.Feeding? then w.turn.left else 0
  }

  /** The encoded time is at most the captured time, or twice it. */
  ghost predicate WorkerPaced(w: Worker, twice: bool) {
    && (w.turn.Judging? || w.turn.Starting? ==> Early(w.turn.input.pts, twice))
    && (w.started ==>
          && 24 * w.nextPts + Waiting(w) <= (if twice then 48 * w.nextCapture else 24 * w.nextCapture)
          && 40 <= w.nextCapture && Early(w.nextCapture - 40, twice) && w.generation <= w.nextPts)
  }

  ghost predicate InputsPaced(s: State, twice: bool) {
    && (s.scheduler.Offering? || s.scheduler.Admitting? || s.scheduler.Tagging? ==> Early(s.scheduler.pts, twice))
    && (s.input.producer.Wrote? ==> Early(s.input.producer.item.pts, twice))
    && (forall k :: 0 <= k < |s.input.accepted| ==> Early(s.input.accepted[k].pts, twice))
  }

  lemma StartPaced(w: Worker, input: Input, frames: int, twice: bool)
    requires WorkerPaced(w, twice) && w.turn == Starting(input) && frames <= CAPTURE_MAX_FRAMES
    requires (!twice ==> frames <= FRAME_SAMPLES) && w.generation <= input.pts
    ensures WorkerPaced(Started(w, input, frames), twice)
  {
    hide Boundary;
  }

  lemma FedPaced(w: Worker, input: Input, left: nat, encoded: bool, clock: nat, twice: bool)
    requires WorkerPaced(w, twice) && w.turn == Feeding(input, left) && |w.samples| < FRAME_SAMPLES
    ensures WorkerPaced(Fed(w, input, left, encoded, clock), twice)
  {
    hide Stale, Boundary;
  }

  /** Sending a packet moves its 960 samples into the packet clock. */
  lemma SentPaced(s: State, spurious: bool, frames: int, encoded: bool, twice: bool)
    requires HasPacket(s.worker.turn) && WorkerPaced(s.worker, twice) && s.worker.samples == []
    requires s.worker.started
    ensures WorkerPaced(WorkerStep(s, spurious, frames, encoded).worker, twice)
  {
    hide CheckedRoom, Filled, Stored, Boundary;
  }

  /** Elsewhere the worker drops what it had or keeps it. */
  lemma QuietPaced(s: State, spurious: bool, frames: int, encoded: bool, twice: bool)
    requires WorkerPaced(s.worker, twice)
    requires var turn := s.worker.turn; turn.Top? || turn.Room? || turn.Looking? || turn.Reading? || turn.Breaking?
    ensures WorkerPaced(WorkerStep(s, spurious, frames, encoded).worker, twice)
  {
    hide CheckedItems, ReadItem, Boundary, BreakStep, Early;
  }

  lemma TakenPaced(s: State, spurious: bool, frames: int, encoded: bool, twice: bool)
    requires WorkerPaced(s.worker, twice) && InputsPaced(s, twice) && Sound(s.input)
    requires s.worker.turn.Taking? || s.worker.turn.Judging?
    ensures WorkerPaced(WorkerStep(s, spurious, frames, encoded).worker, twice)
  {
    SoundOrder(s.input);
    hide Sound, Taken, Stale, Boundary, Early;
  }

  lemma WorkerStepPaced(s: State, spurious: bool, frames: int, encoded: bool, twice: bool)
    requires Inv(s) && WorkerPaced(s.worker, twice) && InputsPaced(s, twice) && frames <= CAPTURE_MAX_FRAMES
    requires !twice ==> frames <= FRAME_SAMPLES
    ensures WorkerPaced(WorkerStep(s, spurious, frames, encoded).worker, twice)
    ensures Fits(s, Worked(spurious, frames, encoded))
  {
    hide Sound, Published, ReceiverOk, Started, Fed, WorkerPaced, InputsPaced, InputsOk, BreaksOk, Places,
         FromEpoch, Follows, Packs;
    if HasPacket(s.worker.turn) {
      NoPacking(s.worker);
      SentPaced(s, spurious, frames, encoded, twice);
    } else {
      match s.worker.turn
      case Starting(input) => NoPacking(s.worker); StartPaced(s.worker, input, frames, twice);
      case Feeding(input, left) =>
        PacksEarly(s.worker, twice);
        FedPaced(s.worker, input, left, encoded, s.clock, twice);
      case Taking => NoPacking(s.worker); TakenPaced(s, spurious, frames, encoded, twice);
      case Judging(_) => NoPacking(s.worker); TakenPaced(s, spurious, frames, encoded, twice);
      case _ => NoPacking(s.worker); QuietPaced(s, spurious, frames, encoded, twice);
    }
  }

  lemma NoPacking(w: Worker)
    requires !w.turn.Feeding?
    ensures !Packs(w)
  {
  }

  lemma PacksEarly(w: Worker, twice: bool)
    requires WorkerPaced(w, twice) && w.started && w.turn.Feeding?
    ensures Packs(w) ==> w.generation <= w.nextPts && w.nextPts + 40 < TWO64
  {
  }

  lemma InputsStayPaced(s: State, event: Event, twice: bool)
    requires Inv(s) && InputsPaced(s, twice) && Paced(event, twice)
    ensures InputsPaced(Step(s, event), twice)
  {
    hide Sound, Published, ReceiverOk, WorkerOk, InputsPaced, SchedulerStep, WorkerStep, InputsOk;
    match event
    case Scheduled(spurious) => SchedulerInputsPaced(s, spurious, twice);
    case Worked(spurious, frames, encoded) =>
      WorkerKeepsInputs(s, spurious, Min(frames, CAPTURE_MAX_FRAMES), encoded, twice);
    case _ => CallsPaced(s, event, twice);
  }

  lemma CallsPaced(s: State, event: Event, twice: bool)
    requires InputsPaced(s, twice) && Paced(event, twice) && !event.Scheduled? && !event.Worked?
    ensures InputsPaced(Step(s, event), twice)
  {
  }

  lemma SchedulerInputsPaced(s: State, spurious: bool, twice: bool)
    requires InputsPaced(s, twice) && Places(s) && |s.input.slots| == ENCODER_RING_SLOTS
    ensures InputsPaced(SchedulerStep(s, spurious), twice)
  {
    hide Early, Stale, Boundary, BreakStep;
  }

  lemma WorkerKeepsInputs(s: State, spurious: bool, frames: int, encoded: bool, twice: bool)
    requires InputsPaced(s, twice)
    ensures InputsPaced(WorkerStep(s, spurious, frames, encoded), twice)
  {
    hide Early, Started, Fed, Stale, Boundary, BreakStep, CheckedRoom, Filled, Stored;
  }

  lemma SchedulerLeavesWorker(s: State, spurious: bool)
    ensures SchedulerStep(s, spurious).worker == s.worker
  {
    hide CheckedItems, CheckedRoom, Filled, Stored, Taken, ReadItem, Stale, Boundary;
  }

  lemma {:induction false} PacedFitsFrom(s: State, events: seq<Event>, twice: bool)
    requires Inv(s) && WorkerPaced(s.worker, twice) && InputsPaced(s, twice) && AllPaced(events, twice)
    requires Roomy(s)
    ensures FitsAlong(s, events) && Roomy(Run(s, events))
    decreases |events|
  {
    hide Inv, WorkerPaced, InputsPaced, Roomy, SchedulerStep, WorkerStep, Fits;
    if events != [] {
      var event := events[0];
      assert Paced(event, twice) && AllPaced(events[1..], twice);
      InputsStayPaced(s, event, twice);
      match event {
        case Worked(spurious, frames, encoded) =>
          WorkerStepPaced(s, spurious, Min(frames, CAPTURE_MAX_FRAMES), encoded, twice);
          FitsAnyYield(s, spurious, frames, encoded);
        case Scheduled(spurious) => SchedulerLeavesWorker(s, spurious); FitsOther(s, event);
        case _ => FitsOther(s, event);
      }
      StepKeeps(s, event);
      RoomyKeeps(s, event, twice);
      PacedFitsFrom(Step(s, event), events[1..], twice);
    }
  }

  lemma FitsAnyYield(s: State, spurious: bool, frames: int, encoded: bool)
    requires Fits(s, Worked(spurious, Min(frames, CAPTURE_MAX_FRAMES), encoded))
    ensures Fits(s, Worked(spurious, frames, encoded))
  {
  }

  lemma FitsOther(s: State, event: Event)
    requires !event.Worked?
    ensures Fits(s, event)
  {
  }

  /** No packet so far carries the clock past 2^64. */
  ghost predicate Roomy(s: State) {
    && (forall n :: 0 <= n < |s.output.accepted| ==> s.output.accepted[n].pts + 40 < TWO64)
    && (HasPacket(s.worker.turn) ==> s.worker.turn.packet.pts + 40 < TWO64)
    && (forall n :: 0 <= n < |s.returned| ==> s.returned[n].pts + 40 < TWO64)
  }

  lemma FedRoomy(w: Worker, input: Input, left: nat, encoded: bool, clock: nat)
    requires w.turn == Feeding(input, left) && |w.samples| < FRAME_SAMPLES
    requires Packs(w) ==> w.nextPts + 40 < TWO64
    ensures var turn := Fed(w, input, left, encoded, clock).turn; HasPacket(turn) ==> turn.packet.pts + 40 < TWO64
  {
    hide Stale, Boundary;
  }

  lemma RoomyKeeps(s: State, event: Event, twice: bool)
    requires Inv(s) && Roomy(s) && WorkerPaced(s.worker, twice)
    ensures Roomy(Step(s, event))
  {
    hide Sound, Published, InputsOk, BreaksOk, FromEpoch, Follows, OnClock, PacketOk, WorkerStep, SchedulerStep, Packs,
         WorkerPaced;
    match event
    case Worked(spurious, frames, encoded) =>
      WorkerPackets(s, spurious, Min(frames, CAPTURE_MAX_FRAMES), encoded);
      if s.worker.turn.Feeding? {
        PacksEarly(s.worker, twice);
        FedRoomy(s.worker, s.worker.turn.input, s.worker.turn.left, encoded, s.clock);
        FeedingStep(s, spurious, Min(frames, CAPTURE_MAX_FRAMES), encoded);
      }
    case Scheduled(spurious) =>
      SchedulerLeavesLog(s, spurious);
      ReturnsFromLog(s, spurious);
    case _ =>
  }

  lemma ReturnsFromLog(s: State, spurious: bool)
    requires ReceiverOk(s)
    ensures var after := SchedulerStep(s, spurious);
            after.returned == s.returned ||
            exists n :: 0 <= n < |s.output.accepted| && after.returned == s.returned + [s.output.accepted[n]]
  {
    hide CheckedRoom, Filled, Stored, CheckedItems, ReadItem, Taken, Stale, Boundary, BreakStep;
  }

  /** A run fits when the resampler never yields more than the 960 samples of a
  chunk, whatever capture times are offered; and, at up to twice that, when they
  are below 2^63 ms. The packet clock then does not wrap at all, so that 40 ms
  later is 40 more. */
  lemma PacedFits(inputSlots: seq<Input>, outputSlots: seq<Packet>, clock: nat, events: seq<Event>, twice: bool)
    requires |inputSlots| == ENCODER_RING_SLOTS && |outputSlots| == OUTPUT_SLOTS && AllPaced(events, twice)
    ensures FitsAlong(Initial(inputSlots, outputSlots, clock), events)
    ensures var returned := Run(Initial(inputSlots, outputSlots, clock), events).returned;
            forall n :: 0 <= n < |returned| ==> NextPts(returned[n].pts) == returned[n].pts + 40
  {
    hide Run, FitsAlong, Sound, Published, InputsOk;
    InitialInv(inputSlots, outputSlots, clock);
    PacedFitsFrom(Initial(inputSlots, outputSlots, clock), events, twice);
  }
}
