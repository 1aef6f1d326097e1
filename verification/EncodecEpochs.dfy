/** What the packets of an epoch hold: the audio captured from its start on, chunk
after chunk without a gap, each packet the next 960 samples of it. */
module EncodecEpochs {
  import opened Bytes
  import opened Ring
  import opened Encodec
  import opened EncodecProofs

  // ---- the audio of an epoch --------------------------------------------------------

  /** The source of every sample the chunks gave, in order. */
  function Audio(fed: seq<Chunk>): (audio: seq<Input>)
    decreases |fed|
  {
    if fed == [] then []
    else
      var last := fed[|fed| - 1];
      Audio(fed[..|fed| - 1]) + seq(last.frames, _ => last.input)
  }

  lemma AudioMore(fed: seq<Chunk>, chunk: Chunk)
    ensures Audio(fed + [chunk]) == Audio(fed) + seq(chunk.frames, _ => chunk.input)
  {
    assert (fed + [chunk])[..|fed|] == fed;
  }

  lemma {:induction false} AudioGrows(fed: seq<Chunk>, more: seq<Chunk>)
    requires fed <= more
    ensures Audio(fed) <= Audio(more)
    decreases |more|
  {
    if |fed| < |more| { AudioGrows(fed, more[..|more| - 1]); } else { assert fed == more; }
  }

  /** Chunks captured one after another from a whole second on. */
  ghost predicate Consecutive(fed: seq<Chunk>) {
    && fed != [] && fed[0].input.pts % 1000 == 0
    && forall k :: 0 <= k < |fed| ==> fed[k].input.pts == fed[0].input.pts + 40 * k && fed[k].input.pts <= LATEST
  }

  /** A packet is the next 960 samples of its epoch, and its time is the time they
  were captured at. */
  ghost predicate Captured(p: Packet) {
    && Consecutive(p.fed) && FRAME_SAMPLES * (p.index + 1) <= |Audio(p.fed)|
    && p.sources == Audio(p.fed)[FRAME_SAMPLES * p.index..FRAME_SAMPLES * (p.index + 1)]
    && p.pts == (p.fed[0].input.pts + 40 * p.index) % TWO64
    && p.created == p.sources[0].offered
    && (p.reset <==> p.index == 0)
  }

  /** The packet before it in the epoch was made of the same chunks. */
  ghost predicate Next(before: Packet, p: Packet) {
    before.index + 1 == p.index && before.fed <= p.fed
  }

  ghost predicate InEpoch(log: seq<Packet>, p: Packet) {
    Captured(p) && (!p.reset ==> log != [] && Next(log[|log| - 1], p))
  }

  ghost predicate LogCaptured(log: seq<Packet>) {
    forall n :: 0 <= n < |log| ==> InEpoch(log[..n], log[n])
  }

  // ---- the worker -------------------------------------------------------------------

  /** How many samples of the epoch were accumulated or sent. */
  function Done(w: Worker): int {
    |Audio(w.fed)| - (if w.turn.Feeding? || HasPacket(w.turn) then w.turn.left else 0)
  }

  ghost predicate Accumulated(w: Worker, log: seq<Packet>) {
    && Consecutive(w.fed) && w.nextCapture == (w.fed[|w.fed| - 1].input.pts + 40) % TWO64
    && w.nextPts == (w.fed[0].input.pts + 40 * w.sent) % TWO64
    && (w.turn.Feeding? || HasPacket(w.turn) ==>
          w.fed[|w.fed| - 1].input == w.turn.input && w.turn.left <= w.fed[|w.fed| - 1].frames)
    && (w.sent > 0 ==> log != [] && log[|log| - 1].index + 1 == w.sent && log[|log| - 1].fed <= w.fed)
    && (if HasPacket(w.turn) then
          var p := w.turn.packet;
          InEpoch(log, p) && p.index == w.sent && p.fed == w.fed && Done(w) == FRAME_SAMPLES * (w.sent + 1)
        else
          && FRAME_SAMPLES * w.sent <= Done(w) && w.samples == Audio(w.fed)[FRAME_SAMPLES * w.sent..Done(w)]
          && (w.samples != [] ==> w.oldest == w.samples[0].offered)
          && (w.primed <==> w.sent == 0))
  }

  ghost predicate Epochs(s: State) {
    LogCaptured(s.output.accepted) && (s.worker.started ==> Accumulated(s.worker, s.output.accepted))
  }

  /** Where no chunk is being fed. */
  predicate Between(turn: Turn) {
    !turn.Feeding? && !HasPacket(turn)
  }

  lemma TurnsKeep(w: Worker, log: seq<Packet>, turn: Turn)
    requires Accumulated(w, log) && Between(w.turn) && Between(turn)
    ensures Accumulated(w.(turn := turn), log)
  {
  }

  lemma {:induction false} WholeAudio(fed: seq<Chunk>)
    requires Consecutive(fed)
    ensures |fed| >= 1 && |Audio(fed)| >= fed[|fed| - 1].frames
    ensures forall k :: |Audio(fed)| - fed[|fed| - 1].frames <= k < |Audio(fed)| ==>
              Audio(fed)[k] == fed[|fed| - 1].input
  {
  }

  lemma ConsecutiveMore(fed: seq<Chunk>, chunk: Chunk)
    requires Consecutive(fed) && chunk.input.pts <= LATEST
    requires chunk.input.pts == (fed[|fed| - 1].input.pts + 40) % TWO64
    ensures Consecutive(fed + [chunk])
  {
    var more := fed + [chunk];
    forall k | 0 <= k < |more|
      ensures more[k].input.pts == more[0].input.pts + 40 * k && more[k].input.pts <= LATEST
    {
      if k < |fed| { assert more[k] == fed[k]; }
    }
  }

  lemma ConsecutiveOne(chunk: Chunk)
    requires chunk.input.pts % 1000 == 0 && chunk.input.pts <= LATEST
    ensures Consecutive([chunk])
  {
  }

  lemma ContinuesEpoch(w: Worker, input: Input, frames: int, log: seq<Packet>)
    requires w.started && Accumulated(w, log) && w.turn == Starting(input) && input.pts <= LATEST
    requires input.pts == w.nextCapture && frames >= 0
    ensures Accumulated(Started(w, input, frames), log)
  {
    var chunk := Chunk(input, frames);
    ConsecutiveFirst(w.fed);
    ConsecutiveMore(w.fed, chunk);
    AudioMore(w.fed, chunk);
    hide Consecutive, Boundary, Audio, InEpoch;
    var before, more := Audio(w.fed), Audio(w.fed + [chunk]);
    var from := FRAME_SAMPLES * w.sent;
    SameStart(before, more, from);
    assert Started(w, input, frames).fed == w.fed + [chunk];
    assert Done(Started(w, input, frames)) == |before| == Done(w);
  }

  lemma SameStart(before: seq<Input>, more: seq<Input>, from: nat)
    requires before <= more && from <= |before|
    ensures more[from..|before|] == before[from..|before|]
  {
  }

  lemma StartsEpoch(w: Worker, input: Input, frames: int, log: seq<Packet>)
    requires w.turn == Starting(input) && input.pts <= LATEST && input.pts % 1000 == 0 && frames >= 0
    requires !w.started || input.pts != w.nextCapture
    ensures Accumulated(Started(w, input, frames), log)
  {
    hide Consecutive, Boundary, Audio, InEpoch, LogCaptured;
    var chunk := Chunk(input, frames);
    ConsecutiveOne(chunk);
    AudioOne(chunk);
    var after := Started(w, input, frames);
    assert after.fed == [chunk] && after.samples == [] && after.sent == 0;
    assert Done(after) == 0 && Audio(after.fed)[0..0] == [];
  }

  lemma AudioOne(chunk: Chunk)
    ensures |Audio([chunk])| == chunk.frames
  {
    AudioMore([], chunk);
    NoAudio();
    assert [] + [chunk] == [chunk];
  }

  /** A chunk joins the epoch it continues, or starts one at a whole second. */
  lemma StartAccumulates(w: Worker, input: Input, frames: int, log: seq<Packet>)
    requires w.started ==> Accumulated(w, log)
    requires w.turn == Starting(input) && input.pts <= LATEST
    ensures var after := Started(w, input, frames); after.started ==> Accumulated(after, log)
  {
    hide Accumulated, Boundary;
    if Started(w, input, frames).started {
      if w.started && input.pts == w.nextCapture {
        ContinuesEpoch(w, input, frames, log);
      } else {
        StartsEpoch(w, input, frames, log);
      }
    }
  }

  lemma ConsecutiveFirst(fed: seq<Chunk>)
    requires Consecutive(fed)
    ensures fed != []
  {
  }

  lemma NoAudio()
    ensures Audio([]) == []
  {
  }

  /** The next sample accumulated is the next one of the epoch. */
  lemma SampleIsNext(w: Worker, input: Input, left: nat, log: seq<Packet>)
    requires Accumulated(w, log) && w.turn == Feeding(input, left) && left > 0
    ensures 0 <= FRAME_SAMPLES * w.sent <= Done(w) < |Audio(w.fed)|
    ensures w.samples + [input] == Audio(w.fed)[FRAME_SAMPLES * w.sent..Done(w) + 1]
    ensures |w.samples| == Done(w) - FRAME_SAMPLES * w.sent
  {
    hide Audio, InEpoch;
    WholeAudio(w.fed);
    hide Consecutive;
    var done := Done(w);
    assert Audio(w.fed)[done] == input;
  }

  lemma FeedMore(w: Worker, input: Input, left: nat, encoded: bool, clock: nat, log: seq<Packet>)
    requires w.started && Accumulated(w, log) && w.turn == Feeding(input, left) && |w.samples| + 1 < FRAME_SAMPLES
    ensures Accumulated(Fed(w, input, left, encoded, clock), log)
  {
    hide Audio, Boundary, Stale, Consecutive, InEpoch;
    if left > 0 { SampleIsNext(w, input, left, log); }
  }

  lemma FeedCompletes(w: Worker, input: Input, left: nat, encoded: bool, clock: nat, log: seq<Packet>)
    requires w.started && Accumulated(w, log) && w.turn == Feeding(input, left) && |w.samples| + 1 == FRAME_SAMPLES
    ensures var after := Fed(w, input, left, encoded, clock); after.started ==> Accumulated(after, log)
  {
    hide Audio, Boundary, Stale, Consecutive;
    if left > 0 { SampleIsNext(w, input, left, log); }
  }

  lemma FeedAccumulates(w: Worker, input: Input, left: nat, encoded: bool, clock: nat, log: seq<Packet>)
    requires w.started && Accumulated(w, log) && w.turn == Feeding(input, left) && |w.samples| < FRAME_SAMPLES
    ensures var after := Fed(w, input, left, encoded, clock); after.started ==> Accumulated(after, log)
  {
    hide Fed, Accumulated;
    if |w.samples| + 1 < FRAME_SAMPLES {
      FeedMore(w, input, left, encoded, clock, log);
    } else {
      FeedCompletes(w, input, left, encoded, clock, log);
    }
  }

  /** Sending the packet moves the epoch's counters. */
  lemma CommitAccumulates(w: Worker, log: seq<Packet>)
    requires w.turn.Committing? && Accumulated(w, log) && w.samples == [] && !w.primed
    ensures var after := w.(nextPts := (w.nextPts + 40) % TWO64, sent := w.sent + 1,
                            turn := Feeding(w.turn.input, w.turn.left));
            Accumulated(after, log + [w.turn.packet])
  {
    hide Audio, InEpoch;
    NextTime(w.fed[0].input.pts + 40 * w.sent);
  }

  lemma NextTime(pts: nat)
    ensures (pts % TWO64 + 40) % TWO64 == (pts + 40) % TWO64
  {
  }

  lemma LogMore(log: seq<Packet>, packet: Packet)
    requires LogCaptured(log) && InEpoch(log, packet)
    ensures LogCaptured(log + [packet])
  {
    hide InEpoch;
    var more := log + [packet];
    forall n | 0 <= n < |more| ensures InEpoch(more[..n], more[n]) {
      assert more[..n] == log[..n];
      if n == |log| { assert log[..n] == log; }
    }
  }

  lemma WorkerEpochs(s: State, spurious: bool, frames: int, encoded: bool)
    requires Inv(s) && Epochs(s) && frames <= CAPTURE_MAX_FRAMES
    ensures Epochs(WorkerStep(s, spurious, frames, encoded))
  {
    hide Sound, Published, ReceiverOk, BreaksOk, InputsOk, LogCaptured, Accumulated, Started, Fed, FromEpoch, Follows,
         OnClock, PacketOk, CheckedItems, CheckedRoom, Filled, Stored, ReadItem, Taken, Stale, Boundary, BreakStep,
         InEpoch;
    RoomShape(s.output);
    var (w, log, after) := (s.worker, s.output.accepted, WorkerStep(s, spurious, frames, encoded));
    match w.turn
    case Starting(input) => StartAccumulates(w, input, frames, log);
    case Feeding(input, left) => FeedAccumulates(w, input, left, encoded, s.clock, log);
    case Publishing(input, left, packet) => if w.started { PacketTurns(w, log); }
    case Putting(input, left, packet) =>
      FilledShape(s.output, packet);
      if w.started { PacketTurns(w, log); }
    case Committing(input, left, packet) =>
      StoredShape(s.output);
      assert InEpoch(log, packet) by { PacketTurns(w, log); }
      CommitAccumulates(w, log);
      LogMore(log, packet);
    case _ => if w.started && after.worker.started { TurnsKeep(w, log, after.worker.turn); }
  }

  lemma PacketTurns(w: Worker, log: seq<Packet>)
    requires HasPacket(w.turn) && Accumulated(w, log)
    ensures InEpoch(log, w.turn.packet)
    ensures Accumulated(w.(turn := Putting(w.turn.input, w.turn.left, w.turn.packet)), log)
    ensures Accumulated(w.(turn := Committing(w.turn.input, w.turn.left, w.turn.packet)), log)
  {
    hide Consecutive, Audio, InEpoch;
  }

  lemma StepEpochs(s: State, event: Event)
    requires Inv(s) && Epochs(s)
    ensures Epochs(Step(s, event))
  {
    hide Epochs, WorkerStep, SchedulerStep, Inv;
    match event
    case Worked(spurious, frames, encoded) => WorkerEpochs(s, spurious, Min(frames, CAPTURE_MAX_FRAMES), encoded);
    case Scheduled(spurious) =>
      assert Places(s) by { InvPlaces(s); }
      SchedulerLeavesLog(s, spurious);
      SameEpochs(s, Step(s, event));
    case _ => SameEpochs(s, Step(s, event));
  }

  lemma InvPlaces(s: State)
    requires Inv(s)
    ensures Places(s)
  {
  }

  lemma SameEpochs(s: State, after: State)
    requires Epochs(s) && after.worker == s.worker && after.output.accepted == s.output.accepted
    ensures Epochs(after)
  {
  }

  lemma {:induction false} RunEpochs(s: State, events: seq<Event>)
    requires Inv(s) && Epochs(s)
    ensures Epochs(EncodecProofs.Run(s, events))
    decreases |events|
  {
    hide Inv, Epochs, Step;
    if events != [] {
      StepKeeps(s, events[0]);
      StepEpochs(s, events[0]);
      RunEpochs(Step(s, events[0]), events[1..]);
    }
  }

  // ---- what receive returns -----------------------------------------------------------

  ghost predicate AllCaptured(returned: seq<Packet>) {
    forall n :: 0 <= n < |returned| ==> Captured(returned[n])
  }

  /** Each packet that is no reset holds the samples right after the one before. */
  ghost predicate Unbroken(returned: seq<Packet>) {
    forall n :: 0 <= n < |returned| && !returned[n].reset ==> n > 0 && Next(returned[n - 1], returned[n])
  }

  lemma LogPacket(log: seq<Packet>, n: nat)
    requires LogCaptured(log) && n < |log|
    ensures Captured(log[n]) && (!log[n].reset ==> n > 0 && Next(log[n - 1], log[n]))
  {
    hide Captured;
    assert InEpoch(log[..n], log[n]);
  }

  lemma StepCaptured(s: State, event: Event)
    requires Inv(s) && Epochs(s) && AllCaptured(s.returned)
    ensures AllCaptured(Step(s, event).returned)
  {
    hide Sound, Published, InputsOk, WorkerOk, BreaksOk, Captured, Accumulated, WorkerStep, SchedulerStep, LogCaptured;
    match event
    case Scheduled(spurious) =>
      ReturnsFromLog(s, spurious);
      if Step(s, event).returned != s.returned {
        var n :| 0 <= n < |s.output.accepted| && Step(s, event).returned == s.returned + [s.output.accepted[n]];
        LogPacket(s.output.accepted, n);
      }
    case Worked(spurious, frames, encoded) =>
      WorkerLeavesReceiver(s, spurious, Min(frames, CAPTURE_MAX_FRAMES), encoded);
    case _ =>
  }

  lemma {:induction false} RunCaptured(s: State, events: seq<Event>)
    requires Inv(s) && Epochs(s) && AllCaptured(s.returned)
    ensures AllCaptured(EncodecProofs.Run(s, events).returned)
    decreases |events|
  {
    hide Inv, Epochs, Step, AllCaptured;
    if events != [] {
      StepKeeps(s, events[0]);
      StepEpochs(s, events[0]);
      StepCaptured(s, events[0]);
      RunCaptured(Step(s, events[0]), events[1..]);
    }
  }

  /** Every packet returned, in every run, holds the audio of the time it carries:
  its epoch resampled chunks captured 40 ms apart from a whole second on, none
  missing, and the n-th packet of it is the n-th 960 samples of what they gave. */
  lemma PacketsHoldTheirTime(inputSlots: seq<Input>, outputSlots: seq<Packet>, clock: nat, events: seq<Event>, n: nat)
    requires |inputSlots| == ENCODER_RING_SLOTS && |outputSlots| == OUTPUT_SLOTS
    requires n < |EncodecProofs.Run(Initial(inputSlots, outputSlots, clock), events).returned|
    ensures var p := EncodecProofs.Run(Initial(inputSlots, outputSlots, clock), events).returned[n];
            && p.fed != [] && p.fed[0].input.pts % 1000 == 0
            && (forall k :: 0 <= k < |p.fed| ==> p.fed[k].input.pts == p.fed[0].input.pts + 40 * k)
            && 960 * (p.index + 1) <= |Audio(p.fed)|
            && p.sources == Audio(p.fed)[960 * p.index..960 * (p.index + 1)]
            && p.pts == (p.fed[0].input.pts + 40 * p.index) % TWO64
            && p.created == p.sources[0].offered && (p.reset <==> p.index == 0)
  {
    InitialInv(inputSlots, outputSlots, clock);
    var start := Initial(inputSlots, outputSlots, clock);
    RunCaptured(start, events);
    hide Inv, Audio;
    assert Captured(EncodecProofs.Run(start, events).returned[n]);
  }

  lemma StepUnbroken(s: State, event: Event)
    requires Inv(s) && Epochs(s) && Timely(s) && Chained(s) && Unbroken(s.returned)
    ensures Unbroken(Step(s, event).returned)
  {
    hide Sound, Published, InputsOk, WorkerOk, BreaksOk, Captured, Accumulated, WorkerStep, LogCaptured, NextPts;
    match event
    case Scheduled(spurious) =>
      if Deciding(s.scheduler) {
        PacketAt(s);
        LogPacket(s.output.accepted, s.handled);
      } else {
        UndecidedSchedule(s, spurious);
      }
    case Worked(spurious, frames, encoded) =>
      WorkerLeavesReceiver(s, spurious, Min(frames, CAPTURE_MAX_FRAMES), encoded);
    case _ =>
  }

  lemma {:induction false} RunUnbroken(s: State, events: seq<Event>)
    requires Inv(s) && Epochs(s) && Timely(s) && Chained(s) && Unbroken(s.returned) && FitsAlong(s, events)
    ensures Unbroken(EncodecProofs.Run(s, events).returned)
    decreases |events|
  {
    hide Inv, Epochs, Timely, Chained, Step, Unbroken, Fits;
    if events != [] {
      StepKeeps(s, events[0]);
      StepEpochs(s, events[0]);
      TimelyKeeps(s, events[0]);
      ChainedKeeps(s, events[0]);
      StepUnbroken(s, events[0]);
      RunUnbroken(Step(s, events[0]), events[1..]);
    }
  }

  /** Gap-free audio: under every interleaving of offers, worker steps, breaks and
  receives, each returned packet either continues the one returned before it,
  exactly 40 ms later on the 64-bit clock, in the same generation and with the very
  next 960 samples of the same epoch, or resets the decoder at a whole second. */
  lemma GapFreeAudio(inputSlots: seq<Input>, outputSlots: seq<Packet>, clock: nat, events: seq<Event>, n: nat)
    requires |inputSlots| == ENCODER_RING_SLOTS && |outputSlots| == OUTPUT_SLOTS
    requires FitsAlong(Initial(inputSlots, outputSlots, clock), events)
    requires n < |EncodecProofs.Run(Initial(inputSlots, outputSlots, clock), events).returned|
    ensures var returned := EncodecProofs.Run(Initial(inputSlots, outputSlots, clock), events).returned;
            if returned[n].reset then returned[n].pts % 1000 == 0
            else
              && n > 0 && returned[n].pts == NextPts(returned[n - 1].pts)
              && returned[n].generation == returned[n - 1].generation
              && returned[n - 1].index + 1 == returned[n].index && returned[n - 1].fed <= returned[n].fed
  {
    hide EncodecProofs.Run, FitsAlong, Inv;
    InitialInv(inputSlots, outputSlots, clock);
    RunGapFree(Initial(inputSlots, outputSlots, clock), events);
    RunUnbroken(Initial(inputSlots, outputSlots, clock), events);
    var returned := EncodecProofs.Run(Initial(inputSlots, outputSlots, clock), events).returned;
    assert GapFree(returned) && Continues(returned, n) && Unbroken(returned);
  }
}
