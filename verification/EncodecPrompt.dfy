/** That the pipeline encodes: when both threads keep up, every chunk offered comes
back as one packet, at its own time, made of its own samples. */
module EncodecPrompt {
  import opened Bytes
  import opened Ring
  import opened Encodec
  import opened EncodecProofs

  const SCHEDULE := Scheduled(false)
  const WORK := Worked(false, FRAME_SAMPLES, true)

  /** Nothing is queued, nothing is under way and no sample waits. */
  ghost predicate Drained(s: State) {
    && Inv(s) && s.scheduler.Idle? && s.worker.turn.Top?
    && s.input.accepted == s.input.consumed && s.output.accepted == s.output.consumed
    && (s.worker.started && s.worker.generation == s.broken ==> s.worker.samples == [])
  }

  predicate Anew(w: Worker, broken: nat, pts: nat) {
    !(w.started && w.generation == broken && w.nextCapture == pts)
  }

  /** The epoch goes on with a chunk of this time, and its next packet is of this time. */
  predicate Continuing(s: State, pts: nat) {
    var w := s.worker;
    w.started && w.generation == s.broken && w.nextCapture == pts == w.nextPts && !w.primed
  }

  /** A chunk that continues the epoch, or may start one. */
  predicate Welcome(s: State, pts: nat) {
    && pts % 40 == 0 && pts <= LATEST && s.broken <= pts
    && (Continuing(s, pts) || (pts % 1000 == 0 && Anew(s.worker, s.broken, pts)))
  }

  function Repeat(event: Event, n: nat): (events: seq<Event>)
    ensures |events| == n && forall k :: 0 <= k < n ==> events[k] == event
  {
    seq(n, _ => event)
  }

  function Steps(s: State, event: Event, n: nat): State
    decreases n
  {
    if n == 0 then s else Steps(Step(s, event), event, n - 1)
  }

  lemma {:induction false} RepeatRuns(s: State, event: Event, n: nat)
    ensures EncodecProofs.Run(s, Repeat(event, n)) == Steps(s, event, n)
    decreases n
  {
    hide Step;
    if n > 0 {
      assert Repeat(event, n)[1..] == Repeat(event, n - 1);
      RepeatRuns(Step(s, event), event, n - 1);
    }
  }

  lemma {:induction false} RunJoins(s: State, first: seq<Event>, second: seq<Event>)
    ensures EncodecProofs.Run(s, first + second) == EncodecProofs.Run(EncodecProofs.Run(s, first), second)
    decreases |first|
  {
    hide Step;
    if first == [] {
      assert first + second == second;
    } else {
      assert (first + second)[1..] == first[1..] + second;
      RunJoins(Step(s, first[0]), first[1..], second);
    }
  }

  lemma {:induction false} StepsKeep(s: State, event: Event, n: nat)
    requires Inv(s)
    ensures Inv(Steps(s, event, n))
    decreases n
  {
    hide Inv, Step;
    if n > 0 {
      StepKeeps(s, event);
      StepsKeep(Step(s, event), event, n - 1);
    }
  }

  // ---- the offer ----------------------------------------------------------------------

  ghost predicate Queued(s: State, after: State, input: Input) {
    && Inv(after) && after == s.(input := after.input)
    && after.input.accepted == s.input.accepted + [input] && after.input.consumed == s.input.consumed
  }

  /** An offer that is not before the boundary is queued when there is room. */
  lemma OfferQueued(s: State, pts: nat, pcm: seq<Byte>)
    requires Inv(s) && s.scheduler.Idle? && pts % 40 == 0 && pts <= LATEST && s.broken <= pts
    requires |s.input.accepted| - |s.input.consumed| < 6
    ensures Queued(s, Steps(Step(s, Offer(pts, pcm)), SCHEDULE, 4), Input(pts, s.clock, s.broken, pcm))
  {
    var a := Step(s, Offer(pts, pcm));
    var input := Input(pts, s.clock, s.broken, pcm);
    StepKeeps(s, Offer(pts, pcm));
    StepsKeep(a, SCHEDULE, 4);
    FourSteps(a, SCHEDULE);
    assert s.input.producer.Out? && Sound(s.input) && |s.input.slots| == 8 && s.input.limit == 6;
    CheckedRoomSound(s.input);
    RoomShape(s.input);
    hide Inv, Sound, CheckedRoom, Filled, Stored;
    var b := Step(a, SCHEDULE);
    assert b == s.(scheduler := Admitting(pts, s.clock, pcm));
    var c := Step(b, SCHEDULE);
    assert c == s.(input := s.input.(producer := Checked), scheduler := Tagging(pts, s.clock, pcm));
    var d := Step(c, SCHEDULE);
    FilledShape(c.input, input);
    assert d == s.(input := Filled(c.input, input), scheduler := Storing);
    StoredShape(d.input);
  }

  lemma FourSteps(s: State, event: Event)
    ensures Steps(s, event, 4) == Step(Step(Step(Step(s, event), event), event), event)
  {
    hide Step;
    assert Steps(s, event, 4) == Steps(Step(s, event), event, 3);
    assert Steps(Step(s, event), event, 3) == Steps(Step(Step(s, event), event), event, 2);
  }

  // ---- the worker ------------------------------------------------------------------------

  /** The worker once it takes up the chunk. */
  function Begun(w: Worker, broken: nat, input: Input): Worker {
    var anew := Anew(w, broken, input.pts);
    w.(turn := Feeding(input, FRAME_SAMPLES), generation := broken, nextCapture := (input.pts + 40) % TWO64,
       nextPts := if anew then input.pts else w.nextPts, started := true, primed := if anew then true else w.primed,
       samples := [], sent := if anew then 0 else w.sent,
       fed := (if anew then [] else w.fed) + [Chunk(input, FRAME_SAMPLES)])
  }

  ghost predicate Timely(s: State, input: Input) {
    && input.generation == s.broken <= input.pts && (s.clock - input.offered) % TWO64 <= 250
    && (input.pts % 1000 == 0 || !Anew(s.worker, s.broken, input.pts))
    && (s.worker.started && s.worker.generation == s.broken ==> s.worker.samples == [])
  }

  lemma TopAndRoom(s: State)
    requires Inv(s) && s.worker.turn.Top? && s.output.accepted == s.output.consumed
    ensures var w := if s.worker.generation != s.broken
                     then s.worker.(generation := s.broken, started := false, samples := []) else s.worker;
            Steps(s, WORK, 2) == s.(worker := w.(turn := Looking))
  {
    LiveCounts(s.output);
    hide Inv, Live, CheckedItems, ReadItem, Taken;
    assert Steps(s, WORK, 2) == Step(Step(s, WORK), WORK) by { TwoSteps(s, WORK); }
  }

  /** The worker looks for input, and a packet is taken, exactly while fewer than two
  packets wait. */
  lemma RoomIff(s: State)
    requires Inv(s)
    ensures var free := |s.output.accepted| - |s.output.consumed| < 2;
            && (s.worker.turn.Room? ==> Step(s, WORK).worker.turn == if free then Looking else Top)
            && (s.worker.turn.Publishing? ==> (Step(s, WORK).worker.turn.Putting? <==> free))
  {
    LiveCounts(s.output);
    hide Live;
  }

  lemma TwoSteps(s: State, event: Event)
    ensures Steps(s, event, 2) == Step(Step(s, event), event)
  {
    hide Step;
    assert Steps(Step(s, event), event, 1) == Steps(Step(Step(s, event), event), event, 0);
  }

  lemma ThreeSteps(s: State, event: Event)
    ensures Steps(s, event, 3) == Step(Step(Step(s, event), event), event)
  {
    hide Step;
    TwoSteps(Step(s, event), event);
  }

  lemma {:induction false} StepsJoin(s: State, event: Event, n: nat, m: nat)
    ensures Steps(s, event, n + m) == Steps(Steps(s, event, n), event, m)
    decreases n
  {
    hide Step;
    if n > 0 { StepsJoin(Step(s, event), event, n - 1, m); }
  }

  /** The input ring hands over the one input it holds. */
  lemma Fetches(s: State, input: Input)
    requires Inv(s) && s.worker.turn.Looking? && s.input.accepted == s.input.consumed + [input]
    ensures var after := Steps(s, WORK, 3);
            && after == s.(input := after.input, worker := after.worker)
            && after.input.accepted == s.input.accepted == after.input.consumed
            && after.worker ==
               s.worker.(turn := if input.generation != s.worker.generation then Top else Judging(input))
  {
    assert Sound(s.input) && s.input.consumer.Away? && |s.input.slots| == 8;
    var ready := CheckedItems(s.input);
    CheckedItemsSound(s.input);
    ItemsShape(s.input);
    ReadSound(ready);
    ReadShape(ready);
    var held := ReadItem(ready);
    TakenSound(held);
    TakenShape(held);
    hide Inv, Sound, CheckedItems, ReadItem, Taken;
    ThreeSteps(s, WORK);
    var a := Step(s, WORK);
    assert a == s.(input := ready, worker := s.worker.(turn := Reading));
    var b := Step(a, WORK);
    assert b == s.(input := held, worker := s.worker.(turn := Taking));
  }

  lemma Begins(s: State, input: Input)
    requires s.worker.turn == Judging(input) && input.pts <= LATEST && s.worker.generation == s.broken
    requires Timely(s, input)
    ensures Steps(s, WORK, 2) == s.(worker := Begun(s.worker, s.broken, input))
  {
    TwoSteps(s, WORK);
    var a := Step(s, WORK);
    assert a == s.(worker := s.worker.(turn := Starting(input)));
  }

  lemma TakesUp(s: State, input: Input)
    requires Inv(s) && s.worker.turn.Top? && s.output.accepted == s.output.consumed
    requires s.input.accepted == s.input.consumed + [input] && input.pts <= LATEST && Timely(s, input)
    ensures var after := Steps(s, WORK, 7);
            && Inv(after) && after == s.(input := after.input, worker := Begun(s.worker, s.broken, input))
            && after.input.accepted == s.input.accepted == after.input.consumed
  {
    hide Inv, Steps, Step, Begun;
    StepsKeep(s, WORK, 2);
    StepsKeep(s, WORK, 7);
    StepsJoin(s, WORK, 2, 5);
    TopAndRoom(s);
    var a := Steps(s, WORK, 2);
    StepsJoin(a, WORK, 3, 2);
    Fetches(a, input);
    var b := Steps(a, WORK, 3);
    assert Timely(b, input);
    Begins(b, input);
    BegunAnyway(s, b, input);
  }

  /** Where the worker left an older generation, it starts anew in any case. */
  lemma BegunAnyway(s: State, b: State, input: Input)
    requires input.generation == s.broken
    requires b.worker == (if s.worker.generation != s.broken
                          then s.worker.(generation := s.broken, started := false, samples := [])
                          else s.worker).(turn := Judging(input))
    ensures Begun(b.worker, s.broken, input) == Begun(s.worker, s.broken, input)
  {
  }

  // ---- one frame ----------------------------------------------------------------------------

  lemma {:induction false} Feeds(s: State, n: nat)
    requires s.worker.turn.Feeding? && n <= s.worker.turn.left && |s.worker.samples| + n < FRAME_SAMPLES
    ensures var (w, input) := (s.worker, s.worker.turn.input);
            Steps(s, WORK, n) ==
            s.(worker := w.(oldest := if w.samples == [] && n > 0 then input.offered else w.oldest,
                            samples := w.samples + seq(n, _ => input), turn := Feeding(input, w.turn.left - n)))
    decreases n
  {
    hide Stale, Boundary;
    var (w, input) := (s.worker, s.worker.turn.input);
    if n == 0 {
      assert w.samples + seq(0, _ => input) == w.samples;
    } else {
      var next := Step(s, WORK);
      assert next.worker.samples == w.samples + [input] && next.worker.turn == Feeding(input, w.turn.left - 1);
      Feeds(next, n - 1);
      assert (w.samples + [input]) + seq(n - 1, _ => input) == w.samples + seq(n, _ => input);
    }
  }

  function Made(w: Worker, input: Input): Packet {
    Packet(w.nextPts, w.primed, input.offered, w.generation, seq(FRAME_SAMPLES, _ => input), w.sent, w.fed)
  }

  lemma Packs(s: State, input: Input)
    requires s.worker.turn == Feeding(input, FRAME_SAMPLES) && s.worker.samples == []
    requires (s.clock - input.offered) % TWO64 <= 250
    ensures var w := s.worker;
            Steps(s, WORK, 960) ==
            s.(worker := w.(oldest := input.offered, primed := false, turn := Publishing(input, 0, Made(w, input))))
  {
    hide Steps;
    StepsJoin(s, WORK, 959, 1);
    Feeds(s, 959);
    var a := Steps(s, WORK, 959);
    assert a.worker.samples == seq(959, _ => input);
    OneStep(a, WORK);
    Completes(a, input);
  }

  lemma Completes(a: State, input: Input)
    requires a.worker.turn == Feeding(input, 1) && a.worker.samples == seq(959, _ => input)
    requires a.worker.oldest == input.offered && (a.clock - input.offered) % TWO64 <= 250
    ensures var w := a.worker;
            Step(a, WORK) ==
            a.(worker := w.(samples := [], primed := false, turn := Publishing(input, 0, Made(w, input))))
  {
    hide Boundary;
    assert a.worker.samples + [input] == seq(960, _ => input);
  }

  lemma OneStep(s: State, event: Event)
    ensures Steps(s, event, 1) == Step(s, event)
  {
    hide Step;
    assert Steps(Step(s, event), event, 0) == Step(s, event);
  }

  lemma Puts(s: State, input: Input, packet: Packet)
    requires Inv(s) && s.worker.turn == Publishing(input, 0, packet)
    requires s.output.accepted == s.output.consumed
    ensures var checked := s.output.(producer := Checked);
            && checked.slots != []
            && Steps(s, WORK, 2) ==
               s.(output := Filled(checked, packet), worker := s.worker.(turn := Committing(input, 0, packet)))
  {
    hide Filled, Steps;
    assert s.output.producer.Out? && Sound(s.output) && |s.output.slots| == 2 && s.output.limit == 2;
    CheckedRoomSound(s.output);
    RoomShape(s.output);
    hide Inv, Sound, CheckedRoom;
    TwoSteps(s, WORK);
    var a := Step(s, WORK);
    assert a == s.(output := s.output.(producer := Checked), worker := s.worker.(turn := Putting(input, 0, packet)));
  }

  lemma Commits(b: State, input: Input, packet: Packet)
    requires b.worker.turn == Committing(input, 0, packet) && b.output.producer == Wrote(packet)
    ensures Steps(b, WORK, 2) ==
            b.(output := Stored(b.output),
               worker := b.worker.(nextPts := (b.worker.nextPts + 40) % TWO64, sent := b.worker.sent + 1, turn := Top))
  {
    hide Stored, Steps;
    TwoSteps(b, WORK);
    var c := Step(b, WORK);
    assert c == b.(output := Stored(b.output),
                   worker := b.worker.(nextPts := (b.worker.nextPts + 40) % TWO64, sent := b.worker.sent + 1,
                                       turn := Feeding(input, 0)));
  }

  /** The packet goes into the output ring and the worker returns to the top. */
  lemma Publishes(s: State, input: Input, packet: Packet)
    requires Inv(s) && s.worker.turn == Publishing(input, 0, packet)
    requires s.output.accepted == s.output.consumed
    ensures var after := Steps(s, WORK, 4);
            && after == s.(output := after.output,
                           worker := s.worker.(nextPts := (s.worker.nextPts + 40) % TWO64, sent := s.worker.sent + 1,
                                               turn := Top))
            && after.output.accepted == s.output.accepted + [packet] && after.output.consumed == s.output.consumed
  {
    hide Inv, Steps, Step, Filled, Stored;
    StepsJoin(s, WORK, 2, 2);
    Puts(s, input, packet);
    FilledShape(s.output.(producer := Checked), packet);
    var b := Steps(s, WORK, 2);
    Commits(b, input, packet);
    StoredShape(b.output);
  }

  // ---- the receive -----------------------------------------------------------------------------

  /** The output ring hands over the one packet it holds. */
  lemma Copies(s: State, packet: Packet)
    requires Inv(s) && s.scheduler.Polling? && s.output.accepted == s.output.consumed + [packet]
    ensures var after := Steps(s, SCHEDULE, 3);
            && after == s.(output := after.output, scheduler := Checking(packet))
            && after.output.accepted == s.output.accepted == after.output.consumed
  {
    hide Steps;
    assert Sound(s.output) && s.output.consumer.Away? && |s.output.slots| == 2;
    var ready := CheckedItems(s.output);
    CheckedItemsSound(s.output);
    ItemsShape(s.output);
    ReadSound(ready);
    ReadShape(ready);
    var held := ReadItem(ready);
    TakenSound(held);
    TakenShape(held);
    hide Inv, Sound, CheckedItems, ReadItem, Taken;
    ThreeSteps(s, SCHEDULE);
    var a := Step(s, SCHEDULE);
    assert a == s.(output := ready, scheduler := Copying);
    var b := Step(a, SCHEDULE);
    assert b == s.(output := held, scheduler := Popping);
  }

  lemma PassesGeneration(s: State, packet: Packet)
    requires s.scheduler == Checking(packet) && packet.generation == s.broken
    ensures Step(s, SCHEDULE) == s.(scheduler := Timing(packet))
  {
  }

  lemma PassesBoundary(s: State, packet: Packet)
    requires s.scheduler == Timing(packet) && s.broken <= packet.pts
    ensures Step(s, SCHEDULE) == s.(scheduler := Aging(packet))
  {
  }

  lemma PassesAge(s: State, packet: Packet)
    requires s.scheduler == Aging(packet) && (s.clock - packet.created) % TWO64 <= 250
    ensures Step(s, SCHEDULE) ==
            s.(scheduler := Idle, returned := s.returned + [packet], handled := s.handled + 1, kept := true)
  {
  }

  /** A packet of the current generation, not before the boundary and at most 250 ms
  old passes. */
  lemma Passes(s: State, packet: Packet)
    requires s.scheduler == Checking(packet)
    requires packet.generation == s.broken <= packet.pts && (s.clock - packet.created) % TWO64 <= 250
    ensures Steps(s, SCHEDULE, 3) ==
            s.(scheduler := Idle, returned := s.returned + [packet], handled := s.handled + 1, kept := true)
  {
    hide Steps, Step;
    ThreeSteps(s, SCHEDULE);
    PassesGeneration(s, packet);
    PassesBoundary(s.(scheduler := Timing(packet)), packet);
    PassesAge(s.(scheduler := Aging(packet)), packet);
  }

  lemma StartsPolling(s: State)
    requires s.scheduler.Idle?
    ensures Step(s, Receive) == s.(scheduler := Polling)
  {
  }

  lemma ReceiveReturns(s: State, packet: Packet)
    requires Inv(s) && s.scheduler.Idle? && s.output.accepted == s.output.consumed + [packet]
    requires packet.generation == s.broken <= packet.pts && (s.clock - packet.created) % TWO64 <= 250
    ensures var after := Steps(Step(s, Receive), SCHEDULE, 6);
            && after == s.(output := after.output, returned := s.returned + [packet], handled := s.handled + 1,
                           kept := true)
            && after.output.accepted == s.output.accepted == after.output.consumed
  {
    hide Inv, Steps, Step;
    StepKeeps(s, Receive);
    StartsPolling(s);
    var polling := Step(s, Receive);
    StepsJoin(polling, SCHEDULE, 3, 3);
    Copies(polling, packet);
    Passes(Steps(polling, SCHEDULE, 3), packet);
  }

  // ---- chunk by chunk ---------------------------------------------------------------------------

  /** One chunk offered, `wait` ms until the worker takes it, and `late` ms until the
  packet is received. */
  function Prompt(pts: nat, pcm: seq<Byte>, wait: nat, late: nat): seq<Event> {
    ([Offer(pts, pcm)] + Repeat(SCHEDULE, 4)) + ([Tick(wait)] + Repeat(WORK, 971)) +
    ([Tick(late), Receive] + Repeat(SCHEDULE, 6))
  }

  lemma RunThen(s: State, event: Event, again: Event, n: nat)
    ensures EncodecProofs.Run(s, [event] + Repeat(again, n)) == Steps(Step(s, event), again, n)
  {
    hide Step;
    assert ([event] + Repeat(again, n))[1..] == Repeat(again, n);
    RepeatRuns(Step(s, event), again, n);
  }

  lemma RunThenTwo(s: State, first: Event, second: Event, again: Event, n: nat)
    ensures EncodecProofs.Run(s, [first, second] + Repeat(again, n)) == Steps(Step(Step(s, first), second), again, n)
  {
    hide Step;
    assert ([first, second] + Repeat(again, n))[1..] == [second] + Repeat(again, n);
    RunThen(Step(s, first), second, again, n);
  }

  lemma PromptRuns(s: State, pts: nat, pcm: seq<Byte>, wait: nat, late: nat)
    ensures EncodecProofs.Run(s, Prompt(pts, pcm, wait, late)) ==
            var queued := Steps(Step(s, Offer(pts, pcm)), SCHEDULE, 4);
            var encoded := Steps(Step(queued, Tick(wait)), WORK, 971);
            Steps(Step(Step(encoded, Tick(late)), Receive), SCHEDULE, 6)
  {
    hide Step, Steps, EncodecProofs.Run;
    var offer, encode := [Offer(pts, pcm)] + Repeat(SCHEDULE, 4), [Tick(wait)] + Repeat(WORK, 971);
    var receive := [Tick(late), Receive] + Repeat(SCHEDULE, 6);
    RunJoins(s, offer + encode, receive);
    RunJoins(s, offer, encode);
    RunThen(s, Offer(pts, pcm), SCHEDULE, 4);
    var queued := Steps(Step(s, Offer(pts, pcm)), SCHEDULE, 4);
    RunThen(queued, Tick(wait), WORK, 971);
    var encoded := Steps(Step(queued, Tick(wait)), WORK, 971);
    RunThenTwo(encoded, Tick(late), Receive, SCHEDULE, 6);
  }

  /** What a prompt chunk becomes. */
  ghost predicate Becomes(s: State, p: Packet, pts: nat, pcm: seq<Byte>) {
    && p.pts == pts && (p.reset <==> !Continuing(s, pts)) && p.generation == s.broken
    && |p.sources| == FRAME_SAMPLES
    && forall k :: 0 <= k < |p.sources| ==> p.sources[k] == Input(pts, s.clock, s.broken, pcm)
  }

  lemma MadeOf(s: State, w: Worker, input: Input, pcm: seq<Byte>)
    requires input == Input(input.pts, s.clock, s.broken, pcm) && Welcome(s, input.pts)
    requires w == Begun(s.worker, s.broken, input)
    ensures Becomes(s, Made(w, input), input.pts, pcm) && Made(w, input).created == s.clock
    ensures var after := w.(oldest := input.offered, primed := false, nextPts := (w.nextPts + 40) % TWO64,
                            sent := w.sent + 1, turn := Top);
            && after.started && after.generation == s.broken && !after.primed && after.samples == []
            && after.nextCapture == input.pts + 40 == after.nextPts
  {
  }

  /** The worker's part: a queued chunk becomes a packet in the output ring. */
  lemma Encodes(s: State, input: Input, pcm: seq<Byte>, wait: nat)
    requires Inv(s) && s.worker.turn.Top? && s.output.accepted == s.output.consumed
    requires s.worker.started && s.worker.generation == s.broken ==> s.worker.samples == []
    requires s.input.accepted == s.input.consumed + [input] && wait <= 250
    requires input == Input(input.pts, s.clock, s.broken, pcm) && Welcome(s, input.pts)
    ensures var after := Steps(Step(s, Tick(wait)), WORK, 971);
            var made := Made(Begun(s.worker, s.broken, input), input);
            && Inv(after)
            && after ==
               s.(clock := s.clock + wait, input := after.input, output := after.output, worker := after.worker)
            && after.input.accepted == after.input.consumed
            && after.output.accepted == s.output.accepted + [made] && after.output.consumed == s.output.consumed
            && Becomes(s, made, input.pts, pcm) && made.created == s.clock
            && after.worker.turn.Top? && after.worker.started && after.worker.generation == s.broken
            && !after.worker.primed && after.worker.samples == []
            && after.worker.nextCapture == input.pts + 40 == after.worker.nextPts
  {
    hide Inv, Steps, Step, Begun, Becomes;
    StepKeeps(s, Tick(wait));
    var t := Step(s, Tick(wait));
    Ticks(s, wait);
    StepsKeep(t, WORK, 971);
    StepsJoin(t, WORK, 7, 964);
    assert Timely(t, input);
    TakesUp(t, input);
    var begun := Steps(t, WORK, 7);
    StepsJoin(begun, WORK, 960, 4);
    BegunFeeds(t.worker, t.broken, input);
    Packs(begun, input);
    StepsKeep(begun, WORK, 960);
    var packed := Steps(begun, WORK, 960);
    var made := Made(begun.worker, input);
    Publishes(packed, input, made);
    MadeOf(s, begun.worker, input, pcm);
  }

  lemma BegunFeeds(w: Worker, broken: nat, input: Input)
    ensures var b := Begun(w, broken, input); b.turn == Feeding(input, FRAME_SAMPLES) && b.samples == []
  {
  }

  lemma Ticks(s: State, elapsed: nat)
    ensures Step(s, Tick(elapsed)) == s.(clock := s.clock + elapsed)
  {
  }

  /** One prompt chunk comes back as one packet, and the pipeline is ready for the
  next. */
  lemma PromptChunk(s: State, pts: nat, pcm: seq<Byte>, wait: nat, late: nat)
    requires Drained(s) && Welcome(s, pts) && wait + late <= 250
    ensures var after := EncodecProofs.Run(s, Prompt(pts, pcm, wait, late));
            && Drained(after) && Continuing(after, pts + 40) && after.broken == s.broken
            && |after.returned| == |s.returned| + 1 && s.returned <= after.returned
            && Becomes(s, after.returned[|s.returned|], pts, pcm)
  {
    PromptRuns(s, pts, pcm, wait, late);
    hide Steps, Step, Inv, Becomes, EncodecProofs.Run;
    var input := Input(pts, s.clock, s.broken, pcm);
    OfferQueued(s, pts, pcm);
    var queued := Steps(Step(s, Offer(pts, pcm)), SCHEDULE, 4);
    Encodes(queued, input, pcm, wait);
    var encoded := Steps(Step(queued, Tick(wait)), WORK, 971);
    StepKeeps(encoded, Tick(late));
    Ticks(encoded, late);
    var ticked := Step(encoded, Tick(late));
    var made := Made(Begun(queued.worker, queued.broken, input), input);
    assert made.generation == s.broken && made.pts == pts by { BecomesIs(queued, made, pts, pcm); }
    ReceiveReturns(ticked, made);
    StepKeeps(ticked, Receive);
    StepsKeep(Step(ticked, Receive), SCHEDULE, 6);
    SameBecoming(s, queued, made, pts, pcm);
  }

  lemma BecomesIs(s: State, p: Packet, pts: nat, pcm: seq<Byte>)
    requires Becomes(s, p, pts, pcm)
    ensures p.generation == s.broken && p.pts == pts
  {
  }

  lemma SameBecoming(s: State, queued: State, p: Packet, pts: nat, pcm: seq<Byte>)
    requires Becomes(queued, p, pts, pcm) && queued == s.(input := queued.input)
    ensures Becomes(s, p, pts, pcm)
  {
  }

  // ---- a whole epoch ----------------------------------------------------------------------------

  datatype Capture = Capture(pcm: seq<Byte>, wait: nat, late: nat)

  /** Chunks offered 40 ms of audio after one another. */
  function Stream(captures: seq<Capture>, pts: nat): seq<Event>
    decreases |captures|
  {
    if captures == [] then []
    else Prompt(pts, captures[0].pcm, captures[0].wait, captures[0].late) + Stream(captures[1..], pts + 40)
  }

  ghost predicate AllPrompt(captures: seq<Capture>) {
    forall k :: 0 <= k < |captures| ==> captures[k].wait + captures[k].late <= 250
  }

  /** One packet for each chunk, at its own time, all its samples of that chunk. */
  ghost predicate Answers(packets: seq<Packet>, captures: seq<Capture>, pts: nat, anew: bool) {
    && |packets| == |captures|
    && forall k :: 0 <= k < |captures| ==>
         var p := packets[k];
         && p.pts == pts + 40 * k && (p.reset <==> k == 0 && anew)
         && |p.sources| == 960
         && forall n :: 0 <= n < 960 ==> p.sources[n].pts == pts + 40 * k && p.sources[n].pcm == captures[k].pcm
  }

  lemma AnswersMore(s: State, p: Packet, packets: seq<Packet>, captures: seq<Capture>, pts: nat)
    requires captures != [] && Becomes(s, p, pts, captures[0].pcm) && Answers(packets, captures[1..], pts + 40, false)
    ensures Answers([p] + packets, captures, pts, !Continuing(s, pts))
  {
    hide Continuing;
    var all := [p] + packets;
    forall k | 0 <= k < |captures|
      ensures all[k].pts == pts + 40 * k && (all[k].reset <==> k == 0 && !Continuing(s, pts)) && |all[k].sources| == 960
      ensures forall n :: 0 <= n < 960 ==>
                all[k].sources[n].pts == pts + 40 * k && all[k].sources[n].pcm == captures[k].pcm
    {
      if k > 0 { assert all[k] == packets[k - 1] && captures[1..][k - 1] == captures[k]; }
    }
  }

  lemma StreamJoins(s: State, captures: seq<Capture>, pts: nat)
    requires captures != []
    ensures var c := captures[0];
            EncodecProofs.Run(s, Stream(captures, pts)) ==
            EncodecProofs.Run(EncodecProofs.Run(s, Prompt(pts, c.pcm, c.wait, c.late)), Stream(captures[1..], pts + 40))
  {
    hide Prompt, EncodecProofs.Run;
    var c := captures[0];
    RunJoins(s, Prompt(pts, c.pcm, c.wait, c.late), Stream(captures[1..], pts + 40));
  }

  lemma NothingOffered(s: State, pts: nat)
    ensures EncodecProofs.Run(s, Stream([], pts)) == s && Answers(s.returned[|s.returned|..], [], pts, true)
    ensures Answers(s.returned[|s.returned|..], [], pts, false)
  {
  }

  /** Nothing is lost without cause: in an uninterrupted stream whose every packet is
  received within 250 ms of its chunk's offer, each chunk comes back as one packet,
  in order, at its own time, all 960 samples its own; only the first may reset. */
  lemma {:induction false} PromptAudio(s: State, captures: seq<Capture>, pts: nat)
    requires Drained(s) && AllPrompt(captures)
    requires captures != [] ==> Welcome(s, pts) && pts + 40 * (|captures| - 1) <= LATEST
    ensures var after := EncodecProofs.Run(s, Stream(captures, pts));
            && Drained(after) && s.returned <= after.returned
            && Answers(after.returned[|s.returned|..], captures, pts, !Continuing(s, pts))
    decreases |captures|
  {
    hide Prompt, Drained, Continuing, EncodecProofs.Run, Answers, Becomes, Stream, Welcome;
    if captures == [] {
      NothingOffered(s, pts);
    } else {
      var c := captures[0];
      PromptChunk(s, pts, c.pcm, c.wait, c.late);
      StreamJoins(s, captures, pts);
      var next := EncodecProofs.Run(s, Prompt(pts, c.pcm, c.wait, c.late));
      if captures[1..] != [] { StillWelcome(s, next, pts); }
      PromptAudio(next, captures[1..], pts + 40);
      var after := EncodecProofs.Run(s, Stream(captures, pts));
      var (p, packets) := (next.returned[|s.returned|], after.returned[|next.returned|..]);
      AnswersMore(s, p, packets, captures, pts);
      assert after.returned[|s.returned|..] == [p] + packets;
    }
  }

  lemma StillWelcome(s: State, next: State, pts: nat)
    requires Welcome(s, pts) && Continuing(next, pts + 40) && next.broken == s.broken && pts + 40 <= LATEST
    ensures Welcome(next, pts + 40)
  {
  }

  /** A pipeline just opened is drained, and takes a chunk at any whole second. */
  lemma OpenedIsDrained(inputSlots: seq<Input>, outputSlots: seq<Packet>, clock: nat, pts: nat)
    requires |inputSlots| == ENCODER_RING_SLOTS && |outputSlots| == OUTPUT_SLOTS
    requires pts % 1000 == 0 && pts <= LATEST
    ensures var s := Initial(inputSlots, outputSlots, clock);
            Drained(s) && Welcome(s, pts) && !Continuing(s, pts)
  {
    hide Inv;
    InitialInv(inputSlots, outputSlots, clock);
    WholeChunks(pts);
  }

  lemma WholeChunks(pts: nat)
    requires pts % 1000 == 0
    ensures pts % 40 == 0
  {
    assert pts == 40 * (25 * (pts / 1000));
    TimesForty(25 * (pts / 1000));
  }

  lemma TimesForty(n: nat)
    ensures 40 * n % 40 == 0
  {
  }

  // ---- what breaks an epoch ------------------------------------------------------------------------

  /** The next whole second. */
  function Second(pts: nat): nat {
    (pts / 1000 + 1) * 1000
  }

  lemma SecondIs(pts: nat)
    requires pts <= LATEST
    ensures Boundary(pts) == Second(pts) && pts < Second(pts) <= pts + 1000
  {
  }

  /** With six chunks queued a seventh is refused, and nothing timed before the next
  whole second passes any more. */
  lemma OverflowBreaks(s: State, pts: nat, pcm: seq<Byte>)
    requires Inv(s) && s.scheduler.Idle? && pts % 40 == 0 && pts <= LATEST && s.broken <= pts
    requires |s.input.accepted| - |s.input.consumed| == 6
    ensures Steps(Step(s, Offer(pts, pcm)), SCHEDULE, 4) == s.(broken := Second(pts))
  {
    var a := Step(s, Offer(pts, pcm));
    FourSteps(a, SCHEDULE);
    assert s.input.producer.Out? && Sound(s.input) && s.input.limit == 6;
    CheckedRoomSound(s.input);
    RoomShape(s.input);
    SecondIs(pts);
    hide Inv, Sound, CheckedRoom, Filled, Stored, Boundary, Steps;
    var b := Step(a, SCHEDULE);
    assert b == s.(scheduler := Admitting(pts, s.clock, pcm));
    var c := Step(b, SCHEDULE);
    assert c == s.(scheduler := OfferBreaking(Loading(Second(pts))));
    var d := Step(c, SCHEDULE);
    assert d == s.(scheduler := OfferBreaking(Trying(Second(pts), s.broken)));
  }

  /** An offer before the boundary is refused and leaves everything as it was. */
  lemma EarlyOfferRefused(s: State, pts: nat, pcm: seq<Byte>)
    requires s.scheduler.Idle? && pts < s.broken
    ensures pts % 40 == 0 && pts <= LATEST ==> Step(Step(s, Offer(pts, pcm)), SCHEDULE) == s
    ensures pts % 40 != 0 || pts > LATEST ==> Step(s, Offer(pts, pcm)) == s
  {
  }

  lemma WorkerBreaks(s: State, boundary: nat)
    requires s.worker.turn == Breaking(Loading(boundary)) && s.broken < boundary
    ensures Steps(s, WORK, 2) == s.(broken := boundary, worker := s.worker.(turn := Top))
  {
    TwoSteps(s, WORK);
    hide Steps;
    var a := Step(s, WORK);
    assert a == s.(worker := s.worker.(turn := Breaking(Trying(boundary, s.broken))));
  }

  /** A chunk the worker gets to after more than 250 ms ends the epoch, and so does one
  that neither continues it nor starts a second. */
  lemma LateChunkBreaks(s: State, input: Input)
    requires s.worker.turn == Judging(input) && s.broken <= input.pts <= LATEST
    requires (s.clock - input.offered) % TWO64 > 250
    ensures var after := Steps(s, WORK, 3);
            after == s.(broken := Second(input.pts), worker := after.worker) &&
            after.worker.turn.Top? && !after.worker.started
  {
    hide Steps, Boundary;
    SecondIs(input.pts);
    StepsJoin(s, WORK, 1, 2);
    OneStep(s, WORK);
    WorkerBreaks(Step(s, WORK), Second(input.pts));
  }

  lemma JumpBreaks(s: State, input: Input)
    requires s.worker.turn == Judging(input) && s.broken <= input.pts <= LATEST
    requires (s.clock - input.offered) % TWO64 <= 250
    requires input.pts % 1000 != 0 && !(s.worker.started && s.worker.nextCapture == input.pts)
    ensures var after := Steps(s, WORK, 4);
            after == s.(broken := Second(input.pts), worker := after.worker) &&
            after.worker.turn.Top? && !after.worker.started
  {
    hide Steps, Boundary;
    SecondIs(input.pts);
    StepsJoin(s, WORK, 2, 2);
    TwoSteps(s, WORK);
    var a := Step(s, WORK);
    assert a == s.(worker := s.worker.(turn := Starting(input)));
    WorkerBreaks(Step(a, WORK), Second(input.pts));
  }

  /** A packet received after more than 250 ms is dropped, and with it everything timed
  before the next whole second; the receiver goes on to the next one. */
  lemma LatePacketBreaks(s: State, packet: Packet)
    requires Inv(s) && s.scheduler == Aging(packet) && s.broken <= packet.pts <= LATEST
    requires (s.clock - packet.created) % TWO64 > 250
    ensures Steps(s, SCHEDULE, 3) ==
            s.(broken := Second(packet.pts), scheduler := Polling, handled := s.handled + 1, kept := false)
  {
    hide Inv, Steps, Boundary;
    SecondIs(packet.pts);
    ThreeSteps(s, SCHEDULE);
    var a := Step(s, SCHEDULE);
    assert a == s.(scheduler := DropBreaking(packet, Loading(Second(packet.pts))));
    var b := Step(a, SCHEDULE);
    assert b == s.(scheduler := DropBreaking(packet, Trying(Second(packet.pts), s.broken)));
  }

  /** Nothing stale is ever returned: a packet that is returned is of the current
  generation when it is fetched, and at most 250 ms have passed since its first chunk
  was offered when it is returned. */
  lemma ReturnedIsFresh(s: State, event: Event)
    requires Inv(s) && Step(s, event).returned != s.returned
    ensures s.scheduler.Aging? && Step(s, event).returned == s.returned + [s.scheduler.packet]
    ensures (s.clock - s.scheduler.packet.created) % TWO64 <= 250
    ensures s.handled < |s.output.accepted| && s.scheduler.packet == s.output.accepted[s.handled]
  {
    hide Sound, WorkerOk, PacketOk, Published, InputsOk, WorkerStep, CheckedRoom, Filled, Stored, CheckedItems,
         ReadItem, Taken, Boundary, BreakStep;
    match event
    case Worked(spurious, frames, encoded) =>
      WorkerLeavesReceiver(s, spurious, Min(frames, CAPTURE_MAX_FRAMES), encoded);
    case _ =>
  }
}
