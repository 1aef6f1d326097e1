/** Single-producer single-consumer rings with absolute 64-bit counters that wrap
(tools/kmx_encodec.c). Each step touches one shared counter or one slot. */
module Ring {
  import opened Bytes

  datatype Producer<T> = Out | Checked | Wrote(item: T)

  datatype Consumer<T> = Away | Ready | Holding(item: T)

  /** `accepted` and `consumed` are history: every item whose head was stored, and
  every item whose tail was stored. */
  datatype Ring<T> = Ring(slots: seq<T>, limit: nat, head: nat, tail: nat,
                          producer: Producer<T>, consumer: Consumer<T>, accepted: seq<T>, consumed: seq<T>)

  function Live<T>(r: Ring<T>): nat {
    (r.head - r.tail) % TWO64
  }

  /** The producer loads the consumer's tail. */
  function CheckedRoom<T>(r: Ring<T>): Ring<T> {
    if Live(r) >= r.limit then r else r.(producer := Checked)
  }

  function Filled<T>(r: Ring<T>, item: T): Ring<T> {
    if !r.producer.Checked? || r.slots == [] then r
    else r.(producer := Wrote(item), slots := r.slots[r.head % |r.slots| := item])
  }

  function Stored<T>(r: Ring<T>): Ring<T> {
    if !r.producer.Wrote? then r
    else r.(producer := Out, head := (r.head + 1) % TWO64, accepted := r.accepted + [r.producer.item])
  }

  /** The consumer loads the producer's head. */
  function CheckedItems<T>(r: Ring<T>): Ring<T> {
    if r.head == r.tail then r else r.(consumer := Ready)
  }

  function ReadItem<T>(r: Ring<T>): Ring<T> {
    if !r.consumer.Ready? || r.slots == [] then r else r.(consumer := Holding(r.slots[r.tail % |r.slots|]))
  }

  function Taken<T>(r: Ring<T>): Ring<T> {
    if !r.consumer.Holding? then r
    else r.(consumer := Away, tail := (r.tail + 1) % TWO64, consumed := r.consumed + [r.consumer.item])
  }

  function NewRing<T>(slots: seq<T>, limit: nat): Ring<T> {
    Ring(slots, limit, 0, 0, Out, Away, [], [])
  }

  // ---- what every step keeps ----------------------------------------------------------------

  /** Items number |consumed| up to |accepted| are live, each in its own slot. */
  ghost predicate Sound<T>(r: Ring<T>) {
    && 0 < r.limit <= |r.slots| && r.limit < TWO64 && TWO64 % |r.slots| == 0
    && |r.consumed| <= |r.accepted| <= |r.consumed| + r.limit
    && r.consumed == r.accepted[..|r.consumed|]
    && r.head == |r.accepted| % TWO64 && r.tail == |r.consumed| % TWO64
    && (forall k :: |r.consumed| <= k < |r.accepted| ==> r.slots[k % |r.slots|] == r.accepted[k])
    && (!r.producer.Out? ==> |r.accepted| < |r.consumed| + r.limit)
    && (r.producer.Wrote? ==> r.slots[|r.accepted| % |r.slots|] == r.producer.item)
    && (!r.consumer.Away? ==> |r.consumed| < |r.accepted|)
    && (r.consumer.Holding? ==> r.consumer.item == r.accepted[|r.consumed|])
  }

  lemma {:induction false} PlusMultiple(x: nat, n: nat, times: nat)
    requires n > 0
    ensures (x + n * times) % n == x % n
  {
    if times > 0 {
      PlusMultiple(x, n, times - 1);
      assert x + n * times == (x + n * (times - 1)) + n;
      PlusOne(x + n * (times - 1), n);
    }
  }

  lemma PlusOne(x: nat, n: nat)
    requires n > 0
    ensures (x + n) % n == x % n
  {
    var y := x + n;
    var gap := y / n - x / n - 1;
    Quotient(x, n);
    Quotient(y, n);
    Distribute(n, y / n, x / n);
    Distribute(n, y / n - x / n, 1);
    assert n * gap == x % n - y % n;
    if gap >= 1 { AtLeast(n, gap); } else if gap <= -1 { AtLeast(n, -gap); Negate(n, gap); }
  }

  lemma Quotient(x: nat, n: nat)
    requires n > 0
    ensures x == n * (x / n) + x % n
  {
  }

  lemma Negate(n: nat, k: int)
    ensures n * -k == -(n * k)
  {
  }

  /** The ring index does not see the counter wrap. */
  lemma IndexAcrossWrap(position: nat, n: nat)
    requires n > 0 && TWO64 % n == 0
    ensures (position % TWO64) % n == position % n
  {
    var wraps, rest := position / TWO64, position % TWO64;
    var per := TWO64 / n;
    assert position == rest + TWO64 * wraps;
    assert TWO64 == n * per;
    assert TWO64 * wraps == n * (per * wraps) by { Associate(n, per, wraps); }
    PlusMultiple(rest, n, per * wraps);
  }

  lemma Associate(a: nat, b: nat, c: nat)
    ensures (a * b) * c == a * (b * c)
  {
  }

  lemma DifferenceAcrossWrap(head: nat, tail: nat)
    requires tail <= head < tail + TWO64
    ensures (head % TWO64 - tail % TWO64) % TWO64 == head - tail
  {
  }

  lemma StepAcrossWrap(position: nat)
    ensures (position % TWO64 + 1) % TWO64 == (position + 1) % TWO64
  {
  }

  /** Fewer than n positions share no slot. */
  lemma SlotsApart(low: nat, high: nat, n: nat)
    requires low < high < low + n
    ensures low % n != high % n
  {
    if low % n == high % n {
      var a, b := low / n, high / n;
      assert high - low == n * (b - a) by {
        assert high == n * b + high % n && low == n * a + low % n;
        Distribute(n, b, a);
      }
      if b - a >= 1 { AtLeast(n, b - a); } else { AtMost(n, b - a); }
      assert false;
    }
  }

  lemma Distribute(n: nat, b: int, a: int)
    ensures n * b - n * a == n * (b - a)
  {
  }

  lemma AtLeast(n: nat, k: int)
    requires k >= 1
    ensures n * k >= n
  {
  }

  lemma AtMost(n: nat, k: int)
    requires k <= 0
    ensures n * k <= 0
  {
  }

  lemma LiveCounts<T>(r: Ring<T>)
    requires Sound(r)
    ensures Live(r) == |r.accepted| - |r.consumed| <= r.limit
    ensures r.head == r.tail <==> r.accepted == r.consumed
    ensures r.head % |r.slots| == |r.accepted| % |r.slots| && r.tail % |r.slots| == |r.consumed| % |r.slots|
  {
    DifferenceAcrossWrap(|r.accepted|, |r.consumed|);
    IndexAcrossWrap(|r.accepted|, |r.slots|);
    IndexAcrossWrap(|r.consumed|, |r.slots|);
  }

  lemma CheckedRoomSound<T>(r: Ring<T>)
    requires Sound(r) && r.producer.Out?
    ensures Sound(CheckedRoom(r)) && (CheckedRoom(r).producer.Out? <==> |r.accepted| == |r.consumed| + r.limit)
  {
    LiveCounts(r);
  }

  /** No producer step writes a live slot, so none can change what the consumer
  is reading. */
  lemma WriteSparesLive<T>(r: Ring<T>, item: T)
    requires Sound(r) && r.producer.Checked?
    ensures forall k :: |r.consumed| <= k < |r.accepted| ==>
      k % |r.slots| != r.head % |r.slots| && Filled(r, item).slots[k % |r.slots|] == r.slots[k % |r.slots|]
    ensures Filled(r, item).slots[|r.accepted| % |r.slots|] == item
  {
    LiveCounts(r);
    forall k | |r.consumed| <= k < |r.accepted| ensures k % |r.slots| != r.head % |r.slots| {
      SlotsApart(k, |r.accepted|, |r.slots|);
    }
  }

  lemma WroteSound<T>(r: Ring<T>, item: T)
    requires Sound(r) && r.producer.Checked?
    ensures Sound(Filled(r, item)) && Filled(r, item).producer == Wrote(item)
  {
    WriteSparesLive(r, item);
  }

  lemma StoredSound<T>(r: Ring<T>)
    requires Sound(r) && r.producer.Wrote?
    ensures Sound(Stored(r)) && Stored(r).accepted == r.accepted + [r.producer.item]
  {
    StepAcrossWrap(|r.accepted|);
  }

  lemma CheckedItemsSound<T>(r: Ring<T>)
    requires Sound(r) && r.consumer.Away?
    ensures Sound(CheckedItems(r)) && (CheckedItems(r).consumer.Away? <==> r.accepted == r.consumed)
  {
    LiveCounts(r);
  }

  lemma ReadSound<T>(r: Ring<T>)
    requires Sound(r) && r.consumer.Ready?
    ensures Sound(ReadItem(r)) && ReadItem(r).consumer == Holding(r.accepted[|r.consumed|])
  {
    LiveCounts(r);
  }

  lemma TakenSound<T>(r: Ring<T>)
    requires Sound(r) && r.consumer.Holding?
    ensures Sound(Taken(r)) && Taken(r).consumed == r.accepted[..|r.consumed| + 1]
  {
    StepAcrossWrap(|r.consumed|);
  }

  // ---- every interleaving -----------------------------------------------------------------------

  datatype Move<T> = Check | Write(item: T) | Store | Look | Read | Take

  function Moved<T>(r: Ring<T>, move: Move<T>): Ring<T> {
    match move
    case Check => if r.producer.Out? then CheckedRoom(r) else r
    case Write(item) => Filled(r, item)
    case Store => Stored(r)
    case Look => if r.consumer.Away? then CheckedItems(r) else r
    case Read => ReadItem(r)
    case Take => Taken(r)
  }

  function Run<T>(r: Ring<T>, moves: seq<Move<T>>): Ring<T>
    decreases |moves|
  {
    if moves == [] then r else Run(Moved(r, moves[0]), moves[1..])
  }

  lemma {:induction false} RunSound<T>(r: Ring<T>, moves: seq<Move<T>>)
    requires Sound(r)
    ensures Sound(Run(r, moves)) && Run(r, moves).limit == r.limit
    decreases |moves|
  {
    hide Sound;
    if moves != [] {
      MoveSound(r, moves[0]);
      RunSound(Moved(r, moves[0]), moves[1..]);
    }
  }

  lemma MoveSound<T>(r: Ring<T>, move: Move<T>)
    requires Sound(r)
    ensures Sound(Moved(r, move)) && Moved(r, move).limit == r.limit
  {
    hide Sound;
    SoundSlots(r);
    match move
    case Check => if r.producer.Out? { CheckedRoomSound(r); }
    case Write(item) => if r.producer.Checked? { WroteSound(r, item); }
    case Store => if r.producer.Wrote? { StoredSound(r); }
    case Look => if r.consumer.Away? { CheckedItemsSound(r); }
    case Read => if r.consumer.Ready? { ReadSound(r); }
    case Take => if r.consumer.Holding? { TakenSound(r); }
  }

  lemma SoundSlots<T>(r: Ring<T>)
    requires Sound(r)
    ensures r.slots != []
  {
  }

  /** Ring safety: whatever the interleaving, however often the counters wrapped,
  never more than `limit` items are live and the consumer has received every
  accepted item once, in order. */
  lemma RingSafety<T>(slots: seq<T>, limit: nat, moves: seq<Move<T>>)
    requires 0 < limit <= |slots| && limit < TWO64 && TWO64 % |slots| == 0
    ensures var r := Run(NewRing(slots, limit), moves);
            && r.consumed <= r.accepted && |r.accepted| - |r.consumed| == Live(r) <= limit
  {
    var start := NewRing(slots, limit);
    RunSound(start, moves);
    LiveCounts(Run(start, moves));
  }
}
