/** The content-addressed image cache (src/graphics.c): an array of stamped slots
that behaves as a list ordered by recency. */
module ImageCache {
  import opened Bytes
  import opened Pigeonhole

  // ---- the list it behaves as -------------------------------------------------------------

  datatype Image = Image(key: seq<Byte>, data: seq<Byte>)

  function Total(list: seq<Image>): nat {
    if list == [] then 0 else |list[0].data| + Total(list[1..])
  }

  /** Position of `key`, or the length of the list. */
  function Position(list: seq<Image>, key: seq<Byte>): (k: nat)
    ensures k <= |list| && (k < |list| ==> list[k].key == key)
    ensures forall j :: 0 <= j < k ==> list[j].key != key
  {
    if list == [] || list[0].key == key then 0 else 1 + Position(list[1..], key)
  }

  predicate Has(list: seq<Image>, key: seq<Byte>) {
    Position(list, key) < |list|
  }

  /** Most recently wanted last. */
  function Touched(list: seq<Image>, key: seq<Byte>): seq<Image> {
    var k := Position(list, key);
    if k == |list| then list else list[..k] + list[k + 1..] + [list[k]]
  }

  function Got(list: seq<Image>, key: seq<Byte>): Option<seq<Byte>> {
    if Has(list, key) then Some(list[Position(list, key)].data) else None
  }

  /** Oldest first out, until `size` more bytes fit. */
  function Evicted(list: seq<Image>, size: nat, maxBytes: nat): (kept: seq<Image>)
    ensures |kept| <= |list| && kept == list[|list| - |kept|..]
    ensures size <= maxBytes ==> Total(kept) + size <= maxBytes
  {
    if list == [] || Total(list) + size <= maxBytes then list else Evicted(list[1..], size, maxBytes)
  }

  datatype Stored = Stored(list: seq<Image>, status: Status)

  function Put(list: seq<Image>, key: seq<Byte>, data: seq<Byte>, capacity: nat, maxBytes: nat): Stored {
    if |data| > maxBytes then Stored(list, Limit)
    else if Has(list, key) then Stored(Touched(list, key), Ok)
    else
      var fits := Evicted(list, |data|, maxBytes);
      var room := if |fits| >= capacity && fits != [] then fits[1..] else fits;
      Stored(room + [Image(key, data)], Ok)
  }

  // ---- laws of the list ---------------------------------------------------------------------

  ghost predicate Distinct(list: seq<Image>) {
    forall j, k :: 0 <= j < k < |list| ==> list[j].key != list[k].key
  }

  ghost predicate Bounded(list: seq<Image>, capacity: nat, maxBytes: nat) {
    Distinct(list) && |list| <= capacity && Total(list) <= maxBytes
  }

  lemma {:induction false} TotalConcat(a: seq<Image>, b: seq<Image>)
    ensures Total(a + b) == Total(a) + Total(b)
  {
    if a == [] {
      assert a + b == b;
    } else {
      assert (a + b)[1..] == a[1..] + b;
      TotalConcat(a[1..], b);
    }
  }

  lemma TotalSplit(list: seq<Image>, k: nat)
    requires k < |list|
    ensures Total(list) == Total(list[..k]) + |list[k].data| + Total(list[k + 1..])
  {
    assert list == list[..k] + ([list[k]] + list[k + 1..]);
    TotalConcat(list[..k], [list[k]] + list[k + 1..]);
    TotalConcat([list[k]], list[k + 1..]);
    TotalOne(list[k]);
  }

  lemma TouchedAt(list: seq<Image>, key: seq<Byte>)
    requires Has(list, key)
    ensures var (k, t) := (Position(list, key), Touched(list, key));
            && |t| == |list| && t[|list| - 1] == list[k]
            && forall j :: 0 <= j < |list| - 1 ==> t[j] == list[if j < k then j else j + 1]
  {
    hide Position;
  }

  lemma TouchedDistinct(list: seq<Image>, key: seq<Byte>)
    requires Distinct(list)
    ensures Distinct(Touched(list, key))
  {
    if Has(list, key) {
      TouchedAt(list, key);
      hide Touched, Position;
    }
  }

  /** Touching reorders and nothing else. */
  lemma TouchedKeeps(list: seq<Image>, key: seq<Byte>)
    requires Distinct(list)
    ensures Distinct(Touched(list, key)) && Total(Touched(list, key)) == Total(list)
    ensures multiset(Touched(list, key)) == multiset(list)
  {
    hide Distinct, Total, Position;
    TouchedDistinct(list, key);
    if Has(list, key) { MovedLast(list, Position(list, key)); }
  }

  lemma MovedLast(list: seq<Image>, k: nat)
    requires k < |list|
    ensures var moved := list[..k] + list[k + 1..] + [list[k]];
            Total(moved) == Total(list) && multiset(moved) == multiset(list)
  {
    hide Total;
    TotalSplit(list, k);
    TotalOne(list[k]);
    TotalConcat(list[..k] + list[k + 1..], [list[k]]);
    TotalConcat(list[..k], list[k + 1..]);
    assert list == list[..k] + [list[k]] + list[k + 1..];
  }

  lemma TotalOne(image: Image)
    ensures Total([image]) == |image.data|
  {
    assert Total([image]) == |image.data| + Total([]);
  }

  lemma SuffixTotal(list: seq<Image>, drop: nat)
    requires drop <= |list|
    ensures Total(list[drop..]) <= Total(list)
  {
    TotalConcat(list[..drop], list[drop..]);
    assert list == list[..drop] + list[drop..];
  }

  /** A list after its oldest images left and a new one came. */
  lemma Appended(list: seq<Image>, room: seq<Image>, image: Image, capacity: nat, maxBytes: nat)
    requires Bounded(list, capacity, maxBytes) && !Has(list, image.key)
    requires |room| <= |list| && room == list[|list| - |room|..] && |room| < capacity &&
             Total(room) + |image.data| <= maxBytes
    ensures Bounded(room + [image], capacity, maxBytes) && Got(room + [image], image.key) == Some(image.data)
  {
    hide Total, Distinct, Position;
    TotalConcat(room, [image]);
    TotalOne(image);
    AppendedDistinct(list, room, image);
    PositionIs(room + [image], image.key, |room|);
  }

  lemma AppendedDistinct(list: seq<Image>, room: seq<Image>, image: Image)
    requires Distinct(list) && !Has(list, image.key) && |room| <= |list| && room == list[|list| - |room|..]
    ensures Distinct(room + [image])
  {
    var shift, more := |list| - |room|, room + [image];
    assert forall j :: 0 <= j < |list| ==> list[j].key != image.key;
    hide Position;
    forall j, k | 0 <= j < k < |more| ensures more[j].key != more[k].key {
      assert more[j] == list[shift + j];
      if k < |room| { assert more[k] == list[shift + k]; }
    }
  }

  /** Storing keeps the keys unique and both limits, succeeds exactly for what
  could ever fit, and what it stored is what a get then finds. */
  lemma PutKeeps(list: seq<Image>, key: seq<Byte>, data: seq<Byte>, capacity: nat, maxBytes: nat)
    requires capacity > 0 && Bounded(list, capacity, maxBytes)
    ensures var r := Put(list, key, data, capacity, maxBytes);
            && Bounded(r.list, capacity, maxBytes)
            && (r.status == Ok <==> |data| <= maxBytes) && (r.status != Ok ==> r.list == list)
            && (r.status == Ok ==>
                  Got(r.list, key) == Some(if Has(list, key) then list[Position(list, key)].data else data))
  {
    hide Total, Evicted, Position;
    if |data| <= maxBytes {
      if Has(list, key) {
        TouchedKeeps(list, key);
        TouchedAt(list, key);
        PositionIs(Touched(list, key), key, |list| - 1);
      } else {
        var fits := Evicted(list, |data|, maxBytes);
        var room := if |fits| >= capacity && fits != [] then fits[1..] else fits;
        SuffixTotal(fits, |fits| - |room|);
        assert room == fits[|fits| - |room|..];
        Appended(list, room, Image(key, data), capacity, maxBytes);
      }
    }
  }

  lemma PositionIs(list: seq<Image>, key: seq<Byte>, k: nat)
    requires Distinct(list) && k < |list| && list[k].key == key
    ensures Position(list, key) == k
  {
  }

  /** A new image pushes out only the least recently wanted ones, and no more of
  them than the limits require: one fewer would have broken a limit. */
  lemma EvictsFewest(list: seq<Image>, key: seq<Byte>, data: seq<Byte>, capacity: nat, maxBytes: nat, fewer: nat)
    requires capacity > 0 && Bounded(list, capacity, maxBytes) && |data| <= maxBytes && !Has(list, key)
    requires fewer <= |list|
    ensures var r := Put(list, key, data, capacity, maxBytes);
            var gone := |list| + 1 - |r.list|;
            && 0 <= gone <= |list| && r.list == list[gone..] + [Image(key, data)]
            && (fewer < gone ==> |list| - fewer + 1 > capacity || Total(list[fewer..]) + |data| > maxBytes)
  {
    hide Total, Position, Evicted;
    var fits := Evicted(list, |data|, maxBytes);
    if fewer < |list| - |fits| { EvictedFewest(list, |data|, maxBytes, fewer); }
  }

  lemma {:induction false} EvictedFewest(list: seq<Image>, size: nat, maxBytes: nat, fewer: nat)
    requires fewer < |list| - |Evicted(list, size, maxBytes)|
    ensures Total(list[fewer..]) + size > maxBytes
    decreases |list|
  {
    if fewer == 0 {
      assert list[0..] == list;
    } else {
      EvictedFewest(list[1..], size, maxBytes, fewer - 1);
      assert list[1..][fewer - 1..] == list[fewer..];
    }
  }

  /** One put or get, of any key. */
  datatype Use = PutUse(key: seq<Byte>, data: seq<Byte>) | GetUse(key: seq<Byte>)

  function Used(list: seq<Image>, use: Use, capacity: nat, maxBytes: nat): seq<Image> {
    match use
    case PutUse(key, data) => Put(list, key, data, capacity, maxBytes).list
    case GetUse(key) => Touched(list, key)
  }

  function AfterUses(list: seq<Image>, uses: seq<Use>, capacity: nat, maxBytes: nat): seq<Image>
    decreases |uses|
  {
    if uses == [] then list else AfterUses(Used(list, uses[0], capacity, maxBytes), uses[1..], capacity, maxBytes)
  }

  /** The key is held before, between and after the uses. */
  ghost predicate HeldThroughout(list: seq<Image>, key: seq<Byte>, uses: seq<Use>, capacity: nat, maxBytes: nat)
    decreases |uses|
  {
    Has(list, key) &&
    (uses != [] ==> HeldThroughout(Used(list, uses[0], capacity, maxBytes), key, uses[1..], capacity, maxBytes))
  }

  /** From the moment an image is stored, and for as long as it stays, a get finds
  the bytes that were stored: no puts and gets of any keys, its own included,
  change them. */
  lemma {:induction false} StoredBytesStay(list: seq<Image>, key: seq<Byte>, uses: seq<Use>, capacity: nat,
                                           maxBytes: nat)
    requires capacity > 0 && Bounded(list, capacity, maxBytes) && HeldThroughout(list, key, uses, capacity, maxBytes)
    ensures Bounded(AfterUses(list, uses, capacity, maxBytes), capacity, maxBytes)
    ensures Got(AfterUses(list, uses, capacity, maxBytes), key) == Got(list, key)
    decreases |uses|
  {
    hide Bounded, Used, Has, Got;
    if uses != [] {
      OneUse(list, key, uses[0], capacity, maxBytes);
      StoredBytesStay(Used(list, uses[0], capacity, maxBytes), key, uses[1..], capacity, maxBytes);
    }
  }

  lemma OneUse(list: seq<Image>, key: seq<Byte>, use: Use, capacity: nat, maxBytes: nat)
    requires capacity > 0 && Bounded(list, capacity, maxBytes) && Has(list, key)
    ensures var after := Used(list, use, capacity, maxBytes);
            Bounded(after, capacity, maxBytes) && (Has(after, key) ==> Got(after, key) == Got(list, key))
  {
    hide Total, Touched, Evicted, Distinct, Position, Put, Has, Got;
    match use
    case GetUse(other) =>
      TouchedKeeps(list, other);
      TouchedLength(list, other);
      SameAfter(list, Touched(list, other), key, other);
    case PutUse(other, data) =>
      PutKeeps(list, other, data, capacity, maxBytes);
      OnePut(list, key, other, data, capacity, maxBytes);
  }

  lemma TouchedLength(list: seq<Image>, key: seq<Byte>)
    ensures |Touched(list, key)| == |list|
  {
    hide Position;
  }

  lemma OnePut(list: seq<Image>, key: seq<Byte>, other: seq<Byte>, data: seq<Byte>, capacity: nat, maxBytes: nat)
    requires capacity > 0 && Bounded(list, capacity, maxBytes) && Has(list, key)
    ensures var r := Put(list, other, data, capacity, maxBytes); Has(r.list, key) ==> Got(r.list, key) == Got(list, key)
  {
    hide Total, Touched, Evicted, Distinct, Position;
    SameAfter(list, Touched(list, other), key, other);
    var r := Put(list, other, data, capacity, maxBytes);
    if |data| <= maxBytes && !Has(list, other) && Has(r.list, key) {
      EvictsFewest(list, other, data, capacity, maxBytes, 0);
      SameAfterNew(list, r.list, key, Image(other, data));
    }
  }

  lemma SameAfterNew(list: seq<Image>, after: seq<Image>, key: seq<Byte>, image: Image)
    requires Distinct(list) && Has(list, key) && !Has(list, image.key) && Has(after, key) && 0 < |after| <= |list| + 1
    requires after == list[|list| + 1 - |after|..] + [image]
    ensures Got(after, key) == Got(list, key)
  {
    hide Distinct;
    var gone, k := |list| + 1 - |after|, Position(after, key);
    assert key != image.key;
    assert k < |after| - 1 && after[k] == list[gone + k];
    PositionIs(list, key, gone + k);
  }

  lemma SameAfter(list: seq<Image>, touched: seq<Image>, key: seq<Byte>, other: seq<Byte>)
    requires Distinct(list) && Has(list, key) && touched == Touched(list, other)
    ensures Got(touched, key) == Got(list, key)
  {
    TouchedKeeps(list, other);
    var image := list[Position(list, key)];
    assert image in multiset(touched);
    var k :| 0 <= k < |touched| && touched[k] == image;
    PositionIs(touched, key, k);
  }

  // ---- the slots -------------------------------------------------------------------------------

  datatype Slot = Slot(key: seq<Byte>, data: seq<Byte>, used: nat, occupied: bool)

  const EMPTY_SLOT := Slot([], [], 0, false)

  /** `order` lists the occupied slots by their stamps, oldest first. */
  ghost predicate Recency(slots: seq<Slot>, order: seq<nat>, clock: nat) {
    && (forall k :: 0 <= k < |order| ==>
          order[k] < |slots| && slots[order[k]].occupied && slots[order[k]].used <= clock)
    && (forall j, k :: 0 <= j < k < |order| ==> slots[order[j]].used < slots[order[k]].used)
    && (forall i :: 0 <= i < |slots| && slots[i].occupied ==> i in order)
  }

  ghost function ImageAt(slots: seq<Slot>, i: nat): Image
    requires i < |slots|
  {
    Image(slots[i].key, slots[i].data)
  }

  ghost function List(slots: seq<Slot>, order: seq<nat>): (list: seq<Image>)
    requires forall k :: 0 <= k < |order| ==> order[k] < |slots|
    ensures |list| == |order| && forall k :: 0 <= k < |order| ==> list[k] == ImageAt(slots, order[k])
  {
    seq(|order|, k requires 0 <= k < |order| => ImageAt(slots, order[k]))
  }

  lemma FoundAt(slots: seq<Slot>, order: seq<nat>, clock: nat, i: nat, key: seq<Byte>)
    requires Recency(slots, order, clock) && Distinct(List(slots, order))
    requires i < |slots| && slots[i].occupied && slots[i].key == key
    ensures Has(List(slots, order), key) && order[Position(List(slots, order), key)] == i
  {
    var k :| 0 <= k < |order| && order[k] == i;
    PositionIs(List(slots, order), key, k);
  }

  function Rotated(order: seq<nat>, k: nat): (moved: seq<nat>)
    requires k < |order|
    ensures |moved| == |order| && moved[|order| - 1] == order[k]
    ensures forall j :: 0 <= j < |order| - 1 ==> moved[j] == order[if j < k then j else j + 1]
  {
    order[..k] + order[k + 1..] + [order[k]]
  }

  lemma RotatedCovers(order: seq<nat>, k: nat, i: nat)
    requires k < |order| && i in order
    ensures i in Rotated(order, k)
  {
    var j :| 0 <= j < |order| && order[j] == i;
    assert Rotated(order, k)[if j < k then j else if j == k then |order| - 1 else j - 1] == i;
  }

  lemma TouchSlot(slots: seq<Slot>, order: seq<nat>, clock: nat, k: nat)
    requires Recency(slots, order, clock) && k < |order|
    ensures var touched := slots[order[k] := slots[order[k]].(used := clock + 1)];
            Recency(touched, Rotated(order, k), clock + 1)
  {
    hide Rotated;
    var touched := slots[order[k] := slots[order[k]].(used := clock + 1)];
    forall i | 0 <= i < |touched| && touched[i].occupied ensures i in Rotated(order, k) {
      assert i in order;
      RotatedCovers(order, k, i);
    }
    assert forall j :: 0 <= j < |order| && j != k ==> order[j] != order[k];
  }

  lemma TouchList(slots: seq<Slot>, order: seq<nat>, clock: nat, k: nat)
    requires Recency(slots, order, clock) && k < |order|
    ensures var touched := slots[order[k] := slots[order[k]].(used := clock + 1)];
            var list := List(slots, order);
            List(touched, Rotated(order, k)) == list[..k] + list[k + 1..] + [list[k]]
  {
  }

  lemma DropOldest(slots: seq<Slot>, order: seq<nat>, clock: nat)
    requires Recency(slots, order, clock) && order != []
    ensures var oldest := order[0];
            var dropped := slots[oldest := slots[oldest].(data := [], occupied := false)];
            Recency(dropped, order[1..], clock) && List(dropped, order[1..]) == List(slots, order)[1..]
  {
  }

  lemma OldestData(slots: seq<Slot>, order: seq<nat>, clock: nat)
    requires Recency(slots, order, clock) && order != []
    ensures |List(slots, order)| == |order| && List(slots, order)[0] == ImageAt(slots, order[0])
  {
  }

  lemma DistinctRest(list: seq<Image>)
    requires Distinct(list) && list != []
    ensures Distinct(list[1..]) && Total(list) == |list[0].data| + Total(list[1..])
  {
  }

  lemma OldestIs(slots: seq<Slot>, order: seq<nat>, clock: nat, i: nat)
    requires Recency(slots, order, clock) && i < |slots| && slots[i].occupied
    requires forall j :: 0 <= j < |slots| && slots[j].occupied ==> slots[i].used <= slots[j].used
    ensures order != [] && order[0] == i
  {
    var k :| 0 <= k < |order| && order[k] == i;
    assert slots[order[0]].occupied;
  }

  lemma FillSlot(slots: seq<Slot>, order: seq<nat>, clock: nat, i: nat, key: seq<Byte>, data: seq<Byte>)
    requires Recency(slots, order, clock) && i < |slots| && !slots[i].occupied
    ensures var filled := slots[i := Slot(key, data, clock + 1, true)];
            Recency(filled, order + [i], clock + 1) &&
              List(filled, order + [i]) == List(slots, order) + [Image(key, data)]
  {
    var filled := slots[i := Slot(key, data, clock + 1, true)];
    assert forall k :: 0 <= k < |order| ==> order[k] != i;
    forall j | 0 <= j < |filled| && filled[j].occupied ensures j in order + [i] {
      if j == i { assert (order + [i])[|order|] == i; } else { assert j in order; }
    }
  }

  /** There is a free slot exactly when the list is short of the capacity. */
  lemma FreeSlotIff(slots: seq<Slot>, order: seq<nat>, clock: nat)
    requires Recency(slots, order, clock)
    ensures |order| <= |slots|
    ensures (forall i :: 0 <= i < |slots| ==> slots[i].occupied) <==> |order| == |slots|
  {
    DistinctCount(order, |slots|);
    if forall i :: 0 <= i < |slots| ==> slots[i].occupied {
      AllListed(order, |slots|);
    } else {
      var i: nat :| 0 <= i < |slots| && !slots[i].occupied;
      assert forall k :: 0 <= k < |order| ==> order[k] != i;
      OneMissing(order, |slots|, i);
    }
  }

  class Cache {
    const slots: array<Slot>
    const maxBytes: nat
    var count: nat
    var bytes: nat
    var clock: nat
    ghost var order: seq<nat>

    ghost predicate Valid()
      reads this, slots
    {
      && slots.Length > 0 && Recency(slots[..], order, clock)
      && count == |order| && bytes == Total(View()) && Bounded(View(), slots.Length, maxBytes)
    }

    ghost function View(): seq<Image>
      requires Recency(slots[..], order, clock)
      reads this, slots
    {
      List(slots[..], order)
    }

    constructor (maxEntries: nat, maxBytes: nat)
      requires 0 < maxEntries <= 4096 && maxBytes > 0
      ensures Valid() && fresh(slots) && View() == [] && slots.Length == maxEntries && this.maxBytes == maxBytes
    {
      slots := new Slot[maxEntries](_ => EMPTY_SLOT);
      this.maxBytes := maxBytes;
      count, bytes, clock, order := 0, 0, 0, [];
    }

    /** The slot holding `key`, or the number of slots. */
    method Find(key: seq<Byte>) returns (index: nat)
      requires Valid()
      ensures index <= slots.Length
      ensures index < slots.Length ==>
        slots[index].occupied && slots[index].key == key && Has(View(), key) && order[Position(View(), key)] == index
      ensures index == slots.Length <==> !Has(View(), key)
    {
      index := 0;
      while index < slots.Length
        invariant index <= slots.Length
        invariant forall i :: 0 <= i < index ==> !(slots[i].occupied && slots[i].key == key)
      {
        if slots[index].occupied && slots[index].key == key {
          FoundAt(slots[..], order, clock, index, key);
          return;
        }
        index := index + 1;
      }
      assert forall k :: 0 <= k < |View()| ==> View()[k].key != key;
    }

    method Touch(index: nat)
      requires Valid() && index < slots.Length && slots[index].occupied
      modifies this`clock, this`order, slots
      ensures Valid() && View() == Touched(old(View()), old(slots[index].key))
      ensures slots[index].data == old(slots[index].data)
    {
      hide Total, Distinct, Position, Recency, List;
      ghost var list, was, key := View(), slots[..], slots[index].key;
      FoundAt(was, order, clock, index, key);
      ghost var k := Position(list, key);
      TouchSlot(was, order, clock, k);
      TouchList(was, order, clock, k);
      TouchedKeeps(list, key);
      TouchedAt(list, key);
      clock := clock + 1;
      slots[index] := slots[index].(used := clock);
      order := Rotated(order, k);
      assert slots[..] == was[index := was[index].(used := clock)];
    }

    method Get(key: seq<Byte>) returns (data: Option<seq<Byte>>)
      requires Valid()
      modifies this`clock, this`order, slots
      ensures Valid() && View() == Touched(old(View()), key) && data == Got(old(View()), key)
    {
      var index := Find(key);
      if index == slots.Length { return None; }
      Touch(index);
      data := Some(slots[index].data);
    }

    method Release(index: nat)
      requires Valid() && index < slots.Length && order != [] && order[0] == index
      modifies this`count, this`bytes, this`order, slots
      ensures Valid() && View() == old(View())[1..]
    {
      hide Total, Distinct, Recency, List;
      ghost var list, was := View(), slots[..];
      DropOldest(was, order, clock);
      OldestData(was, order, clock);
      DistinctRest(list);
      bytes := bytes - |slots[index].data|;
      count := count - 1;
      slots[index] := slots[index].(data := [], occupied := false);
      order := order[1..];
      assert slots[..] == was[index := was[index].(data := [], occupied := false)];
    }

    /** The occupied slot with the smallest stamp goes. */
    method EvictOldest() returns (evicted: bool)
      requires Valid()
      modifies this`count, this`bytes, this`order, slots
      ensures Valid() && evicted == (old(View()) != []) && View() == if evicted then old(View())[1..] else old(View())
    {
      ghost var first := if order == [] then 0 else order[0];
      assert order != [] ==> slots[first].occupied;
      var oldest: nat := slots.Length;
      var index: nat := 0;
      while index < slots.Length
        invariant index <= slots.Length && oldest <= slots.Length
        invariant oldest < slots.Length ==> slots[oldest].occupied
        invariant forall i :: 0 <= i < index && slots[i].occupied ==>
          oldest < slots.Length && slots[oldest].used <= slots[i].used
      {
        if slots[index].occupied && (oldest == slots.Length || slots[index].used < slots[oldest].used) {
          oldest := index;
        }
        index := index + 1;
      }
      if oldest == slots.Length {
        return false;
      }
      OldestIs(slots[..], order, clock, oldest);
      Release(oldest);
      evicted := true;
    }

    method FindFree() returns (index: nat)
      requires Valid()
      ensures index <= slots.Length && (index < slots.Length ==> !slots[index].occupied)
      ensures index == slots.Length <==> |View()| == slots.Length
    {
      FreeSlotIff(slots[..], order, clock);
      index := 0;
      while index < slots.Length && slots[index].occupied
        invariant index <= slots.Length
        invariant forall i :: 0 <= i < index ==> slots[i].occupied
      {
        index := index + 1;
      }
    }

    /** Fills a free slot with an image that fits. */
    method Fill(index: nat, key: seq<Byte>, data: seq<Byte>)
      requires Valid() && index < slots.Length && !slots[index].occupied
      requires Bounded(View() + [Image(key, data)], slots.Length, maxBytes)
      modifies this, slots
      ensures Valid() && View() == old(View()) + [Image(key, data)]
    {
      hide Total, Distinct, Recency, List;
      ghost var list, was := View(), slots[..];
      FillSlot(was, order, clock, index, key, data);
      TotalConcat(list, [Image(key, data)]);
      TotalOne(Image(key, data));
      clock := clock + 1;
      slots[index] := Slot(key, data, clock, true);
      order := order + [index];
      count, bytes := count + 1, bytes + |data|;
      assert slots[..] == was[index := Slot(key, data, clock, true)];
    }

    /** The loop that makes room for `size` bytes. */
    method MakeRoom(size: nat)
      requires Valid() && size <= maxBytes
      modifies this`count, this`bytes, this`order, slots
      ensures Valid() && View() == Evicted(old(View()), size, maxBytes)
    {
      hide Total, Distinct, Recency, List;
      ghost var list := View();
      while bytes + size > maxBytes
        invariant Valid() && Evicted(View(), size, maxBytes) == Evicted(list, size, maxBytes)
        decreases count
      {
        var evicted := EvictOldest();
        if !evicted { break; }
      }
    }

    method PutImage(key: seq<Byte>, data: seq<Byte>) returns (status: Status)
      requires Valid()
      modifies this, slots
      ensures Valid() && Stored(View(), status) == Put(old(View()), key, data, slots.Length, maxBytes)
    {
      hide Total, Distinct, Recency, List, Position, Touched, Evicted;
      if |data| > maxBytes { return Limit; }
      var index := Find(key);
      if index < slots.Length {
        Touch(index);
        return Ok;
      }
      status := PutNew(key, data);
    }

    /** An image that is not held and could fit. */
    method PutNew(key: seq<Byte>, data: seq<Byte>) returns (status: Status)
      requires Valid() && |data| <= maxBytes && !Has(View(), key)
      modifies this, slots
      ensures Valid() && Stored(View(), status) == Put(old(View()), key, data, slots.Length, maxBytes)
    {
      hide Total, Distinct, Recency, List, Position, Touched, Evicted;
      ghost var list := View();
      MakeRoom(|data|);
      if bytes + |data| > maxBytes { return Limit; }
      ghost var fits := View();
      var index := TakeSlot();
      SuffixTotal(fits, |fits| - |View()|);
      assert View() == list[|list| - |View()|..];
      Appended(list, View(), Image(key, data), slots.Length, maxBytes);
      Fill(index, key, data);
      status := Ok;
    }

    /** A free slot, evicting once more when there is none. */
    method TakeSlot() returns (index: nat)
      requires Valid()
      modifies this`count, this`bytes, this`order, slots
      ensures Valid() && index < slots.Length && !slots[index].occupied && |View()| < slots.Length
      ensures View() == if |old(View())| >= slots.Length && old(View()) != [] then old(View())[1..] else old(View())
    {
      hide Total, Distinct, Recency, List;
      index := FindFree();
      if index == slots.Length {
        var _ := EvictOldest();
        index := FindFree();
      }
    }
  }
}
