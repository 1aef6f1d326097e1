/** Bytes, result codes and the little-endian base-128 integers every plane uses.

The source repeats the same put_varint/get_varint pair in six files; it is
modelled once here. */
module Bytes {
  type Byte = n: nat | n < 256

  const TWO64: nat := 0x1_0000_0000_0000_0000

  datatype Status = Ok | Invalid | Protocol | Truncated | Limit

  datatype Option<+T> = None | Some(value: T)

  function Min(a: int, b: int): int { if a <= b then a else b }

  function Max(a: int, b: int): int { if a >= b then a else b }

  /** `piece` is what `data` holds from position `at` on. */
  ghost predicate At(data: seq<Byte>, at: nat, piece: seq<Byte>) {
    at + |piece| <= |data| && data[at..at + |piece|] == piece
  }

  lemma AtSplit(data: seq<Byte>, at: nat, a: seq<Byte>, b: seq<Byte>)
    requires At(data, at, a + b)
    ensures At(data, at, a) && At(data, at + |a|, b)
  {
    assert data[at..at + |a|] == (a + b)[..|a|];
    assert data[at + |a|..at + |a| + |b|] == (a + b)[|a|..];
  }

  lemma AtWhole(data: seq<Byte>)
    ensures At(data, 0, data)
  {
  }

  lemma AtSplit3(data: seq<Byte>, at: nat, a: seq<Byte>, b: seq<Byte>, c: seq<Byte>)
    requires At(data, at, a + b + c)
    ensures At(data, at, a) && At(data, at + |a|, b) && At(data, at + |a| + |b|, c)
  {
    AtSplit(data, at, a + b, c);
    AtSplit(data, at, a, b);
  }

  /** Two inputs that cannot be told apart before position `upto`. */
  ghost predicate Agree(data: seq<Byte>, other: seq<Byte>, upto: nat) {
    upto <= |data| && upto <= |other| && data[..upto] == other[..upto]
  }

  lemma AgreeAt(data: seq<Byte>, other: seq<Byte>, upto: nat, k: nat)
    requires Agree(data, other, upto) && k < upto
    ensures data[k] == other[k]
  {
    assert data[..upto][k] == other[..upto][k];
  }

  lemma AgreeLess(data: seq<Byte>, other: seq<Byte>, upto: nat, less: nat)
    requires Agree(data, other, upto) && less <= upto
    ensures Agree(data, other, less)
  {
    assert data[..less] == data[..upto][..less];
    assert other[..less] == other[..upto][..less];
  }

  /** What reading one integer can do: give a value and the position after it,
  run out of bytes, or meet more than ten groups. */
  datatype Scan = Scanned(value: nat, next: nat) | Short | Overlong

  function PutVarint(value: nat): (bytes: seq<Byte>)
    ensures |bytes| >= 1
  {
    if value < 128 then [value] else [value % 128 + 128] + PutVarint(value / 128)
  }

  function ReadGroups(data: seq<Byte>, at: nat, group: nat): (scan: Scan)
    ensures scan.Scanned? ==> at < scan.next <= |data|
    decreases |data| - at
  {
    if at >= |data| then Short
    else if group >= 10 then Overlong
    else if data[at] < 128 then Scanned(data[at], at + 1)
    else match ReadGroups(data, at + 1, group + 1)
      case Scanned(value, next) => Scanned(data[at] - 128 + 128 * value, next)
      case failed => failed
  }

  /** The tenth group can reach past bit 63; those bits are shifted out. */
  function ReadVarint(data: seq<Byte>, at: nat): (scan: Scan)
    ensures scan.Scanned? ==> at < scan.next <= |data| && scan.value < TWO64
  {
    match ReadGroups(data, at, 0)
    case Scanned(value, next) => Scanned(value % TWO64, next)
    case failed => failed
  }

  function Pow128(groups: nat): (p: nat)
    ensures p >= 1
  {
    if groups == 0 then 1 else 128 * Pow128(groups - 1)
  }

  lemma {:induction false} PutVarintLength(value: nat, groups: nat)
    requires groups >= 1 && value < Pow128(groups)
    ensures |PutVarint(value)| <= groups
  {
    if value >= 128 {
      assert value / 128 < Pow128(groups - 1);
      PutVarintLength(value / 128, groups - 1);
    }
  }

  lemma Pow128Values()
    ensures Pow128(1) == 128 && Pow128(2) == 16384 && Pow128(3) == 2097152
    ensures Pow128(9) == 0x8000_0000_0000_0000 && TWO64 < Pow128(10)
  {
    assert Pow128(3) == 2097152;
    assert Pow128(6) == 2097152 * 2097152;
    assert Pow128(9) == 2097152 * 2097152 * 2097152;
  }

  lemma {:induction false} ReadGroupsPut(data: seq<Byte>, at: nat, value: nat, group: nat)
    requires At(data, at, PutVarint(value))
    requires group + |PutVarint(value)| <= 10
    ensures ReadGroups(data, at, group) == Scanned(value, at + |PutVarint(value)|)
    decreases value
  {
    var bytes := PutVarint(value);
    assert data[at..at + |bytes|][0] == bytes[0];
    if value >= 128 {
      AtSplit(data, at, [value % 128 + 128], PutVarint(value / 128));
      ReadGroupsPut(data, at + 1, value / 128, group + 1);
    }
  }

  /** Every 64-bit value survives its encoding, wherever it is embedded. */
  lemma VarintRoundTrip(data: seq<Byte>, at: nat, value: nat)
    requires value < TWO64 && At(data, at, PutVarint(value))
    ensures ReadVarint(data, at) == Scanned(value, at + |PutVarint(value)|)
  {
    Pow128Values();
    PutVarintLength(value, 10);
    ReadGroupsPut(data, at, value, 0);
  }

  /** Reading looks at nothing past where it stops. */
  lemma {:induction false} ReadGroupsAgree(data: seq<Byte>, other: seq<Byte>, at: nat, group: nat)
    requires ReadGroups(data, at, group).Scanned?
    requires Agree(data, other, ReadGroups(data, at, group).next)
    ensures ReadGroups(other, at, group) == ReadGroups(data, at, group)
    decreases |data| - at
  {
    AgreeAt(data, other, ReadGroups(data, at, group).next, at);
    if data[at] >= 128 {
      ReadGroupsAgree(data, other, at + 1, group + 1);
    }
  }

  lemma VarintAgree(data: seq<Byte>, other: seq<Byte>, at: nat)
    requires ReadVarint(data, at).Scanned?
    requires Agree(data, other, ReadVarint(data, at).next)
    ensures ReadVarint(other, at) == ReadVarint(data, at)
  {
    ReadGroupsAgree(data, other, at, 0);
  }

  /** An eleventh group is one however the bytes go on. */
  lemma {:induction false} OverlongStays(data: seq<Byte>, more: seq<Byte>, at: nat, group: nat)
    requires ReadGroups(data, at, group) == Overlong
    ensures ReadGroups(data + more, at, group) == Overlong
    decreases |data| - at
  {
    if group < 10 { OverlongStays(data, more, at + 1, group + 1); }
  }

  lemma VarintOverlong(data: seq<Byte>, more: seq<Byte>)
    requires ReadVarint(data, 0) == Overlong
    ensures ReadVarint(data + more, 0) == Overlong
  {
    OverlongStays(data, more, 0, 0);
  }

  /** An integer cut short is recognised as such: no proper prefix of an
  encoding reads as anything. */
  lemma {:induction false} ReadGroupsCut(data: seq<Byte>, at: nat, value: nat, group: nat)
    requires at <= |data| < at + |PutVarint(value)| && group + |PutVarint(value)| <= 10
    requires data[at..] == PutVarint(value)[..|data| - at]
    ensures ReadGroups(data, at, group) == Short
    decreases value
  {
    if at < |data| {
      assert data[at..][0] == PutVarint(value)[0];
      if value >= 128 {
        assert data[at + 1..] == data[at..][1..];
        assert PutVarint(value / 128) == PutVarint(value)[1..];
        ReadGroupsCut(data, at + 1, value / 128, group + 1);
      }
    }
  }

  lemma VarintCut(data: seq<Byte>, at: nat, value: nat)
    requires value < TWO64 && at <= |data| < at + |PutVarint(value)|
    requires data[at..] == PutVarint(value)[..|data| - at]
    ensures ReadVarint(data, at) == Short
  {
    Pow128Values();
    PutVarintLength(value, 10);
    ReadGroupsCut(data, at, value, 0);
  }

  method WriteVarint(value: nat) returns (scratch: seq<Byte>)
    requires value < TWO64
    ensures scratch == PutVarint(value)
  {
    scratch := [];
    var rest := value;
    while true
      invariant scratch + PutVarint(rest) == PutVarint(value)
      decreases rest
    {
      var byte := rest % 128;
      var more := rest / 128;
      if more == 0 {
        scratch := scratch + [byte];
        break;
      }
      assert scratch + PutVarint(rest) == (scratch + [byte + 128]) + PutVarint(more);
      scratch := scratch + [byte + 128];
      rest := more;
    }
  }

  /** The decoding loop. Groups occupy disjoint bits, so the source's `|=` of a
  shifted group is an addition modulo 2^64. */
  method GetVarint(data: seq<Byte>, offset: nat) returns (scan: Scan)
    ensures scan == ReadVarint(data, offset)
  {
    var result: nat, scale: nat, group: nat, cursor: nat := 0, 1, 0, offset;
    ghost var low: nat := 0;
    ShiftedByNone(ReadGroups(data, offset, 0));
    hide ReadGroups, Scale;
    while true
      invariant cursor >= offset
      invariant result == low % TWO64
      invariant ReadGroups(data, offset, 0) == Shifted(low, scale, ReadGroups(data, cursor, group))
      decreases |data| - cursor
    {
      GroupsEnd(data, cursor, group);
      if cursor >= |data| { return Short; }
      var byte := data[cursor];
      if group >= 10 { return Overlong; }
      result := (result + Scale(byte % 128, scale)) % TWO64;
      ModAdd(low, Scale(byte % 128, scale));
      GroupStep(data, cursor, group, low, scale, byte % 128);
      low := low + Scale(byte % 128, scale);
      if byte < 128 { return Scanned(result, cursor + 1); }
      cursor, group, scale := cursor + 1, group + 1, Scale(128, scale);
    }
  }

  function Scale(digit: nat, scale: nat): nat { digit * scale }

  ghost function Shifted(low: nat, scale: nat, scan: Scan): Scan {
    match scan
    case Scanned(value, next) => Scanned(low + Scale(value, scale), next)
    case failed => failed
  }

  lemma ShiftedByNone(scan: Scan)
    ensures Shifted(0, 1, scan) == scan
  {
  }

  lemma GroupsEnd(data: seq<Byte>, at: nat, group: nat)
    ensures at >= |data| ==> ReadGroups(data, at, group) == Short
    ensures at < |data| && group >= 10 ==> ReadGroups(data, at, group) == Overlong
  {
  }

  lemma GroupStep(data: seq<Byte>, at: nat, group: nat, low: nat, scale: nat, digit: nat)
    requires at < |data| && group < 10 && digit == data[at] % 128
    ensures Shifted(low, scale, ReadGroups(data, at, group)) ==
            if data[at] < 128 then Scanned(low + Scale(digit, scale), at + 1)
            else Shifted(low + Scale(digit, scale), Scale(128, scale), ReadGroups(data, at + 1, group + 1))
  {
    if data[at] >= 128 {
      assert digit == data[at] - 128;
      match ReadGroups(data, at + 1, group + 1)
      case Scanned(value, next) => Distribute(digit, value, scale);
      case _ =>
    }
  }

  lemma ModAdd(low: nat, more: nat)
    ensures (low % TWO64 + more) % TWO64 == (low + more) % TWO64
  {
  }

  lemma Distribute(digit: nat, value: nat, scale: nat)
    ensures Scale(digit + 128 * value, scale) == Scale(digit, scale) + Scale(value, Scale(128, scale))
  {
  }
}
