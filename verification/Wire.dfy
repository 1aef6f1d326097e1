/** The compression wrapper and the sequenced cell message (src/sync.c).

zstd is foreign code: it enters as a pair of functions, and the laws below need
of it only that decompressing what it compressed gives the input back. */
module Wire {
  import opened Bytes
  import opened Screen
  import opened Codec
  import opened CodecProofs

  datatype Zstd = Zstd(compress: seq<Byte> -> seq<Byte>, decompress: seq<Byte> -> Option<seq<Byte>>)

  ghost predicate Lossless(zstd: Zstd) {
    forall bytes: seq<Byte> {:trigger zstd.compress(bytes)} :: zstd.decompress(zstd.compress(bytes)) == Some(bytes)
  }

  const CODEC_RAW: Byte := 0
  const CODEC_ZSTD: Byte := 1
  const CELLS_WIRE_MAX: nat := MAX_CELLS * 64 + 64

  /** kmx_compress: compression that does not pay for itself is not used. */
  function Compress(zstd: Zstd, data: seq<Byte>): seq<Byte> {
    var produced := zstd.compress(data);
    if |produced| >= |data| then [CODEC_RAW] + PutVarint(|data|) + data
    else [CODEC_ZSTD] + PutVarint(|data|) + produced
  }

  datatype Unpacked = Unpacked(bytes: seq<Byte>) | Refused(status: Status)

  /** kmx_decompress. */
  function Decompress(zstd: Zstd, data: seq<Byte>, limit: nat): Unpacked {
    if |data| < 1 then Refused(Truncated)
    else match ReadVarint(data, 1)
      case Short => Refused(Truncated)
      case Overlong => Refused(Protocol)
      case Scanned(rawSize, offset) =>
        if limit == 0 || rawSize > limit then Refused(Limit)
        else if data[0] == CODEC_RAW then
          if |data| - offset != rawSize then Refused(Protocol) else Unpacked(data[offset..])
        else if data[0] != CODEC_ZSTD then Refused(Protocol)
        else match zstd.decompress(data[offset..])
          case None => Refused(Protocol)
          case Some(bytes) => if |bytes| != rawSize then Refused(Protocol) else Unpacked(bytes)
  }

  /** Whichever codec was chosen, the receiver gets the same bytes back, provided
  they fit what its plane allows. */
  lemma CompressRoundTrip(zstd: Zstd, data: seq<Byte>, limit: nat)
    requires Lossless(zstd) && 0 < limit < TWO64 && |data| <= limit
    ensures Decompress(zstd, Compress(zstd, data), limit) == Unpacked(data)
  {
    hide PutVarint, ReadVarint;
    var packed, size := Compress(zstd, data), PutVarint(|data|);
    var body := packed[1 + |size|..];
    assert packed == [packed[0]] + size + body;
    AtWhole(packed);
    AtSplit3(packed, 0, [packed[0]], size, body);
    VarintRoundTrip(packed, 1, |data|);
    assert body == if packed[0] == CODEC_RAW then data else zstd.compress(data);
  }

  /** What was packed never outgrows its input by more than the header. */
  lemma CompressLength(zstd: Zstd, data: seq<Byte>)
    ensures |Compress(zstd, data)| <= 1 + |PutVarint(|data|)| + |data|
  {
    hide PutVarint;
  }

  /** Compression is used exactly when it pays, and the header says which: one byte
  and the length, then the shorter of the two. */
  lemma CompressPays(zstd: Zstd, data: seq<Byte>)
    ensures var (packed, size) := (Compress(zstd, data), PutVarint(|data|));
            && |packed| == 1 + |size| + Min(|data|, |zstd.compress(data)|)
            && (packed[0] == 1 <==> |zstd.compress(data)| < |data|) && (packed[0] == 0 <==> packed[0] != 1)
  {
    hide PutVarint;
  }

  /** Exactly what is unpacked: a declared size within the plane's limit, and bytes
  that are that many, stored or decompressed. */
  lemma UnpackedIff(zstd: Zstd, data: seq<Byte>, limit: nat)
    ensures Decompress(zstd, data, limit).Unpacked? <==>
            && data != [] && data[0] <= 1 && ReadVarint(data, 1).Scanned?
            && var (size, next) := (ReadVarint(data, 1).value, ReadVarint(data, 1).next);
               && 0 < limit && size <= limit && next <= |data|
               && (if data[0] == 0 then size == |data| - next
                   else var bytes := zstd.decompress(data[next..]); bytes.Some? && |bytes.value| == size)
  {
    hide ReadVarint;
  }

  lemma RefusalIsAnError(zstd: Zstd, data: seq<Byte>, limit: nat)
    ensures var r := Decompress(zstd, data, limit); r.Refused? ==> r.status != Ok
  {
    hide ReadVarint;
  }

  /** A message as it goes on the wire: its sequence, then the packed diff. */
  function PutCells(zstd: Zstd, sequence: nat, body: seq<Byte>): seq<Byte> {
    PutVarint(sequence) + Compress(zstd, body)
  }

  datatype Received = Received(grid: Grid, status: Status, sequence: nat)

  /** kmx_receiver_apply; the sequence is reported only on success. */
  function ReceiverApply(zstd: Zstd, grid: Grid, data: seq<Byte>): Received
    requires Rectangular(grid.cells, grid.rows, grid.cols)
  {
    match ReadVarint(data, 0)
    case Short => Received(grid, Truncated, 0)
    case Overlong => Received(grid, Protocol, 0)
    case Scanned(sequence, offset) =>
      match Decompress(zstd, data[offset..], CELLS_WIRE_MAX)
      case Refused(status) => Received(grid, status, 0)
      case Unpacked(plain) =>
        var d := Decode(grid, plain);
        Received(d.grid, d.status, if d.status == Ok then sequence else 0)
  }

  /** The whole path from a diff to the far screen: the receiver reports the
  sender's sequence and shows the sender's screen. */
  lemma ReceiverInvertsSender(zstd: Zstd, sequence: nat, previous: Option<Grid>, current: Grid, mask: seq<bool>,
                              held: Grid)
    requires Lossless(zstd) && sequence < TWO64
    requires WellFormedGrid(current) && |mask| == current.rows && ValidGrid(held)
    requires previous.Some? ==> ValidGrid(previous.value)
    requires previous.Some? && SameSize(previous.value, current) ==>
               forall r :: 0 <= r < current.rows && !mask[r] ==>
                 SameSize(held, current) && held.cells[r] == previous.value.cells[r]
    ensures ReceiverApply(zstd, held, PutCells(zstd, sequence, EncodeRows(previous, current, mask))) ==
            Received(current, Ok, sequence)
  {
    hide PutVarint, ReadVarint, EncodeRows, Decode, Compress, Decompress, WellFormedRow, RowInRange;
    var body := EncodeRows(previous, current, mask);
    var data := PutCells(zstd, sequence, body);
    AtWhole(data);
    AtSplit(data, 0, PutVarint(sequence), Compress(zstd, body));
    VarintRoundTrip(data, 0, sequence);
    assert data[|PutVarint(sequence)|..] == Compress(zstd, body);
    MessageLength(previous, current, mask);
    CompressRoundTrip(zstd, body, CELLS_WIRE_MAX);
    DecodeInvertsEncode(previous, current, mask, held);
  }

  /** Nothing a peer sends can leave the receiver's grid invalid. */
  lemma ReceiverKeepsGridValid(zstd: Zstd, grid: Grid, data: seq<Byte>)
    requires ValidGrid(grid)
    ensures ValidGrid(ReceiverApply(zstd, grid, data).grid)
    ensures ReceiverApply(zstd, grid, data).status != Ok ==> ReceiverApply(zstd, grid, data).sequence == 0
  {
    hide ReadVarint, Decompress, Decode;
    match ReadVarint(data, 0)
    case Scanned(_, offset) =>
      match Decompress(zstd, data[offset..], CELLS_WIRE_MAX) {
        case Unpacked(plain) => DecodeKeepsGridValid(grid, plain);
        case Refused(_) =>
      }
    case _ =>
  }
}
