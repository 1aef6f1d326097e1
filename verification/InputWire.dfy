/** Payloads of the acknowledged-input messages (src/input.c), enough of each to
carry a message across and recognise it at the other end. */
module InputWire {
  import opened Bytes
  import opened InputSession

  const MSG_INPUT_OPEN: Byte := 15
  const MSG_INPUT_STATE: Byte := 16
  const MSG_INPUT_DATA: Byte := 17
  const MSG_INPUT_ACK: Byte := 18
  const MSG_INPUT_CLOSE: Byte := 19

  const DATA_MAX: nat := 32768
  const MAX_PANES: nat := 32

  function PutU64(value: nat): (bytes: seq<Byte>)
    ensures |bytes| == 8
  {
    [value / 0x100_0000_0000_0000 % 256, value / 0x1_0000_0000_0000 % 256, value / 0x100_0000_0000 % 256,
     value / 0x1_0000_0000 % 256, value / 0x100_0000 % 256, value / 0x1_0000 % 256, value / 0x100 % 256, value % 256]
  }

  function GetU64(bytes: seq<Byte>): nat
    requires |bytes| == 8
  {
    var wire: seq<nat> := bytes;
    ((((((wire[0] * 256 + wire[1]) * 256 + wire[2]) * 256 + wire[3]) * 256 + wire[4]) * 256 + wire[5]) * 256
     + wire[6]) * 256 + wire[7]
  }

  /** Dividing by one byte more is dividing once more. */
  lemma ByteByByte(value: nat)
    ensures value / 0x1_0000 == value / 0x100 / 0x100
    ensures value / 0x100_0000 == value / 0x1_0000 / 0x100
    ensures value / 0x1_0000_0000 == value / 0x100_0000 / 0x100
    ensures value / 0x100_0000_0000 == value / 0x1_0000_0000 / 0x100
    ensures value / 0x1_0000_0000_0000 == value / 0x100_0000_0000 / 0x100
    ensures value / 0x100_0000_0000_0000 == value / 0x1_0000_0000_0000 / 0x100
  {
  }

  lemma ByteOf(value: nat)
    ensures value / 256 * 256 + value % 256 == value
  {
  }

  lemma U64RoundTrip(value: nat)
    requires value < TWO64
    ensures GetU64(PutU64(value)) == value
  {
    ByteByByte(value);
    var v1 := value / 0x100;
    var v2 := value / 0x1_0000;
    var v3 := value / 0x100_0000;
    var v4 := value / 0x1_0000_0000;
    var v5 := value / 0x100_0000_0000;
    var v6 := value / 0x1_0000_0000_0000;
    var v7 := value / 0x100_0000_0000_0000;
    ByteOf(value);
    ByteOf(v1);
    ByteOf(v2);
    ByteOf(v3);
    ByteOf(v4);
    ByteOf(v5);
    ByteOf(v6);
    assert v7 < 256 && v7 % 256 == v7;
    var wire: seq<nat> := PutU64(value);
    assert wire[0] == v7 && wire[0] * 256 + wire[1] == v6;
    assert v6 * 256 + wire[2] == v5 && v5 * 256 + wire[3] == v4 && v4 * 256 + wire[4] == v3;
    assert v3 * 256 + wire[5] == v2 && v2 * 256 + wire[6] == v1 && v1 * 256 + wire[7] == value;
  }

  lemma Digit(high: nat, low: Byte)
    ensures (high * 256 + low) / 256 == high && (high * 256 + low) % 256 == low
  {
  }

  /** Eight bytes hold nothing but their value. */
  lemma U64Canonical(bytes: seq<Byte>)
    requires |bytes| == 8
    ensures PutU64(GetU64(bytes)) == bytes && GetU64(bytes) < TWO64
  {
    var wire: seq<nat> := bytes;
    var v1 := wire[0] * 256 + wire[1];
    var v2 := v1 * 256 + wire[2];
    var v3 := v2 * 256 + wire[3];
    var v4 := v3 * 256 + wire[4];
    var v5 := v4 * 256 + wire[5];
    var v6 := v5 * 256 + wire[6];
    var v7 := v6 * 256 + wire[7];
    Digit(v6, bytes[7]);
    Digit(v5, bytes[6]);
    Digit(v4, bytes[5]);
    Digit(v3, bytes[4]);
    Digit(v2, bytes[3]);
    Digit(v1, bytes[2]);
    Digit(wire[0], bytes[1]);
    ByteByByte(v7);
    assert v7 / 0x100 == v6 && v7 / 0x1_0000 == v5 && v7 / 0x100_0000 == v4 && v7 / 0x1_0000_0000 == v3;
    assert v7 / 0x100_0000_0000 == v2 && v7 / 0x1_0000_0000_0000 == v1 && v7 / 0x100_0000_0000_0000 == wire[0];
    assert PutU64(v7) == bytes;
  }

  const HEAD: seq<Byte> := [1, 0, 0, 0]

  function PutOpen(request: OpenRequest): seq<Byte> {
    HEAD + request.epoch + request.clientId + PutU64(request.lastAck)
  }

  function ReadOpen(payload: seq<Byte>): Option<OpenRequest> {
    if |payload| != 44 || payload[..4] != HEAD || !Nonzero(payload[20..36]) then None
    else Some(OpenRequest(payload[4..20], payload[20..36], GetU64(payload[36..])))
  }

  lemma OpenRoundTrip(request: OpenRequest)
    requires |request.epoch| == TOKEN_SIZE == |request.clientId| && Nonzero(request.clientId) && request.lastAck < TWO64
    ensures ReadOpen(PutOpen(request)) == Some(request)
  {
    hide PutU64, GetU64, Nonzero;
    var payload := PutOpen(request);
    assert payload[..4] == HEAD && payload[4..20] == request.epoch;
    assert payload[20..36] == request.clientId && payload[36..] == PutU64(request.lastAck);
    U64RoundTrip(request.lastAck);
  }

  /** An OPEN that is read is one that could have been written: nothing else is taken. */
  lemma OpenCanonical(payload: seq<Byte>)
    ensures ReadOpen(payload).Some? ==>
              var request := ReadOpen(payload).value;
              && |request.epoch| == 16 == |request.clientId| && Nonzero(request.clientId) && request.lastAck < TWO64
              && PutOpen(request) == payload
  {
    hide PutU64, GetU64, Nonzero;
    if ReadOpen(payload).Some? {
      U64Canonical(payload[36..]);
      assert payload == payload[..4] + payload[4..20] + payload[20..36] + payload[36..];
    }
  }

  /** The pane is always zero for reliable input. */
  function PutData(sequence: nat, data: seq<Byte>): seq<Byte> {
    HEAD + PutU64(sequence) + data
  }

  datatype InputData = InputData(pane: nat, sequence: nat, data: seq<Byte>)

  function ReadData(payload: seq<Byte>): Option<InputData> {
    if |payload| < 13 || |payload| > 12 + DATA_MAX || payload[0] != 1 || payload[1] >= MAX_PANES ||
       payload[2] != 0 || payload[3] != 0 || GetU64(payload[4..12]) == 0 then None
    else Some(InputData(payload[1], GetU64(payload[4..12]), payload[12..]))
  }

  lemma DataRoundTrip(sequence: nat, data: seq<Byte>)
    requires 0 < sequence < TWO64 && 0 < |data| <= DATA_MAX
    ensures ReadData(PutData(sequence, data)) == Some(InputData(0, sequence, data))
  {
    hide PutU64, GetU64;
    var payload := PutData(sequence, data);
    assert payload[..4] == HEAD;
    assert payload[4..12] == PutU64(sequence) && payload[12..] == data;
    U64RoundTrip(sequence);
  }

  /** DATA that is read for pane zero is one that could have been written: a sequence
  that counts, and one byte to 32 KiB. */
  lemma DataCanonical(payload: seq<Byte>)
    ensures ReadData(payload).Some? && ReadData(payload).value.pane == 0 ==>
              var input := ReadData(payload).value;
              && 0 < input.sequence < TWO64 && 1 <= |input.data| <= 32 * 1024
              && PutData(input.sequence, input.data) == payload
    ensures ReadData(payload).Some? ==> ReadData(payload).value.pane < 32
  {
    hide PutU64, GetU64;
    if ReadData(payload).Some? && ReadData(payload).value.pane == 0 {
      U64Canonical(payload[4..12]);
      assert payload[..4] == HEAD;
      assert payload == payload[..4] + payload[4..12] + payload[12..];
    }
  }

  /** INPUT_ACK and INPUT_CLOSE carry the same payload. */
  function PutAck(accepted: nat): seq<Byte> {
    HEAD + PutU64(accepted)
  }

  function ReadAck(payload: seq<Byte>): Option<nat> {
    if |payload| != 12 || payload[..4] != HEAD then None else Some(GetU64(payload[4..]))
  }

  lemma AckRoundTrip(accepted: nat)
    requires accepted < TWO64
    ensures ReadAck(PutAck(accepted)) == Some(accepted)
  {
    hide PutU64, GetU64;
    var payload := PutAck(accepted);
    assert payload[..4] == HEAD && payload[4..] == PutU64(accepted);
    U64RoundTrip(accepted);
  }

  lemma AckCanonical(payload: seq<Byte>)
    ensures ReadAck(payload).Some? ==> ReadAck(payload).value < TWO64 && PutAck(ReadAck(payload).value) == payload
  {
    hide PutU64, GetU64;
    if ReadAck(payload).Some? {
      U64Canonical(payload[4..]);
      assert payload == payload[..4] + payload[4..];
    }
  }

  function StatusByte(status: InputStatus): Byte {
    match status
    case READY => 0
    case BUSY => 1
    case EXPIRED => 2
    case EPOCH => 3
    case LIMIT => 4
    case DENIED => 5
  }

  function StatusOf(byte: Byte): Option<InputStatus> {
    match byte
    case 0 => Some(READY)
    case 1 => Some(BUSY)
    case 2 => Some(EXPIRED)
    case 3 => Some(EPOCH)
    case 4 => Some(LIMIT)
    case 5 => Some(DENIED)
    case _ => None
  }

  function PutU32(value: nat): (bytes: seq<Byte>)
    ensures |bytes| == 4
  {
    [value / 0x100_0000 % 256, value / 0x1_0000 % 256, value / 0x100 % 256, value % 256]
  }

  function GetU32(bytes: seq<Byte>): nat
    requires |bytes| == 4
  {
    var wire: seq<nat> := bytes;
    ((wire[0] * 256 + wire[1]) * 256 + wire[2]) * 256 + wire[3]
  }

  lemma U32RoundTrip(value: nat)
    requires value < 0x1_0000_0000
    ensures GetU32(PutU32(value)) == value
  {
    var v1 := value / 256;
    var v2 := v1 / 256;
    var v3 := v2 / 256;
    assert value / 0x1_0000 == v2;
    assert value / 0x100_0000 == v3;
    assert v3 < 256;
  }

  lemma U32Canonical(bytes: seq<Byte>)
    requires |bytes| == 4
    ensures PutU32(GetU32(bytes)) == bytes && GetU32(bytes) < 0x1_0000_0000
  {
    var wire: seq<nat> := bytes;
    var v1 := wire[0] * 256 + wire[1];
    var v2 := v1 * 256 + wire[2];
    Digit(v2, bytes[3]);
    Digit(v1, bytes[2]);
    Digit(wire[0], bytes[1]);
    assert PutU32(GetU32(bytes)) == bytes;
  }

  /** INPUT_STATE: the server's answer to an OPEN. */
  datatype State = State(status: InputStatus, graceMs: nat, epoch: seq<Byte>, clientId: seq<Byte>, accepted: nat) {
    /** What a client takes as a granted lease. */
    predicate Grants() {
      status == READY && graceMs != 0
    }
  }

  function PutState(state: State): seq<Byte> {
    [1, StatusByte(state.status), 0, 0] + state.epoch + state.clientId + PutU64(state.accepted) + PutU32(state.graceMs)
  }

  function ReadState(payload: seq<Byte>): Option<State> {
    if |payload| != 48 || payload[0] != 1 || StatusOf(payload[1]).None? || payload[2] != 0 || payload[3] != 0 ||
       !Nonzero(payload[4..20]) || !Nonzero(payload[20..36]) then None
    else Some(State(StatusOf(payload[1]).value, GetU32(payload[44..]), payload[4..20], payload[20..36],
                    GetU64(payload[36..44])))
  }

  lemma StateRoundTrip(state: State)
    requires |state.epoch| == TOKEN_SIZE == |state.clientId| && Nonzero(state.epoch) && Nonzero(state.clientId)
    requires state.accepted < TWO64 && state.graceMs < 0x1_0000_0000
    ensures ReadState(PutState(state)) == Some(state)
  {
    hide PutU64, GetU64, PutU32, GetU32, Nonzero;
    var payload := PutState(state);
    assert payload[4..20] == state.epoch && payload[20..36] == state.clientId;
    assert payload[36..44] == PutU64(state.accepted) && payload[44..] == PutU32(state.graceMs);
    U64RoundTrip(state.accepted);
    U32RoundTrip(state.graceMs);
  }

  lemma StateCanonical(payload: seq<Byte>)
    ensures ReadState(payload).Some? ==>
              var state := ReadState(payload).value;
              && |state.epoch| == 16 == |state.clientId| && Nonzero(state.epoch) && Nonzero(state.clientId)
              && state.accepted < TWO64 && state.graceMs < 0x1_0000_0000 && PutState(state) == payload
  {
    hide PutU64, GetU64, PutU32, GetU32, Nonzero;
    if ReadState(payload).Some? {
      U64Canonical(payload[36..44]);
      U32Canonical(payload[44..]);
      assert StatusByte(StatusOf(payload[1]).value) == payload[1];
      assert payload == payload[..4] + payload[4..20] + payload[20..36] + payload[36..44] + payload[44..];
      assert payload[..4] == [1, payload[1], 0, 0];
    }
  }

  datatype Reply = StateReply(state: State) | AckReply(accepted: nat)
}
