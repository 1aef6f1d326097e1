/** The acknowledged-input ledger and its exclusive controller lease
(src/input_session.c). */
module InputSession {
  import opened Bytes

  const TOKEN_SIZE: nat := 16
  const NO_TOKEN: seq<Byte> := [0, 0, 0, 0, 0, 0, 0, 0, 0, 0, 0, 0, 0, 0, 0, 0]

  predicate Nonzero(token: seq<Byte>) {
    exists k :: 0 <= k < |token| && token[k] != 0
  }

  lemma NoTokenIsZero()
    ensures !Nonzero(NO_TOKEN)
  {
  }

  datatype InputStatus = READY | BUSY | EXPIRED | EPOCH | LIMIT | DENIED

  datatype OpenRequest = OpenRequest(epoch: seq<Byte>, clientId: seq<Byte>, lastAck: nat)

  datatype Lease = Lease(epoch: seq<Byte>, clientId: seq<Byte>, accepted: nat, expires: nat,
                         owner: nat, retained: bool, graceMs: nat)

  function InitialLease(epoch: seq<Byte>, graceMs: nat): Lease {
    Lease(epoch, NO_TOKEN, 0, 0, 0, false, graceMs)
  }

  // ---- what each call does --------------------------------------------------------------

  function Expire(lease: Lease, now: nat): Lease {
    if lease.retained && lease.owner == 0 && now >= lease.expires then lease.(retained := false) else lease
  }

  /** The deadline saturates instead of wrapping. */
  function Deadline(lease: Lease, now: nat): nat {
    if now > TWO64 - 1 - lease.graceMs then TWO64 - 1 else now + lease.graceMs
  }

  function Disconnect(lease: Lease, owner: nat, now: nat): Lease {
    if owner == 0 || lease.owner != owner then lease
    else lease.(owner := 0, expires := Deadline(lease, now))
  }

  datatype Opened = Opened(lease: Lease, status: InputStatus, fenced: nat)

  /** kmx_input_session_open, refusals in the source's order. */
  function Open(lease: Lease, request: OpenRequest, owner: nat, now: nat,
                freshEpoch: Option<seq<Byte>>, allowed: bool, otherController: bool): Opened
  {
    var next := Expire(lease, now);
    var isNew := !Nonzero(request.epoch);
    if owner == 0 || !Nonzero(lease.epoch) || !Nonzero(request.clientId) then Opened(lease, DENIED, 0)
    else if !allowed then Opened(lease, DENIED, 0)
    else if !isNew && request.epoch != next.epoch then Opened(lease, EPOCH, 0)
    else if isNew && request.lastAck != 0 then Opened(lease, DENIED, 0)
    else if !isNew && (!next.retained || request.clientId != next.clientId) then Opened(lease, EXPIRED, 0)
    else if next.retained && request.clientId != next.clientId then Opened(lease, BUSY, 0)
    else if next.retained && (request.lastAck > next.accepted || (isNew && next.accepted != 0)) then
      Opened(lease, DENIED, 0)
    else if !next.retained && otherController then Opened(lease, BUSY, 0)
    else if !next.retained && (freshEpoch.None? || !Nonzero(freshEpoch.value) || freshEpoch.value == next.epoch) then
      Opened(lease, DENIED, 0)
    else
      var held := if next.retained then next
                  else next.(epoch := freshEpoch.value, clientId := request.clientId, accepted := 0, retained := true);
      Opened(held.(owner := owner, expires := 0), READY,
             if held.owner != 0 && held.owner != owner then held.owner else 0)
  }

  datatype Verdict = Duplicate | Expected | Rejected

  function Classify(lease: Lease, owner: nat, sequence: nat): Verdict {
    if owner == 0 || sequence == 0 || !lease.retained || lease.owner != owner then Rejected
    else if sequence <= lease.accepted then Duplicate
    else if lease.accepted == TWO64 - 1 || sequence != lease.accepted + 1 then Rejected
    else Expected
  }

  datatype Committed = Committed(lease: Lease, ok: bool)

  function Commit(lease: Lease, owner: nat, sequence: nat): Committed {
    if Classify(lease, owner, sequence) == Expected then Committed(lease.(accepted := sequence), true)
    else Committed(lease, false)
  }

  function Close(lease: Lease, owner: nat, lastAck: nat): Committed {
    if owner == 0 || !lease.retained || lease.owner != owner || lastAck != lease.accepted then Committed(lease, false)
    else Committed(lease.(owner := 0, retained := false), true)
  }

  // ---- the ledger as the source keeps it ------------------------------------------------

  class Session {
    var epoch: seq<Byte>
    var clientId: seq<Byte>
    var accepted: nat
    var expires: nat
    var owner: nat
    var retained: bool
    const graceMs: nat

    ghost function View(): Lease
      reads this
    {
      Lease(epoch, clientId, accepted, expires, owner, retained, graceMs)
    }

    constructor (initialEpoch: seq<Byte>, graceMs: nat)
      ensures View() == InitialLease(initialEpoch, graceMs)
    {
      epoch, clientId, accepted, expires := initialEpoch, NO_TOKEN, 0, 0;
      owner, retained := 0, false;
      this.graceMs := graceMs;
    }

    method ExpireAt(now: nat)
      modifies this`retained
      ensures View() == Expire(old(View()), now)
    {
      if retained && owner == 0 && now >= expires { retained := false; }
    }

    method DisconnectOwner(leaving: nat, now: nat)
      modifies this`owner, this`expires
      ensures View() == Disconnect(old(View()), leaving, now)
    {
      if leaving == 0 || owner != leaving { return; }
      owner := 0;
      expires := if now > TWO64 - 1 - graceMs then TWO64 - 1 else now + graceMs;
    }

    /** Works on local copies, so that a refusal leaves every field alone. */
    method OpenLease(request: OpenRequest, newOwner: nat, now: nat, freshEpoch: Option<seq<Byte>>,
                     allowed: bool, otherController: bool) returns (status: InputStatus, fenced: nat)
      modifies this
      ensures Opened(View(), status, fenced) ==
              Open(old(View()), request, newOwner, now, freshEpoch, allowed, otherController)
    {
      fenced := 0;
      if newOwner == 0 || !Nonzero(epoch) || !Nonzero(request.clientId) { return DENIED, 0; }
      var held := retained && !(owner == 0 && now >= expires);
      var isNew := !Nonzero(request.epoch);
      if !allowed { return DENIED, 0; }
      if !isNew && request.epoch != epoch { return EPOCH, 0; }
      if isNew && request.lastAck != 0 { return DENIED, 0; }
      if !isNew && (!held || request.clientId != clientId) { return EXPIRED, 0; }
      if held && request.clientId != clientId { return BUSY, 0; }
      if held && (request.lastAck > accepted || (isNew && accepted != 0)) { return DENIED, 0; }
      if !held {
        if otherController { return BUSY, 0; }
        if freshEpoch.None? || !Nonzero(freshEpoch.value) || freshEpoch.value == epoch { return DENIED, 0; }
        epoch, clientId, accepted, retained := freshEpoch.value, request.clientId, 0, true;
      }
      if owner != 0 && owner != newOwner { fenced := owner; }
      owner, expires := newOwner, 0;
      status := READY;
    }

    method ClassifyInput(from: nat, sequence: nat) returns (verdict: Verdict)
      ensures verdict == Classify(View(), from, sequence)
    {
      if from == 0 || sequence == 0 || !retained || owner != from { return Rejected; }
      if sequence <= accepted { return Duplicate; }
      if accepted == TWO64 - 1 || sequence != accepted + 1 { return Rejected; }
      return Expected;
    }

    method CommitInput(from: nat, sequence: nat) returns (ok: bool)
      modifies this`accepted
      ensures Committed(View(), ok) == Commit(old(View()), from, sequence)
    {
      var verdict := ClassifyInput(from, sequence);
      if verdict != Expected { return false; }
      accepted := sequence;
      return true;
    }

    method CloseLease(from: nat, lastAck: nat) returns (ok: bool)
      modifies this`owner, this`retained
      ensures Committed(View(), ok) == Close(old(View()), from, lastAck)
    {
      if from == 0 || !retained || owner != from || lastAck != accepted { return false; }
      owner, retained := 0, false;
      return true;
    }
  }

  // ---- laws of one call --------------------------------------------------------------------

  /** Exactly which requests are granted. */
  ghost predicate Grantable(lease: Lease, request: OpenRequest, owner: nat, now: nat,
                            freshEpoch: Option<seq<Byte>>, allowed: bool, otherController: bool)
  {
    var lapsed := lease.owner == 0 && now >= lease.expires;
    && owner != 0 && allowed && Nonzero(lease.epoch) && Nonzero(request.clientId)
    && (if lease.retained && !lapsed
        then request.clientId == lease.clientId &&
             (if Nonzero(request.epoch) then request.epoch == lease.epoch && request.lastAck <= lease.accepted
              else request.lastAck == 0 && lease.accepted == 0)
        else !Nonzero(request.epoch) && request.lastAck == 0 && !otherController &&
             freshEpoch.Some? && Nonzero(freshEpoch.value) && freshEpoch.value != lease.epoch)
  }

  lemma OpenGrantedIff(lease: Lease, request: OpenRequest, owner: nat, now: nat,
                       freshEpoch: Option<seq<Byte>>, allowed: bool, otherController: bool)
    ensures var r := Open(lease, request, owner, now, freshEpoch, allowed, otherController);
            && (r.status == READY <==> Grantable(lease, request, owner, now, freshEpoch, allowed, otherController))
            && (r.status != READY ==> r.lease == lease && r.fenced == 0)
            && (r.status == READY ==>
                  r.lease.owner == owner && r.lease.retained && r.lease.clientId == request.clientId)
            && (r.status == READY ==>
                  if lease.retained && !(lease.owner == 0 && now >= lease.expires)
                  then r.lease == lease.(owner := owner, expires := 0)
                  else r.lease == Lease(freshEpoch.value, request.clientId, 0, 0, owner, true, lease.graceMs))
            && (r.status == READY ==> r.fenced == if lease.owner == owner then 0 else lease.owner)
  {
    hide Nonzero;
  }

  /** What a refusal says to a client with an identity that may control: that its
  epoch is not the server's, that its lease is gone, that someone else has it, or
  that its counter cannot be. */
  lemma RefusalSays(lease: Lease, request: OpenRequest, owner: nat, now: nat, freshEpoch: Option<seq<Byte>>,
                    otherController: bool)
    requires owner != 0 && Nonzero(lease.epoch) && Nonzero(request.clientId)
    ensures var status := Open(lease, request, owner, now, freshEpoch, true, otherController).status;
            var held := lease.retained && !(lease.owner == 0 && now >= lease.expires);
            var (knows, same) := (Nonzero(request.epoch), request.clientId == lease.clientId);
            && (status == EPOCH <==> knows && request.epoch != lease.epoch)
            && (status == EXPIRED <==> knows && request.epoch == lease.epoch && !(held && same))
            && (status == BUSY <==>
                  !knows && request.lastAck == 0 && (if held then !same else otherController))
            && status != LIMIT
    ensures Open(lease, request, owner, now, freshEpoch, false, otherController).status == DENIED
  {
    hide Nonzero;
  }

  /** A lease lapses only without an owner and at its deadline, and an owner that leaves
  gets its grace, up to the end of the clock. */
  lemma LapsesIff(lease: Lease, owner: nat, now: nat)
    requires now < TWO64
    ensures Expire(lease, now) == lease.(retained := lease.retained && !(lease.owner == 0 && now >= lease.expires))
    ensures Disconnect(lease, owner, now) ==
            if owner != 0 && lease.owner == owner
            then lease.(owner := 0, expires := Min(now + lease.graceMs, TWO64 - 1)) else lease
  {
  }

  /** The next sequence is expected from the owner alone, and an earlier one is a
  duplicate of something counted. */
  lemma ClassifyIff(lease: Lease, owner: nat, sequence: nat)
    ensures var owns := owner != 0 && lease.retained && lease.owner == owner;
            && (Classify(lease, owner, sequence) == Expected <==>
                  owns && sequence == lease.accepted + 1 && lease.accepted != TWO64 - 1)
            && (Classify(lease, owner, sequence) == Duplicate <==> owns && 1 <= sequence <= lease.accepted)
    ensures Commit(lease, owner, sequence) ==
            if Classify(lease, owner, sequence) == Expected then Committed(lease.(accepted := lease.accepted + 1), true)
            else Committed(lease, false)
    ensures Close(lease, owner, sequence) ==
            if owner != 0 && lease.retained && lease.owner == owner && sequence == lease.accepted
            then Committed(lease.(owner := 0, retained := false), true) else Committed(lease, false)
  {
  }

  /** A resume before the deadline keeps the epoch and the counter; the same
  request at or after it is told the session has expired. */
  lemma ResumeUntilDeadline(lease: Lease, left: nat, at: nat, request: OpenRequest, owner: nat, now: nat,
                            freshEpoch: Option<seq<Byte>>, otherController: bool)
    requires lease.retained && lease.owner == left != 0 && Nonzero(lease.epoch) && owner != 0
    requires request.epoch == lease.epoch && request.clientId == lease.clientId && Nonzero(request.clientId)
    requires request.lastAck <= lease.accepted
    ensures var waiting := Disconnect(lease, left, at);
            var r := Open(waiting, request, owner, now, freshEpoch, true, otherController);
            if now < Min(at + lease.graceMs, TWO64 - 1)
            then r.status == READY && r.fenced == 0 &&
                 r.lease == lease.(owner := owner, expires := 0)
            else r.status == EXPIRED && r.lease == waiting
  {
    hide Nonzero;
  }

  // ---- laws of every run ---------------------------------------------------------------------

  datatype Call =
    | CallOpen(request: OpenRequest, owner: nat, now: nat, freshEpoch: Option<seq<Byte>>, allowed: bool, other: bool)
    | CallDisconnect(owner: nat, now: nat)
    | CallExpire(now: nat)
    | CallCommit(owner: nat, sequence: nat)
    | CallClose(owner: nat, lastAck: nat)

  function Applied(lease: Lease, call: Call): Lease {
    match call
    case CallOpen(request, owner, now, freshEpoch, allowed, other) =>
      Open(lease, request, owner, now, freshEpoch, allowed, other).lease
    case CallDisconnect(owner, now) => Disconnect(lease, owner, now)
    case CallExpire(now) => Expire(lease, now)
    case CallCommit(owner, sequence) => Commit(lease, owner, sequence).lease
    case CallClose(owner, lastAck) => Close(lease, owner, lastAck).lease
  }

  function Run(lease: Lease, calls: seq<Call>): Lease
    decreases |calls|
  {
    if calls == [] then lease else Run(Applied(lease, calls[0]), calls[1..])
  }

  /** Successful commits along a run. */
  function Commits(lease: Lease, calls: seq<Call>): nat
    decreases |calls|
  {
    if calls == [] then 0
    else
      (if calls[0].CallCommit? && Commit(lease, calls[0].owner, calls[0].sequence).ok then 1 else 0) +
      Commits(Applied(lease, calls[0]), calls[1..])
  }

  /** No call along the run opens a new epoch. */
  predicate OneEpoch(lease: Lease, calls: seq<Call>)
    decreases |calls|
  {
    calls == [] || (Applied(lease, calls[0]).epoch == lease.epoch && OneEpoch(Applied(lease, calls[0]), calls[1..]))
  }

  /** Within an epoch the counter is exactly the number of successful commits: it
  rises by one with each and never falls. */
  lemma {:induction false} AcceptedCountsCommits(lease: Lease, calls: seq<Call>)
    requires OneEpoch(lease, calls)
    ensures Run(lease, calls).accepted == lease.accepted + Commits(lease, calls)
    decreases |calls|
  {
    hide Nonzero;
    if calls != [] {
      AcceptedCountsCommits(Applied(lease, calls[0]), calls[1..]);
    }
  }

  predicate CallsAs(call: Call, owner: nat) {
    match call
    case CallOpen(_, o, _, _, _, _) => o == owner
    case CallDisconnect(o, _) => o == owner
    case CallCommit(o, _) => o == owner
    case CallClose(o, _) => o == owner
    case CallExpire(_) => false
  }

  predicate NeverOpens(calls: seq<Call>, owner: nat) {
    forall k :: 0 <= k < |calls| ==> !(calls[k].CallOpen? && calls[k].owner == owner)
  }

  lemma {:induction false} NeverOwnsAgain(lease: Lease, calls: seq<Call>, gone: nat)
    requires gone != 0 && lease.owner != gone && NeverOpens(calls, gone)
    ensures Run(lease, calls).owner != gone
    decreases |calls|
  {
    hide Nonzero;
    if calls != [] {
      var next := Applied(lease, calls[0]);
      assert next.owner != gone;
      assert NeverOpens(calls[1..], gone);
      NeverOwnsAgain(next, calls[1..], gone);
    }
  }

  /** A takeover fences exactly the previous owner: it names it, and whatever
  happens afterwards, every later call the fenced owner makes changes nothing. */
  lemma TakeoverFences(lease: Lease, request: OpenRequest, owner: nat, now: nat, freshEpoch: Option<seq<Byte>>,
                       allowed: bool, other: bool, calls: seq<Call>, late: Call)
    requires lease.owner != 0 && lease.owner != owner
    requires Open(lease, request, owner, now, freshEpoch, allowed, other).status == READY
    requires NeverOpens(calls, lease.owner) && CallsAs(late, lease.owner) && !late.CallOpen?
    ensures var r := Open(lease, request, owner, now, freshEpoch, allowed, other);
            && r.fenced == lease.owner
            && Applied(Run(r.lease, calls), late) == Run(r.lease, calls)
  {
    hide Nonzero;
    var r := Open(lease, request, owner, now, freshEpoch, allowed, other);
    NeverOwnsAgain(r.lease, calls, lease.owner);
  }
}
