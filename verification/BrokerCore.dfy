/**
 * The inbound broker of src/broker.js as functions on values: one function per
 * stretch of code that runs without an `await`. Broker.dfy implements the ones
 * that update records in place; BrokerSystem.dfy lets all of them interleave.
 */
module BrokerCore {
  import opened Basics
  import opened HpkeInfo

  datatype Kind = Text | Files | Universal

  datatype Declaration = Silent | DeclaredText | DeclaredFiles | DeclaredOther

  datatype Phase = Pending | Submitted | Transferring | Claimed | Destroyed

  type Digest = Bytes

  /** What the container decoder returns: optional private text, then the files. */
  datatype Parsed = Parsed(text: Option<Bytes>, files: seq<Bytes>)

  /** Deployment constants, plus the two library calls the broker makes on a container. */
  datatype Config = Config(
    maxLiveFileBytes: nat,
    maxPlaintextBytes: nat,
    maxTotalBytes: nat,
    maxAeadFailures: nat,
    maxTransferAttempts: nat,
    fileClaimLeaseMs: nat,
    decode: Bytes -> Option<Parsed>,
    digest: Bytes -> Digest)

  const TEXT_VERSION: nat := 1
  const FILE_VERSION: nat := 2
  const MIN_TRANSFER_LEASE_MS: nat := 1000
  const CONTAINER_HEADER_BYTES: nat := 10
  const MAX_MANIFEST_BYTES: nat := 6437

  /** `fileContainerCeiling`: the largest container, and one file reservation. */
  function Ceiling(cfg: Config): nat {
    CONTAINER_HEADER_BYTES + MAX_MANIFEST_BYTES + cfg.maxTotalBytes
  }

  /** `base64Length`: four characters per three bytes, rounded up, plus slack. */
  function Base64Length(bytes: nat): nat {
    (bytes * 4 + 2) / 3 + 4
  }

  /** One submission. `wellFormed` stands for the suite and alphabet checks, `decodes` for the fixed-length decodes. */
  datatype Envelope = Envelope(
    v: nat, wellFormed: bool, decodes: bool, hid: Bytes, pkfp: Key, ctChars: nat, box: Sealed)

  /** The full retry identity: the envelope and the lane it was resolved to. */
  datatype EnvelopeKey = EnvelopeKey(envelope: Envelope, kind: Kind)

  datatype Lease = Lease(
    transferId: nat, owner: nat, sizes: seq<nat>, digests: seq<Digest>, totalBytes: nat,
    hasPrivateText: bool, nextFrame: nat, ackedBytes: nat, expiresAt: int)

  datatype InFlight = InFlight(key: EnvelopeKey, task: nat)

  datatype Rec = Rec(
    handoffId: Bytes, capHash: Bytes,
    mintedKind: Kind, payloadKind: Kind,
    reservedBytes: nat, submitLease: Option<nat>, bodySlotBusy: bool,
    transfer: Option<Lease>, transferAttempts: nat,
    state: Phase, expiresAt: int,
    aeadFailures: nat, containerFailures: nat,
    envelopeKey: Option<EnvelopeKey>, plaintext: Option<Bytes>,
    key: Option<Key>, inFlight: Option<InFlight>)

  /** The counter and every record ever made; a destroyed record is no longer indexed but may still be referenced. */
  datatype Core = Core(reserved: int, recs: seq<Rec>)

  datatype Reason =
    | TransferInProgress | AttemptBudgetSpent | HandoffExpiring
    | LeaseExpired | TransferIdMismatch | LeaseNotYours
    | FrameOutOfOrder | FrameMismatch
    | FramesNotAcked | IncompleteTransfer | SizeMismatch | DigestMismatch

  datatype Answer =
    | Unavailable
    | InvalidRequest
    | Receipt(key: EnvelopeKey)
    | TransferFailed(reason: Reason)
    | ResponseTooLarge(payloadBytes: nat)
    | Delivered(payload: Bytes)
    | Began(lease: Lease, frames: seq<Bytes>)
    | FrameAcked(next: Option<nat>)
    | Committed(files: int, bytes: nat)

  datatype Grant = Grant(ok: bool, ceilingWidened: bool, held: bool, lease: Option<nat>)

  datatype SubmitOutcome =
    | Answered(answer: Answer)
    | Joined(task: nat, key: EnvelopeKey)
    | Accepting(key: EnvelopeKey, early: bool)

  datatype BeginOutcome = BeginRefused(answer: Answer) | ManifestPass(plaintext: Bytes, leaseMs: int)

  // ---------------------------------------------------------------- the budget

  function ReservedOf(recs: seq<Rec>): seq<nat> {
    seq(|recs|, i requires 0 <= i < |recs| => recs[i].reservedBytes)
  }

  /** Storing one record moves the sum of the reservations by that record's own difference. */
  lemma PutReserved(recs: seq<Rec>, id: nat, r: Rec)
    requires id < |recs|
    ensures Sum(ReservedOf(recs[id := r])) == Sum(ReservedOf(recs)) - recs[id].reservedBytes + r.reservedBytes
  {
    assert ReservedOf(recs[id := r]) == ReservedOf(recs)[id := r.reservedBytes];
    SumUpdate(ReservedOf(recs), id, r.reservedBytes);
  }

  /** How far the counter is from the sum it stands for; zero up to creates in flight. */
  function Slack(c: Core): int {
    c.reserved - Sum(ReservedOf(c.recs))
  }

  function Put(c: Core, id: nat, r: Rec): Core
    requires id < |c.recs|
  {
    c.(recs := c.recs[id := r])
  }

  lemma PutPut(c: Core, id: nat, a: Rec, b: Rec)
    requires id < |c.recs|
    ensures Put(Put(c, id, a), id, b) == Put(c, id, b)
  {
  }

  predicate Fits(cfg: Config, c: Core, bytes: nat) {
    c.reserved + bytes <= cfg.maxLiveFileBytes
  }

  /** `releaseReservation`: the record's own reservation is zeroed as it is given back. */
  function ReleaseReservation(c: Core, id: nat): Core
    requires id < |c.recs|
  {
    Put(c.(reserved := c.reserved - c.recs[id].reservedBytes), id, c.recs[id].(reservedBytes := 0))
  }

  // ------------------------------------------------------- leases and endings

  function ClearedLease(r: Rec): Rec {
    if r.transfer.None? then r
    else r.(transfer := None, state := if r.state == Transferring then Submitted else r.state)
  }

  function ClearLease(c: Core, id: nat): Core
    requires id < |c.recs|
  {
    Put(c, id, ClearedLease(c.recs[id]))
  }

  /** `retire`: payload and key go, the receipt stays, the reservation is given back. */
  function Retire(c: Core, id: nat): Core
    requires id < |c.recs|
  {
    ReleaseReservation(
      Put(c, id, ClearedLease(c.recs[id]).(plaintext := None, key := None, state := Claimed)), id)
  }

  /** `destroy`: everything goes, whichever state the record was in. */
  function Destroy(c: Core, id: nat): Core
    requires id < |c.recs|
  {
    var c1 := ReleaseReservation(
      Put(c, id, ClearedLease(c.recs[id]).(plaintext := None, key := None, state := Destroyed)), id);
    Put(c1, id, c1.recs[id].(submitLease := None))
  }

  /** `live`: an indexed record past its deadline is destroyed on touch. Every `…Live` function below runs on the result. */
  function Touch(c: Core, id: nat, now: int): Core
    requires id < |c.recs|
  {
    if c.recs[id].state != Destroyed && now >= c.recs[id].expiresAt then Destroy(c, id) else c
  }

  /** `sweep` over the first `n` records; the rest are untouched. */
  function Sweep(c: Core, now: int, n: nat): (c': Core)
    requires n <= |c.recs|
    ensures |c'.recs| == |c.recs| && c'.recs[n..] == c.recs[n..]
  {
    if n == 0 then c else
      var c1 := Sweep(c, now, n - 1);
      assert c1.recs[n - 1..][1..] == c1.recs[n..] && c.recs[n - 1..][1..] == c.recs[n..];
      Touch(c1, n - 1, now)
  }

  function DestroyFirst(c: Core, n: nat): (c': Core)
    requires n <= |c.recs|
    ensures |c'.recs| == |c.recs| && c'.recs[n..] == c.recs[n..]
  {
    if n == 0 then c else
      var c1 := DestroyFirst(c, n - 1);
      assert c1.recs[n - 1..][1..] == c1.recs[n..] && c.recs[n - 1..][1..] == c.recs[n..];
      Destroy(c1, n - 1)
  }

  // ------------------------------------------------------------------- minting

  /** A new pending record. Only a drop minted `files` starts with a reservation. */
  function Minted(handoffId: Bytes, capHash: Bytes, kind: Kind, reservedBytes: nat, expiresAt: int, key: Key): Rec {
    Rec(handoffId, capHash, kind, kind, reservedBytes, None, false, None, 0, Pending, expiresAt, 0, 0, None, None, Some(key), None)
  }

  // --------------------------------------------------------------- submissions

  /** The lane of one submission, or nothing for a refusal. */
  function ResolveKind(r: Rec, d: Declaration): Option<Kind> {
    if d == DeclaredOther then None
    else if r.mintedKind == Universal then Some(if d == DeclaredFiles then Files else Text)
    else if d == DeclaredText && r.payloadKind != Text then None
    else if d == DeclaredFiles && r.payloadKind != Files then None
    else Some(r.payloadKind)
  }

  function VersionOf(kind: Kind): nat {
    if kind == Files then FILE_VERSION else TEXT_VERSION
  }

  function MaxPayload(cfg: Config, kind: Kind): nat {
    if kind == Files then Ceiling(cfg) else cfg.maxPlaintextBytes
  }

  /** `acquireSubmitSlot`: admits one widened body per record and borrows its reservation before a byte is read. */
  function AcquireSlotLive(cfg: Config, c: Core, id: nat, d: Declaration, token: nat): (Core, Grant)
    requires id < |c.recs|
  {
    var r := c.recs[id];
    var eligible := r.state == Pending || (r.state == Submitted && r.payloadKind == Files && d == DeclaredFiles);
    if !eligible then (c, Grant(true, false, false, None)) else
    match ResolveKind(r, d)
    case None => (c, Grant(false, false, false, None))
    case Some(kind) =>
      if kind != Files then (c, Grant(true, false, false, None)) else AdmitBody(cfg, c, id, token)
  }

  /** The widened lane: one body at a time, and only under a reservation. */
  function AdmitBody(cfg: Config, c: Core, id: nat, token: nat): (Core, Grant)
    requires id < |c.recs|
  {
    var r := c.recs[id];
    if r.bodySlotBusy then (c, Grant(false, true, false, None))
    else if r.state == Submitted then (Put(c, id, r.(bodySlotBusy := true)), Grant(true, true, true, None))
    else if r.submitLease.Some? then (c, Grant(false, true, false, None))
    else if r.reservedBytes > 0 then (Put(c, id, r.(bodySlotBusy := true)), Grant(true, true, true, None))
    else if !Fits(cfg, c, Ceiling(cfg)) then (c, Grant(false, true, false, None))
    else
      (Put(c.(reserved := c.reserved + Ceiling(cfg)), id,
           r.(bodySlotBusy := true, submitLease := Some(token), reservedBytes := Ceiling(cfg))),
       Grant(true, true, true, Some(token)))
  }

  function AcquireSlot(cfg: Config, c: Core, id: nat, d: Declaration, now: int, token: nat): (Core, Grant)
    requires id < |c.recs|
  {
    AcquireSlotLive(cfg, Touch(c, id, now), id, d, token)
  }

  /** The `release` closure of a granted slot: frees the slot and gives back a lease that is still the record's. */
  function ReleaseSlot(c: Core, id: nat, lease: Option<nat>): Core
    requires id < |c.recs|
  {
    var r := c.recs[id].(bodySlotBusy := false);
    if lease.Some? && r.submitLease == lease
    then ReleaseReservation(Put(c, id, r.(submitLease := None)), id)
    else Put(c, id, r)
  }

  predicate ShapeValid(cfg: Config, e: Envelope, kind: Kind) {
    && e.v == VersionOf(kind)
    && e.wellFormed
    && e.ctChars <= Base64Length(MaxPayload(cfg, kind) + AEAD_TAG_BYTES)
  }

  /** The checks `acceptEnvelope` makes before its first await. */
  predicate PassesEarlyChecks(cfg: Config, r: Rec, e: Envelope, kind: Kind) {
    && e.hid == r.handoffId
    && e.decodes
    && CiphertextBytes(e.box) >= AEAD_TAG_BYTES + 1
    && CiphertextBytes(e.box) <= MaxPayload(cfg, kind) + AEAD_TAG_BYTES
  }

  /** `submit` up to its first await: replay, join, refusal, or one registered attempt. */
  function SubmitStartLive(cfg: Config, c: Core, id: nat, e: Envelope, d: Declaration, task: nat): (Core, SubmitOutcome)
    requires id < |c.recs|
  {
    var r := c.recs[id];
    if r.state == Destroyed then (c, Answered(Unavailable)) else
    match ResolveKind(r, d)
    case None => (c, Answered(Unavailable))
    case Some(kind) =>
      var key := EnvelopeKey(e, kind);
      var valid := ShapeValid(cfg, e, kind);
      if r.state != Pending then
        (c, Answered(if valid && r.envelopeKey == Some(key) then Receipt(key) else Unavailable))
      else if !valid then (c, Answered(Unavailable))
      else if r.inFlight.Some? then
        (c, if r.inFlight.value.key == key then Joined(r.inFlight.value.task, key) else Answered(Unavailable))
      else
        (Put(c, id, r.(inFlight := Some(InFlight(key, task)))), Accepting(key, PassesEarlyChecks(cfg, r, e, kind)))
  }

  function SubmitStart(cfg: Config, c: Core, id: nat, e: Envelope, d: Declaration, now: int, task: nat): (Core, SubmitOutcome)
    requires id < |c.recs|
  {
    SubmitStartLive(cfg, Touch(c, id, now), id, e, d, task)
  }

  /** What the AEAD open returns: the record's key is read when the open starts, and may be gone by then. */
  function OpenEnvelope(r: Rec, key: EnvelopeKey): Option<Bytes> {
    if r.key.None? then None
    else Open(r.key.value, Info(r.handoffId, r.capHash, VersionOf(key.kind)), key.envelope.box)
  }

  /** A failed open is counted, and enough of them destroy the record. */
  function AeadFailed(cfg: Config, c: Core, id: nat): Core
    requires id < |c.recs|
  {
    var r := c.recs[id].(aeadFailures := c.recs[id].aeadFailures + 1);
    if r.aeadFailures >= cfg.maxAeadFailures then Destroy(Put(c, id, r), id) else Put(c, id, r)
  }

  /** A rejected container is counted separately, against the same limit. */
  function ContainerFailed(cfg: Config, c: Core, id: nat): Core
    requires id < |c.recs|
  {
    var r := c.recs[id].(containerFailures := c.recs[id].containerFailures + 1);
    if r.containerFailures >= cfg.maxAeadFailures then Destroy(Put(c, id, r), id) else Put(c, id, r)
  }

  /** The single-use gate: the one place a payload enters a record and its kind becomes fixed. */
  function SubmitGate(cfg: Config, c: Core, id: nat, key: EnvelopeKey, plaintext: Bytes): (Core, Answer)
    requires id < |c.recs|
  {
    var r := c.recs[id];
    if r.state != Pending then (c, Unavailable)
    else if key.kind == Files && r.reservedBytes == 0 && !Fits(cfg, c, Ceiling(cfg)) then (c, Unavailable)
    else
      var late := key.kind == Files && r.reservedBytes == 0;
      var won := r.(payloadKind := key.kind, plaintext := Some(plaintext), envelopeKey := Some(key), state := Submitted, key := None);
      var c' := if late then c.(reserved := c.reserved + Ceiling(cfg)) else c;
      (Put(c', id,
           if key.kind == Files
           then won.(submitLease := None, reservedBytes := if late then Ceiling(cfg) else r.reservedBytes)
           else won),
       Receipt(key))
  }

  function SubmitSettle(c: Core, id: nat, task: nat): Core
    requires id < |c.recs|
  {
    var r := c.recs[id];
    if r.inFlight.Some? && r.inFlight.value.task == task then Put(c, id, r.(inFlight := None)) else c
  }

  // ------------------------------------------------------------- the text claim

  /** `claim`: hands a text payload over once; `capacity` is the caller's own ceiling, if it has one. */
  function ClaimLive(c: Core, id: nat, capacity: Option<nat>): (Core, Answer)
    requires id < |c.recs|
  {
    var r := c.recs[id];
    if r.state != Submitted || r.plaintext.None? || r.payloadKind == Files then (c, Unavailable)
    else if capacity.Some? && |r.plaintext.value| > capacity.value then (c, ResponseTooLarge(|r.plaintext.value|))
    else (Retire(Put(c, id, r.(plaintext := None)), id), Delivered(r.plaintext.value))
  }

  function Claim(c: Core, id: nat, capacity: Option<nat>, now: int): (Core, Answer)
    requires id < |c.recs|
  {
    ClaimLive(Touch(c, id, now), id, capacity)
  }

  // ------------------------------------------------------------- the file claim

  function Frames(p: Parsed): seq<Bytes> {
    (if p.text.Some? then [p.text.value] else []) + p.files
  }

  function Sizes(frames: seq<Bytes>): seq<nat> {
    seq(|frames|, i requires 0 <= i < |frames| => |frames[i]|)
  }

  function Digests(cfg: Config, frames: seq<Bytes>): seq<Digest> {
    seq(|frames|, i requires 0 <= i < |frames| => cfg.digest(frames[i]))
  }

  /** The busy lease is answered before the state, so that a second receiver is not told the drop is over. */
  function BeginGate(r: Rec): Option<Answer> {
    if r.transfer.Some? || r.state == Transferring then Some(TransferFailed(TransferInProgress))
    else if r.state != Submitted then Some(Unavailable)
    else None
  }

  /** `beginFileClaim` up to its await. `asked` is the caller's own, narrow-only lease. */
  function BeginStartLive(cfg: Config, c: Core, id: nat, asked: Option<nat>, now: int): (Core, BeginOutcome)
    requires id < |c.recs|
  {
    var r := c.recs[id];
    if r.state == Destroyed || r.plaintext.None? || r.payloadKind != Files then (c, BeginRefused(Unavailable))
    else if BeginGate(r).Some? then (c, BeginRefused(BeginGate(r).value))
    else if r.transferAttempts >= cfg.maxTransferAttempts then (c, BeginRefused(TransferFailed(AttemptBudgetSpent)))
    else
      var remaining := r.expiresAt - now;
      if remaining < MIN_TRANSFER_LEASE_MS then (c, BeginRefused(TransferFailed(HandoffExpiring)))
      else
        var narrowed := if asked.Some? && asked.value > 0 then Min(cfg.fileClaimLeaseMs, asked.value) else cfg.fileClaimLeaseMs;
        (c, ManifestPass(r.plaintext.value, Min(narrowed, remaining)))
  }

  function BeginStart(cfg: Config, c: Core, id: nat, asked: Option<nat>, now: int): (Core, BeginOutcome)
    requires id < |c.recs|
  {
    BeginStartLive(cfg, Touch(c, id, now), id, asked, now)
  }

  function NewLease(cfg: Config, p: Parsed, owner: nat, transferId: nat, expiresAt: int): Lease {
    var frames := Frames(p);
    Lease(transferId, owner, Sizes(frames), Digests(cfg, frames), Sum(Sizes(frames)), p.text.Some?, 0, 0, expiresAt)
  }

  /** `beginFileClaim` after the manifest pass: the same gate again, then the lease. */
  function BeginFinish(cfg: Config, c: Core, id: nat, plaintext: Bytes, leaseMs: int, owner: nat, transferId: nat, now: int): (Core, Answer)
    requires id < |c.recs|
  {
    var r := c.recs[id];
    var parsed := cfg.decode(plaintext);
    if parsed.None? || r.plaintext.None? then (c, Unavailable)
    else if BeginGate(r).Some? then (c, BeginGate(r).value)
    else
      var lease := NewLease(cfg, parsed.value, owner, transferId, Min(now + leaseMs, r.expiresAt));
      (Put(c, id, r.(transfer := Some(lease), state := Transferring, transferAttempts := r.transferAttempts + 1)),
       Began(lease, Frames(parsed.value)))
  }

  /** `ackFileClaimFrame`: strictly in order, size and digest together. */
  function AckLive(c: Core, id: nat, transferId: nat, owner: nat, index: nat, size: nat, digest: Digest): (Core, Answer)
    requires id < |c.recs|
  {
    var r := c.recs[id];
    if r.state == Destroyed || r.plaintext.None? then (c, Unavailable)
    else if r.state != Transferring || r.transfer.None? then
      (c, if r.state == Submitted then TransferFailed(LeaseExpired) else Unavailable)
    else
      var lease := r.transfer.value;
      if lease.transferId != transferId then (c, TransferFailed(TransferIdMismatch))
      else if lease.owner != owner then (c, TransferFailed(LeaseNotYours))
      else if lease.nextFrame >= |lease.sizes| then (c, InvalidRequest)
      else if index != lease.nextFrame then (ClearLease(c, id), TransferFailed(FrameOutOfOrder))
      else if |lease.digests| <= index || size != lease.sizes[index] || digest != lease.digests[index] then
        (ClearLease(c, id), TransferFailed(FrameMismatch))
      else
        var lease' := lease.(ackedBytes := lease.ackedBytes + size, nextFrame := lease.nextFrame + 1);
        (Put(c, id, r.(transfer := Some(lease'))),
         FrameAcked(if lease'.nextFrame >= |lease.sizes| then None else Some(lease'.nextFrame)))
  }

  function Ack(c: Core, id: nat, transferId: nat, owner: nat, index: nat, size: nat, digest: Digest, now: int): (Core, Answer)
    requires id < |c.recs|
  {
    AckLive(Touch(c, id, now), id, transferId, owner, index, size, digest)
  }

  /** The four conditions of a commit on the lease itself, in order. */
  function CommitRefusal(lease: Lease, received: nat, digests: seq<Digest>): Option<Reason> {
    if lease.nextFrame != |lease.sizes| then Some(FramesNotAcked)
    else if lease.ackedBytes != lease.totalBytes then Some(IncompleteTransfer)
    else if received != lease.totalBytes then Some(SizeMismatch)
    else if digests != lease.digests then Some(DigestMismatch)
    else None
  }

  /** `commitFileClaim`: every condition, then the only retirement of a `files` payload. */
  function CommitLive(c: Core, id: nat, transferId: nat, owner: nat, received: nat, digests: seq<Digest>): (Core, Answer)
    requires id < |c.recs|
  {
    var r := c.recs[id];
    if r.state == Destroyed || r.plaintext.None? then (c, Unavailable)
    else if r.state == Submitted && r.transfer.None? then (c, TransferFailed(LeaseExpired))
    else if r.state != Transferring || r.transfer.None? then (c, Unavailable)
    else
      var lease := r.transfer.value;
      if lease.transferId != transferId then (c, TransferFailed(TransferIdMismatch))
      else if lease.owner != owner then (c, TransferFailed(LeaseNotYours))
      else if CommitRefusal(lease, received, digests).Some? then
        (ClearLease(c, id), TransferFailed(CommitRefusal(lease, received, digests).value))
      else
        (Retire(ClearLease(c, id), id),
         Committed(if lease.hasPrivateText then |lease.digests| - 1 else |lease.digests|, lease.totalBytes))
  }

  function Commit(c: Core, id: nat, transferId: nat, owner: nat, received: nat, digests: seq<Digest>, now: int): (Core, Answer)
    requires id < |c.recs|
  {
    CommitLive(Touch(c, id, now), id, transferId, owner, received, digests)
  }

  /** `abandonFileClaim` and the lease timer: only the lease that is named can be ended. */
  function EndLease(c: Core, id: nat, transferId: nat): Core
    requires id < |c.recs|
  {
    var r := c.recs[id];
    if r.transfer.Some? && r.transfer.value.transferId == transferId then ClearLease(c, id) else c
  }
}
