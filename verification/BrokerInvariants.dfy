/**
 * What every atomic stretch of the broker keeps, record by record: the shape of
 * a record in each state, the reservation it must hold, and the counter.
 */
module BrokerInvariants {
  import opened Basics
  import opened HpkeInfo
  import opened BrokerCore

  predicate HoldsPayload(r: Rec) {
    r.state == Submitted || r.state == Transferring
  }

  /** The envelope that won was sealed for this handoff, this capability and this lane's version. */
  predicate SealedFor(handoffId: Bytes, capHash: Bytes, key: EnvelopeKey) {
    key.envelope.box.Box? && key.envelope.box.info == Info(handoffId, capHash, VersionOf(key.kind))
  }

  /** A lease describes the container it streams, and its progress is a prefix of that container's frames. */
  predicate LeaseInv(cfg: Config, lease: Lease, plaintext: Bytes, expiresAt: int) {
    && cfg.decode(plaintext).Some?
    && var p := cfg.decode(plaintext).value;
    && lease.sizes == Sizes(Frames(p))
    && lease.digests == Digests(cfg, Frames(p))
    && lease.totalBytes == Sum(lease.sizes)
    && lease.hasPrivateText == p.text.Some?
    && lease.nextFrame <= |lease.sizes|
    && lease.ackedBytes == Sum(lease.sizes[..lease.nextFrame])
    && lease.expiresAt <= expiresAt
  }

  /** Who the reservation belongs to: a `files` record, an upload still in flight, or nobody. */
  predicate ReservationInv(cfg: Config, r: Rec) {
    && (r.reservedBytes == 0 || r.reservedBytes == Ceiling(cfg))
    && (r.state == Claimed || r.state == Destroyed ==> r.reservedBytes == 0)
    && (r.state == Destroyed ==> r.submitLease.None?)
    && (r.mintedKind != Universal ==> r.submitLease.None?)
    && (r.mintedKind == Text ==> r.reservedBytes == 0)
    && (r.state == Pending && r.mintedKind == Files ==> r.reservedBytes == Ceiling(cfg))
    && (r.state == Pending && r.mintedKind == Universal ==> (r.reservedBytes > 0 <==> r.submitLease.Some?))
    && (HoldsPayload(r) && r.payloadKind == Files ==> r.reservedBytes == Ceiling(cfg) && r.submitLease.None?)
    && (HoldsPayload(r) && r.payloadKind == Text && r.reservedBytes > 0 ==> r.submitLease.Some?)
  }

  predicate PayloadInv(cfg: Config, kind: Kind, key: Option<EnvelopeKey>, plaintext: Bytes) {
    && kind != Universal
    && 0 < |plaintext| <= MaxPayload(cfg, kind)
    && (kind == Files ==> cfg.decode(plaintext).Some?)
    && key.Some? && key.value.envelope.box.Box?
    && key.value.envelope.box.plaintext == plaintext
  }

  predicate RecInv(cfg: Config, r: Rec) {
    && |r.handoffId| == ID_BYTES && |r.capHash| == HASH_BYTES
    && (r.plaintext.Some? <==> HoldsPayload(r))
    && (r.transfer.Some? <==> r.state == Transferring)
    && (r.key.Some? <==> r.state == Pending)
    && (r.state == Pending ==> r.payloadKind == r.mintedKind && r.envelopeKey.None?)
    && (HoldsPayload(r) || r.state == Claimed ==> r.envelopeKey.Some?)
    && (r.envelopeKey.Some? ==> r.envelopeKey.value.kind == r.payloadKind && SealedFor(r.handoffId, r.capHash, r.envelopeKey.value))
    && (r.mintedKind != Universal ==> r.payloadKind == r.mintedKind)
    && (r.plaintext.Some? ==> PayloadInv(cfg, r.payloadKind, r.envelopeKey, r.plaintext.value))
    && (r.transfer.Some? ==> r.payloadKind == Files && r.plaintext.Some? && LeaseInv(cfg, r.transfer.value, r.plaintext.value, r.expiresAt))
    && ReservationInv(cfg, r)
  }

  predicate CoreInv(cfg: Config, c: Core) {
    forall i :: 0 <= i < |c.recs| ==> RecInv(cfg, c.recs[i])
  }

  /** What no step ever undoes: identity, the winning envelope and kind, and the way a payload leaves. */
  predicate Evolves(r: Rec, r': Rec) {
    && r'.handoffId == r.handoffId && r'.capHash == r.capHash && r'.mintedKind == r.mintedKind && r'.expiresAt == r.expiresAt
    && (r.state != Pending ==> r'.state != Pending && r'.envelopeKey == r.envelopeKey && r'.payloadKind == r.payloadKind)
    && (r.state == Claimed ==> r'.state == Claimed || r'.state == Destroyed)
    && (r.state == Destroyed ==> r'.state == Destroyed)
    && (r.state != Pending && r'.plaintext.Some? ==> r'.plaintext == r.plaintext)
  }

  /** Suspended calls find their bookkeeping as they left it, except that a lease may be taken back and a pending record may die. */
  predicate LeavesCallers(r: Rec, r': Rec) {
    && r'.inFlight == r.inFlight && r'.bodySlotBusy == r.bodySlotBusy
    && (r'.submitLease == r.submitLease || r'.submitLease.None?)
    && (r.state == Pending ==> r'.state == Pending || r'.state == Destroyed)
  }

  /** One record moved, lawfully; the counter still stands for the same sum and stays within the limit. */
  ghost predicate Keeps(cfg: Config, c: Core, c': Core, id: nat) {
    && id < |c.recs| == |c'.recs|
    && c'.recs == c.recs[id := c'.recs[id]]
    && (CoreInv(cfg, c) ==> RecInv(cfg, c'.recs[id]))
    && Evolves(c.recs[id], c'.recs[id])
    && Slack(c') == Slack(c)
    && (c'.reserved <= c.reserved || c'.reserved <= cfg.maxLiveFileBytes)
  }

  ghost predicate KeepsQuietly(cfg: Config, c: Core, c': Core, id: nat) {
    Keeps(cfg, c, c', id) && LeavesCallers(c.recs[id], c'.recs[id])
  }

  lemma KeepsThen(cfg: Config, c: Core, c1: Core, c2: Core, id: nat)
    requires Keeps(cfg, c, c1, id) && Keeps(cfg, c1, c2, id)
    ensures Keeps(cfg, c, c2, id)
    ensures LeavesCallers(c.recs[id], c1.recs[id]) && LeavesCallers(c1.recs[id], c2.recs[id]) ==> LeavesCallers(c.recs[id], c2.recs[id])
  {
  }

  lemma KeepsRefl(cfg: Config, c: Core, id: nat)
    requires id < |c.recs|
    ensures KeepsQuietly(cfg, c, c, id)
  {
    assert c.recs[id := c.recs[id]] == c.recs;
  }

  lemma PutKeeps(cfg: Config, c: Core, id: nat, r: Rec)
    requires id < |c.recs| && r.reservedBytes == c.recs[id].reservedBytes
    requires Evolves(c.recs[id], r) && (CoreInv(cfg, c) ==> RecInv(cfg, r))
    ensures Keeps(cfg, c, Put(c, id, r), id)
  {
    PutReserved(c.recs, id, r);
  }

  lemma ReleaseReservationSlack(c: Core, id: nat)
    requires id < |c.recs|
    ensures Slack(ReleaseReservation(c, id)) == Slack(c)
  {
    PutReserved(c.recs, id, c.recs[id].(reservedBytes := 0));
  }

  lemma ClearLeaseKeeps(cfg: Config, c: Core, id: nat)
    requires id < |c.recs|
    ensures KeepsQuietly(cfg, c, ClearLease(c, id), id)
  {
    PutKeeps(cfg, c, id, ClearedLease(c.recs[id]));
  }

  lemma DestroyKeeps(cfg: Config, c: Core, id: nat)
    requires id < |c.recs|
    ensures KeepsQuietly(cfg, c, Destroy(c, id), id)
    ensures Destroy(c, id).recs[id].state == Destroyed
  {
    var dead := ClearedLease(c.recs[id]).(plaintext := None, key := None, state := Destroyed);
    PutReserved(c.recs, id, dead);
    ReleaseReservationSlack(Put(c, id, dead), id);
    var c1 := ReleaseReservation(Put(c, id, dead), id);
    PutReserved(c1.recs, id, c1.recs[id].(submitLease := None));
  }

  /** What is left of a destroyed record: its names and its counters. */
  function DeadRec(r: Rec): Rec {
    r.(transfer := None, plaintext := None, key := None, state := Destroyed, reservedBytes := 0, submitLease := None)
  }

  function SweptRec(r: Rec, now: int): Rec {
    if r.state != Destroyed && now >= r.expiresAt then DeadRec(r) else r
  }

  /** A sweep is the same whatever order it visits the records in: each is judged alone, and the counter follows. */
  lemma {:induction false} SweepIsPointwise(c: Core, now: int, n: nat)
    requires n <= |c.recs|
    ensures Slack(Sweep(c, now, n)) == Slack(c)
    ensures forall i :: 0 <= i < n ==> Sweep(c, now, n).recs[i] == SweptRec(c.recs[i], now)
  {
    if n > 0 {
      SweepIsPointwise(c, now, n - 1);
      var c1 := Sweep(c, now, n - 1);
      assert c1.recs[n - 1] == c1.recs[n - 1..][0] == c.recs[n - 1..][0];
      DestroyIsDead(c1, n - 1);
      hide Destroy;
    }
  }

  lemma DestroyIsDead(c: Core, id: nat)
    requires id < |c.recs|
    ensures Destroy(c, id).recs == c.recs[id := DeadRec(c.recs[id])] && Slack(Destroy(c, id)) == Slack(c)
  {
    DestroyKeeps(Config(0, 0, 0, 0, 0, 0, _ => None, _ => []), c, id);
  }

  lemma RetireKeeps(cfg: Config, c: Core, id: nat)
    requires id < |c.recs| && HoldsPayload(c.recs[id])
    ensures KeepsQuietly(cfg, c, Retire(c, id), id)
    ensures Retire(c, id).recs[id].state == Claimed
  {
    var spent := ClearedLease(c.recs[id]).(plaintext := None, key := None, state := Claimed);
    PutReserved(c.recs, id, spent);
    ReleaseReservationSlack(Put(c, id, spent), id);
  }

  lemma TouchKeeps(cfg: Config, c: Core, id: nat, now: int)
    requires id < |c.recs|
    ensures KeepsQuietly(cfg, c, Touch(c, id, now), id)
    ensures Touch(c, id, now) == c || Touch(c, id, now).recs[id].state == Destroyed
  {
    DestroyKeeps(cfg, c, id);
    KeepsRefl(cfg, c, id);
  }

  predicate Admitted(cfg: Config, c: Core, c': Core, g: Grant, id: nat, token: nat) {
    && id < |c.recs| == |c'.recs|
    && c'.recs[id].inFlight == c.recs[id].inFlight && c'.recs[id].state == c.recs[id].state
    && (g.held ==> !c.recs[id].bodySlotBusy && c'.recs[id].bodySlotBusy)
    && (!g.held ==> c' == c)
    && (g.lease.Some? ==> g.held && g.lease.value == token && c'.recs[id].submitLease == g.lease)
    && (g.lease.None? ==> c'.recs[id].submitLease == c.recs[id].submitLease)
  }

  /** A body is admitted on a drop that can still take files, or on one that already did. */
  lemma AdmitKeeps(cfg: Config, c: Core, id: nat, token: nat)
    requires id < |c.recs| && CoreInv(cfg, c)
    requires (c.recs[id].state == Pending && c.recs[id].mintedKind != Text) || (c.recs[id].state == Submitted && c.recs[id].payloadKind == Files)
    ensures var (c', g) := AdmitBody(cfg, c, id, token); Keeps(cfg, c, c', id) && Admitted(cfg, c, c', g, id, token)
  {
    hide LeaseInv, PayloadInv, SealedFor, Sum;
    assert RecInv(cfg, c.recs[id]);
    var (c', g) := AdmitBody(cfg, c, id, token);
    KeepsRefl(cfg, c, id);
    if g.held {
      PutReserved(c.recs, id, c'.recs[id]);
      assert c'.recs == c.recs[id := c'.recs[id]];
    }
  }

  lemma AcquireKeeps(cfg: Config, c: Core, id: nat, d: Declaration, token: nat)
    requires id < |c.recs| && CoreInv(cfg, c)
    ensures var (c', g) := AcquireSlotLive(cfg, c, id, d, token); Keeps(cfg, c, c', id) && Admitted(cfg, c, c', g, id, token)
  {
    hide LeaseInv, PayloadInv, SealedFor, AdmitBody, Keeps, Evolves, ReservationInv;
    assert RecInv(cfg, c.recs[id]);
    KeepsRefl(cfg, c, id);
    if (c.recs[id].state == Pending && c.recs[id].mintedKind != Text) || (c.recs[id].state == Submitted && c.recs[id].payloadKind == Files) {
      AdmitKeeps(cfg, c, id, token);
    }
  }

  lemma ReleaseSlotKeeps(cfg: Config, c: Core, id: nat, lease: Option<nat>)
    requires id < |c.recs| && CoreInv(cfg, c)
    ensures var c' := ReleaseSlot(c, id, lease);
      && Keeps(cfg, c, c', id)
      && c'.recs[id].inFlight == c.recs[id].inFlight && !c'.recs[id].bodySlotBusy
      && (c'.recs[id].submitLease == c.recs[id].submitLease || c'.recs[id].submitLease.None?)
      && (lease.Some? ==> c'.recs[id].submitLease != lease)
  {
    var c' := ReleaseSlot(c, id, lease);
    PutReserved(c.recs, id, c'.recs[id]);
    assert c'.recs == c.recs[id := c'.recs[id]];
  }

  /** A submission's start answers a replay with its own envelope, or registers the one attempt. */
  lemma SubmitStartKeeps(cfg: Config, c: Core, id: nat, e: Envelope, d: Declaration, task: nat)
    requires id < |c.recs| && CoreInv(cfg, c)
    ensures var (c', o) := SubmitStartLive(cfg, c, id, e, d, task);
      && (!o.Accepting? ==> c' == c)
      && (o.Accepting? ==>
        && Keeps(cfg, c, c', id) && c' == Put(c, id, c.recs[id].(inFlight := Some(InFlight(o.key, task))))
        && c.recs[id].inFlight.None? && c.recs[id].state == Pending && LaneOpen(c.recs[id], o.key.kind)
        && (o.early ==> CiphertextBytes(o.key.envelope.box) > AEAD_TAG_BYTES))
      && (o.Answered? ==> o.answer == Unavailable || (o.answer.Receipt? && c.recs[id].state != Pending && c.recs[id].envelopeKey == Some(o.answer.key)))
  {
    hide LeaseInv, PayloadInv, SealedFor;
    var (c', o) := SubmitStartLive(cfg, c, id, e, d, task);
    if o.Accepting? {
      PutReserved(c.recs, id, c'.recs[id]);
    }
  }

  /** The lanes a pending record leaves open. */
  predicate LaneOpen(r: Rec, kind: Kind) {
    kind != Universal && (r.mintedKind == Universal || r.mintedKind == kind)
  }

  /** A counted failure changes a counter, and destroys the record once the limit is reached. */
  lemma CountedKeeps(cfg: Config, c: Core, id: nat, r: Rec, fatal: bool)
    requires id < |c.recs|
    requires r == c.recs[id].(aeadFailures := r.aeadFailures, containerFailures := r.containerFailures)
    ensures var c' := if fatal then Destroy(Put(c, id, r), id) else Put(c, id, r);
      && KeepsQuietly(cfg, c, c', id)
      && (c'.recs[id].state == c.recs[id].state || c'.recs[id].state == Destroyed)
  {
    PutKeeps(cfg, c, id, r);
    if fatal {
      DestroyKeeps(cfg, Put(c, id, r), id);
      KeepsThen(cfg, c, Put(c, id, r), Destroy(Put(c, id, r), id), id);
    }
  }

  lemma AeadFailedKeeps(cfg: Config, c: Core, id: nat)
    requires id < |c.recs|
    ensures var c' := AeadFailed(cfg, c, id);
      KeepsQuietly(cfg, c, c', id) && (c'.recs[id].state == c.recs[id].state || c'.recs[id].state == Destroyed)
  {
    var r := c.recs[id].(aeadFailures := c.recs[id].aeadFailures + 1);
    CountedKeeps(cfg, c, id, r, r.aeadFailures >= cfg.maxAeadFailures);
  }

  lemma ContainerFailedKeeps(cfg: Config, c: Core, id: nat)
    requires id < |c.recs|
    ensures var c' := ContainerFailed(cfg, c, id);
      KeepsQuietly(cfg, c, c', id) && (c'.recs[id].state == c.recs[id].state || c'.recs[id].state == Destroyed)
  {
    var r := c.recs[id].(containerFailures := c.recs[id].containerFailures + 1);
    CountedKeeps(cfg, c, id, r, r.containerFailures >= cfg.maxAeadFailures);
  }

  /** What a submission has established by the time it reaches the gate. */
  predicate GateReady(cfg: Config, r: Rec, key: EnvelopeKey, plaintext: Bytes) {
    && LaneOpen(r, key.kind)
    && SealedFor(r.handoffId, r.capHash, key) && key.envelope.box.plaintext == plaintext
    && 0 < |plaintext| <= MaxPayload(cfg, key.kind)
    && (key.kind == Files ==> cfg.decode(plaintext).Some?)
  }

  lemma SubmitGateKeeps(cfg: Config, c: Core, id: nat, key: EnvelopeKey, plaintext: Bytes)
    requires id < |c.recs| && CoreInv(cfg, c)
    requires GateReady(cfg, c.recs[id], key, plaintext)
    ensures var (c', a) := SubmitGate(cfg, c, id, key, plaintext);
      && Keeps(cfg, c, c', id)
      && LeavesCallers(c.recs[id], c'.recs[id].(state := c.recs[id].state))
      && (a == Unavailable || (a == Receipt(key) && c'.recs[id].state == Submitted && c'.recs[id].envelopeKey == Some(key)))
      && (a == Unavailable ==> c' == c)
  {
    var (c', a) := SubmitGate(cfg, c, id, key, plaintext);
    PutReserved(c.recs, id, c'.recs[id]);
    assert c'.recs == c.recs[id := c'.recs[id]];
  }

  lemma SettleKeeps(cfg: Config, c: Core, id: nat, task: nat)
    requires id < |c.recs|
    ensures Keeps(cfg, c, SubmitSettle(c, id, task), id)
  {
    if SubmitSettle(c, id, task) != c {
      PutKeeps(cfg, c, id, c.recs[id].(inFlight := None));
    }
  }

  /** A text claim delivers exactly the stored payload, and only from `submitted`. */
  lemma ClaimKeeps(cfg: Config, c: Core, id: nat, capacity: Option<nat>)
    requires id < |c.recs| && CoreInv(cfg, c)
    ensures var (c', a) := ClaimLive(c, id, capacity);
      && KeepsQuietly(cfg, c, c', id)
      && (a.Delivered? ==>
        && c.recs[id].state == Submitted && c.recs[id].plaintext == Some(a.payload) && c'.recs[id].state == Claimed
        && (capacity.Some? ==> |a.payload| <= capacity.value))
      && (!a.Delivered? ==> c' == c)
      && (a.ResponseTooLarge? ==> capacity.Some? && a.payloadBytes > capacity.value && a.payloadBytes > 0)
      && (a == Unavailable || a.Delivered? || a.ResponseTooLarge?)
  {
    var r := c.recs[id];
    KeepsRefl(cfg, c, id);
    if HoldsPayload(r) && r.transfer.None? {
      var detached := Put(c, id, r.(plaintext := None));
      assert Retire(detached, id) == Retire(c, id) by {
        assert detached.recs[id := Retire(c, id).recs[id]] == c.recs[id := Retire(c, id).recs[id]];
      }
      RetireKeeps(cfg, c, id);
    }
  }

  lemma BeginStartKeeps(cfg: Config, c: Core, id: nat, asked: Option<nat>, now: int)
    requires id < |c.recs|
    ensures var (c', o) := BeginStartLive(cfg, c, id, asked, now);
      && c' == c
      && (o.ManifestPass? ==> c.recs[id].plaintext == Some(o.plaintext) && c.recs[id].payloadKind == Files && c.recs[id].state == Submitted)
      && (o.BeginRefused? ==> o.answer == Unavailable || (o.answer.TransferFailed? && o.answer.reason != IncompleteTransfer))
      && (o == BeginRefused(Unavailable) && RecInv(cfg, c.recs[id]) ==> c.recs[id].payloadKind != Files || !HoldsPayload(c.recs[id]))
  {
  }

  lemma BeginFinishKeeps(cfg: Config, c: Core, id: nat, plaintext: Bytes, leaseMs: int, owner: nat, transferId: nat, now: int)
    requires id < |c.recs| && CoreInv(cfg, c)
    requires c.recs[id].payloadKind == Files && (c.recs[id].plaintext.Some? ==> c.recs[id].plaintext.value == plaintext)
    ensures var (c', a) := BeginFinish(cfg, c, id, plaintext, leaseMs, owner, transferId, now);
      && KeepsQuietly(cfg, c, c', id)
      && (a.Began? ==>
        && c.recs[id].state == Submitted && c.recs[id].plaintext == Some(plaintext)
        && c'.recs[id] == c.recs[id].(state := Transferring, transfer := Some(a.lease), transferAttempts := c.recs[id].transferAttempts + 1)
        && a.lease.transferId == transferId && a.lease.owner == owner && a.lease.nextFrame == 0
        && cfg.decode(plaintext).Some? && a.frames == Frames(cfg.decode(plaintext).value))
      && (!a.Began? ==> c' == c && (a == Unavailable || a == TransferFailed(TransferInProgress)))
      && (a == Unavailable ==> !HoldsPayload(c.recs[id]))
  {
    hide SealedFor;
    KeepsRefl(cfg, c, id);
    var (c', a) := BeginFinish(cfg, c, id, plaintext, leaseMs, owner, transferId, now);
    if a.Began? {
      assert a.lease.sizes[..0] == [];
      PutReserved(c.recs, id, c'.recs[id]);
    }
  }

  /** Counting one more frame keeps the progress a prefix of the container's frames. */
  lemma ProgressKeeps(cfg: Config, c: Core, id: nat)
    requires id < |c.recs| && CoreInv(cfg, c) && c.recs[id].transfer.Some?
    requires c.recs[id].transfer.value.nextFrame < |c.recs[id].transfer.value.sizes|
    ensures var lease := c.recs[id].transfer.value;
      var lease' := lease.(nextFrame := lease.nextFrame + 1, ackedBytes := lease.ackedBytes + lease.sizes[lease.nextFrame]);
      KeepsQuietly(cfg, c, Put(c, id, c.recs[id].(transfer := Some(lease'))), id)
  {
    var r, lease := c.recs[id], c.recs[id].transfer.value;
    assert RecInv(cfg, r);
    SumTake(lease.sizes, lease.nextFrame);
    var lease' := lease.(nextFrame := lease.nextFrame + 1, ackedBytes := lease.ackedBytes + lease.sizes[lease.nextFrame]);
    assert LeaseInv(cfg, lease', r.plaintext.value, r.expiresAt);
    hide LeaseInv, PayloadInv, SealedFor;
    PutKeeps(cfg, c, id, r.(transfer := Some(lease')));
  }

  /** An accepted ack is the next frame, under its own length and digest, and moves the progress by that frame. */
  lemma AckKeeps(cfg: Config, c: Core, id: nat, transferId: nat, owner: nat, index: nat, size: nat, digest: Digest)
    requires id < |c.recs| && CoreInv(cfg, c)
    ensures var (c', a) := AckLive(c, id, transferId, owner, index, size, digest);
      && KeepsQuietly(cfg, c, c', id)
      && (a.FrameAcked? ==>
        && c.recs[id].state == Transferring
        && var before := c.recs[id].transfer.value;
        && before.transferId == transferId && before.owner == owner
        && index == before.nextFrame < |before.sizes| == |before.digests| && size == before.sizes[index] && digest == before.digests[index]
        && c'.recs[id] == c.recs[id].(transfer := Some(before.(nextFrame := index + 1, ackedBytes := before.ackedBytes + size)))
        && a.next == if index + 1 == |before.sizes| then None else Some(index + 1))
      && (a == Unavailable ==> c' == c && !HoldsPayload(c.recs[id]))
      && (!a.FrameAcked? ==> c' == c || c' == ClearLease(c, id))
      && (a.FrameAcked? || a == Unavailable || a == InvalidRequest || (a.TransferFailed? && a.reason != IncompleteTransfer))
  {
    hide PayloadInv, SealedFor;
    KeepsRefl(cfg, c, id);
    var (c', a) := AckLive(c, id, transferId, owner, index, size, digest);
    if a.FrameAcked? {
      ProgressKeeps(cfg, c, id);
    } else {
      ClearLeaseKeeps(cfg, c, id);
    }
  }

  /**
   * A commit is accepted only from the lease's owner, after every frame was
   * acked, under the container's own digests. The byte count can never disagree
   * with the frames that were acked, so `incomplete_transfer` is never answered.
   */
  lemma CommitKeeps(cfg: Config, c: Core, id: nat, transferId: nat, owner: nat, received: nat, digests: seq<Digest>)
    requires id < |c.recs| && CoreInv(cfg, c)
    ensures var (c', a) := CommitLive(c, id, transferId, owner, received, digests);
      && KeepsQuietly(cfg, c, c', id)
      && a != TransferFailed(IncompleteTransfer)
      && (a.Committed? ==>
        && c.recs[id].state == Transferring && c'.recs[id].state == Claimed && c'.recs[id].transfer.None?
        && var lease := c.recs[id].transfer.value;
        && lease.transferId == transferId && lease.owner == owner && lease.nextFrame == |lease.sizes|
        && received == lease.totalBytes && digests == lease.digests)
      && (a == Unavailable ==> c' == c && !HoldsPayload(c.recs[id]))
      && (!a.Committed? ==> c' == c || c' == ClearLease(c, id))
      && (a.Committed? || a == Unavailable || a.TransferFailed?)
  {
    hide PayloadInv, SealedFor, ReservationInv;
    KeepsRefl(cfg, c, id);
    ClearLeaseKeeps(cfg, c, id);
    var r := c.recs[id];
    if r.transfer.Some? {
      var lease := r.transfer.value;
      assert RecInv(cfg, r);
      assert lease.nextFrame == |lease.sizes| ==> lease.sizes[..lease.nextFrame] == lease.sizes;
      var cleared := ClearLease(c, id);
      RetireKeeps(cfg, cleared, id);
      KeepsThen(cfg, c, cleared, Retire(cleared, id), id);
    }
  }

  lemma EndLeaseKeeps(cfg: Config, c: Core, id: nat, transferId: nat)
    requires id < |c.recs|
    ensures KeepsQuietly(cfg, c, EndLease(c, id, transferId), id)
  {
    ClearLeaseKeeps(cfg, c, id);
  }
}
