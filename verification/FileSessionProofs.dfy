/** What a file-claim connection and the broker agree on, whatever lines arrive and however they interleave. */
module FileSessionProofs {
  import opened Basics
  import opened HpkeInfo
  import opened BrokerCore
  import opened BrokerSystem
  import opened BrokerInvariants
  import opened BrokerRuns
  import opened BrokerTheorems
  import opened FileSession

  // --------------------------------------------------- what the broker's steps do to one owner

  predicate OwnBegin(b: Begin, me: nat) {
    b.running && b.owner == me
  }

  predicate LeasesMine(s: Sys, s': Sys, me: nat) {
    && |s.core.recs| <= |s'.core.recs|
    && forall i :: 0 <= i < |s'.core.recs| && Owned(s'.core.recs[i], me) ==>
         i < |s.core.recs| && s'.core.recs[i].transfer == s.core.recs[i].transfer
  }

  predicate BeginsMine(begins: seq<Begin>, begins': seq<Begin>, me: nat) {
    && |begins| <= |begins'|
    && (forall b :: 0 <= b < |begins'| && OwnBegin(begins'[b], me) ==> b < |begins| && begins'[b] == begins[b])
    && (forall b :: 0 <= b < |begins| && OwnBegin(begins[b], me) ==> begins'[b] == begins[b])
  }

  /** Nobody else grants, moves or completes anything in this connection's name. */
  lemma ForeignKeepsMine(cfg: Config, s: Sys, e: Event, me: nat)
    requires SysInv(cfg, s) && Foreign(s, e, me)
    ensures var s' := Step(cfg, s, e).0; LeasesMine(s, s', me) && BeginsMine(s.begins, s'.begins, me)
  {
    ForeignBegins(cfg, s, e, me);
    if e.AckFrame? {
      ForeignAck(cfg, s, e, me);
    } else if e.BeginStep? {
      ForeignBegun(cfg, s, e, me);
    } else {
      OtherStepsKeepLeases(cfg, s, e);
    }
  }

  lemma ForeignBegins(cfg: Config, s: Sys, e: Event, me: nat)
    requires Foreign(s, e, me)
    ensures BeginsMine(s.begins, Step(cfg, s, e).0.begins, me)
  {
    hide Touch, Sweep, DestroyFirst, Claim, AckLive, CommitLive, Advance, AcquireSlotLive, SubmitStartLive, BeginStartLive, BeginFinish, ReleaseSlot;
  }

  lemma ForeignAck(cfg: Config, s: Sys, e: Event, me: nat)
    requires e.AckFrame? && e.owner != me
    ensures LeasesMine(s, Step(cfg, s, e).0, me)
  {
    if e.id < |s.core.recs| {
      DestroyEndsLease(s.core, e.id, e.now);
    }
    hide Touch, Destroy;
  }

  lemma ForeignBegun(cfg: Config, s: Sys, e: Event, me: nat)
    requires e.BeginStep? && Foreign(s, e, me)
    ensures LeasesMine(s, Step(cfg, s, e).0, me)
  {
  }

  /** One record may have moved; nothing else did. */
  predicate OnlyAt(s: Sys, s': Sys, id: nat) {
    && id < |s.core.recs| == |s'.core.recs| && s'.begins == s.begins
    && forall i :: 0 <= i < |s.core.recs| && i != id ==> s'.core.recs[i] == s.core.recs[i]
  }

  /** The drop has no file payload to hand over. */
  predicate Over(s: Sys, id: nat) {
    id < |s.core.recs| && (s.core.recs[id].payloadKind != Files || !HoldsPayload(s.core.recs[id]))
  }

  lemma TouchFrame(cfg: Config, s: Sys, id: nat, now: int)
    requires SysInv(cfg, s) && id < |s.core.recs|
    ensures var s1 := Touched(s, id, now);
      && SysInv(cfg, s1) && OnlyAt(s, s1, id) && (s1 == s || s1.core.recs[id].state == Destroyed)
      && (s1.core.recs[id].state == Destroyed ==> s1.core.recs[id].transfer.None?)
      && RecInv(cfg, s1.core.recs[id])
  {
    TouchFirst(cfg, s, id, now);
    TouchKeeps(cfg, s.core, id, now);
    assert RecInv(cfg, Touched(s, id, now).core.recs[id]);
  }

  lemma OwnBeginCall(cfg: Config, s: Sys, id: nat, me: nat, asked: Option<nat>, now: int)
    requires SysInv(cfg, s) && id < |s.core.recs|
    ensures var (s', said) := Step(cfg, s, BeginClaim(id, me, asked, now));
      && LeasesMine(s, s', me)
      && (said.Said? ==> s'.begins == s.begins && !said.answer.Began? && !said.answer.Committed? && (said.answer == Unavailable ==> Over(s', id)))
      && (said.Quiet? ==>
            && |s'.begins| == |s.begins| + 1 && s'.begins[..|s.begins|] == s.begins
            && OwnBegin(s'.begins[|s.begins|], me) && s'.begins[|s.begins|].id == id)
  {
    hide Touch, BeginStartLive, SysInv, CoreInv, Destroy, LeaseInv, PayloadInv, ReservationInv, SealedFor;
    DestroyEndsLease(s.core, id, now);
    TouchFrame(cfg, s, id, now);
    BeginStartKeeps(cfg, Touch(s.core, id, now), id, asked, now);
  }

  lemma OwnFinishCall(cfg: Config, s: Sys, b: nat, now: int)
    requires SysInv(cfg, s) && b < |s.begins| && s.begins[b].running
    ensures var (s', said) := Step(cfg, s, BeginStep(b, now));
      var id := s.begins[b].id;
      && said.Said? && said.id == id < |s.core.recs| == |s'.core.recs|
      && s'.begins == s.begins[b := s.begins[b].(running := false)]
      && (said.answer.Began? ==>
            && s.core.recs[id].transfer.None?
            && s'.core.recs == s.core.recs[id := s'.core.recs[id]]
            && s'.core.recs[id].transfer == Some(said.answer.lease)
            && said.answer.lease.owner == s.begins[b].owner && LeaseStreams(cfg, said.answer.lease, said.answer.frames) && said.answer.lease.nextFrame == 0
            && GrantOf(cfg, s.core.recs[id], said.answer.lease, said.answer.frames))
      && (!said.answer.Began? ==> s'.core == s.core && !said.answer.Committed?)
      && (said.answer == Unavailable ==> Over(s', id))
  {
    var begun := s.begins[b];
    assert BeginInv(s.core.recs[begun.id], begun);
    assert RecInv(cfg, s.core.recs[begun.id]);
    BeginFinishKeeps(cfg, s.core, begun.id, begun.plaintext, begun.leaseMs, begun.owner, s.transfers, now);
  }

  /** The lease names the lengths and digests of exactly these frames. */
  predicate LeaseStreams(cfg: Config, lease: Lease, frames: seq<Bytes>) {
    lease.sizes == Sizes(frames) && lease.digests == Digests(cfg, frames)
  }

  /** What is streamed is the container the record holds. */
  predicate GrantOf(cfg: Config, r: Rec, lease: Lease, frames: seq<Bytes>) {
    && r.plaintext.Some? && cfg.decode(r.plaintext.value).Some?
    && frames == Frames(cfg.decode(r.plaintext.value).value) && lease.hasPrivateText == cfg.decode(r.plaintext.value).value.text.Some?
  }

  /** What an ack by the lease's owner does to a live record: the next frame, or a refusal. */
  predicate AckOutcome(before: Lease, after: Option<Lease>, index: nat, size: nat, a: Answer) {
    && before.nextFrame <= |before.sizes|
    && (a.FrameAcked? ==>
          && index == before.nextFrame < |before.sizes| && size == before.sizes[index]
          && after == Some(before.(nextFrame := index + 1, ackedBytes := before.ackedBytes + size))
          && a.next == if index + 1 == |before.sizes| then None else Some(index + 1))
    && (!a.FrameAcked? ==>
          && (after == Some(before) || after.None?)
          && (a == InvalidRequest || (a.TransferFailed? && a.reason != LeaseNotYours && a.reason != LeaseExpired))
          && (a == InvalidRequest ==> before.nextFrame == |before.sizes|))
  }

  lemma AckEffect(cfg: Config, c: Core, h: Held, me: nat, transferId: nat, index: nat, size: nat, digest: Digest)
    requires CoreInv(cfg, c) && h.id < |c.recs| && Owned(c.recs[h.id], me)
    ensures var (c', a) := AckLive(c, h.id, transferId, me, index, size, digest);
      && |c'.recs| == |c.recs| && c'.recs == c.recs[h.id := c'.recs[h.id]] && c'.recs[h.id].state != Destroyed
      && AckOutcome(c.recs[h.id].transfer.value, c'.recs[h.id].transfer, index, size, a)
  {
    AckKeeps(cfg, c, h.id, transferId, me, index, size, digest);
    assert RecInv(cfg, c.recs[h.id]);
  }

  /** An ack presented on the lease a connection holds, unless the record is gone by then. */
  lemma OwnAckCall(cfg: Config, s: Sys, h: Held, me: nat, transferId: nat, index: nat, size: nat, digest: Digest, now: int)
    requires SysInv(cfg, s) && StillHeld(s, h, me)
    ensures var (s', said) := Step(cfg, s, AckFrame(h.id, transferId, me, index, size, digest, now));
      && said.Said? && said.id == h.id && OnlyAt(s, s', h.id)
      && (RecordGone(s', h.id) ==> s'.core.recs[h.id].transfer.None?)
      && (!RecordGone(s', h.id) ==> AckOutcome(s.core.recs[h.id].transfer.value, s'.core.recs[h.id].transfer, index, size, said.answer))
  {
    hide Touch, RecInv, SysInv, CoreInv, AckOutcome;
    TouchFrame(cfg, s, h.id, now);
    CoreOf(cfg, s);
    AckEffect(cfg, s.core, h, me, transferId, index, size, digest);
  }

  predicate CommitOutcome(before: Lease, after: Option<Lease>, received: nat, digests: seq<Digest>, a: Answer) {
    && (a.Committed? ==> after.None? && digests == before.digests && received == before.totalBytes && before.nextFrame == |before.sizes|)
    && (!a.Committed? ==>
          && (after == Some(before) || after.None?) && a.TransferFailed?
          && a.reason in {TransferIdMismatch, FramesNotAcked, SizeMismatch, DigestMismatch}
          && (a.reason == FramesNotAcked ==> before.nextFrame != |before.sizes|))
  }

  lemma CommitEffect(cfg: Config, c: Core, h: Held, me: nat, transferId: nat, received: nat, digests: seq<Digest>)
    requires CoreInv(cfg, c) && h.id < |c.recs| && Owned(c.recs[h.id], me)
    ensures var (c', a) := CommitLive(c, h.id, transferId, me, received, digests);
      && |c'.recs| == |c.recs| && c'.recs == c.recs[h.id := c'.recs[h.id]] && c'.recs[h.id].state != Destroyed
      && CommitOutcome(c.recs[h.id].transfer.value, c'.recs[h.id].transfer, received, digests, a)
      && (a.Committed? ==> c'.recs[h.id].state == Claimed)
  {
    CommitKeeps(cfg, c, h.id, transferId, me, received, digests);
    assert RecInv(cfg, c.recs[h.id]);
  }

  /** A commit presented on the lease a connection holds, unless the record is gone by then. */
  lemma OwnCommitCall(cfg: Config, s: Sys, h: Held, me: nat, transferId: nat, received: nat, digests: seq<Digest>, now: int)
    requires SysInv(cfg, s) && StillHeld(s, h, me)
    ensures var (s', said) := Step(cfg, s, CommitClaim(h.id, transferId, me, received, digests, now));
      && said.Said? && said.id == h.id && OnlyAt(s, s', h.id)
      && (RecordGone(s', h.id) ==> s'.core.recs[h.id].transfer.None? && !said.answer.Committed?)
      && (!RecordGone(s', h.id) ==>
            CommitOutcome(s.core.recs[h.id].transfer.value, s'.core.recs[h.id].transfer, received, digests, said.answer))
      && (said.answer.Committed? ==> s'.core.recs[h.id].state == Claimed)
  {
    hide Touch, RecInv, SysInv, CoreInv, CommitOutcome;
    TouchFrame(cfg, s, h.id, now);
    CoreOf(cfg, s);
    CommitEffect(cfg, s.core, h, me, transferId, received, digests);
  }

  lemma OwnAbandonCall(cfg: Config, s: Sys, h: Held, me: nat)
    requires SysInv(cfg, s) && h.id < |s.core.recs| && (StillHeld(s, h, me) || s.core.recs[h.id].transfer.None?)
    ensures var s' := Step(cfg, s, Abandon(h.id, h.transferId)).0;
      OnlyAt(s, s', h.id) && s'.core.recs[h.id].transfer.None?
  {
  }
}
