/** The invariant of a file-claim connection over every run: the lease, the turn and the byte stream agree with the broker. */
module FileSessionRuns {
  import opened Basics
  import opened HpkeInfo
  import opened BrokerCore
  import opened BrokerSystem
  import opened BrokerInvariants
  import opened BrokerRuns
  import opened FileSession
  import opened FileSessionProofs

  /** A lease in this connection's name is the one it holds, and the one it holds is in its name. */
  predicate LeaseAgreed(recs: seq<Rec>, lease: Option<Held>, me: nat) {
    && (forall i :: 0 <= i < |recs| && Owned(recs[i], me) ==> lease == Some(Held(i, recs[i].transfer.value.transferId)))
    && (lease.Some? ==> lease.value.id < |recs| && Owned(recs[lease.value.id], me) && recs[lease.value.id].transfer.value.transferId == lease.value.transferId)
  }

  /** At most one manifest pass runs in this connection's name, and the connection is waiting for it. */
  predicate Suspended(begins: seq<Begin>, s: Session, me: nat) {
    && (forall b :: 0 <= b < |begins| && OwnBegin(begins[b], me) ==> s.work == ManifestWork(b))
    && (s.work.ManifestWork? ==>
          && s.work.begin < |begins| && OwnBegin(begins[s.work.begin], me) && s.lease.None?
          && s.named == Some(begins[s.work.begin].id) && (s.phase == Beginning || s.phase == Closed))
  }

  /** How far the broker's lease is when the conversation is about to do `next`. */
  predicate At(lease: Lease, next: Next) {
    match next
    case SendHeader(i) => lease.nextFrame == i
    case SendBody(i) => lease.nextFrame == i < |lease.sizes|
    case AwaitAck(i) => lease.nextFrame == i < |lease.sizes|
    case AwaitCommit => lease.nextFrame == |lease.sizes|
  }

  /** What the connection does next, when it is not waiting for a manifest pass. */
  function Turn(s: Session): Option<Next> {
    if s.work.Writing? then Some(s.work.next)
    else if s.work.ManifestWork? then None
    else if s.phase == AwaitingFrameAck && s.outstanding.Some? then Some(AwaitAck(s.outstanding.value))
    else if s.phase == AwaitingCommit then Some(AwaitCommit)
    else None
  }

  /** The coupling: the held lease streams the connection's own frames, and is exactly as far as the conversation. */
  predicate Coupled(cfg: Config, recs: seq<Rec>, s: Session) {
    s.lease.Some? && s.lease.value.id < |recs| && recs[s.lease.value.id].transfer.Some? ==>
      var lease := recs[s.lease.value.id].transfer.value;
      && LeaseStreams(cfg, lease, s.frames)
      && s.named == Some(s.lease.value.id)
      && (s.phase != Closed ==> Turn(s).Some? && At(lease, Turn(s).value))
  }

  /** What the connection's own fields say of each other. A lease outlives its connection only after a flood. */
  predicate Shape(s: Session, won: bool) {
    && (s.phase == Idle ==> s.lease.None? && s.work == Rest && s.named.None?)
    && (s.phase == Beginning ==> s.work.ManifestWork? || s.work == Writing(SendHeader(0)))
    && (s.phase == Streaming ==> s.work.Writing?)
    && (s.phase == AwaitingFrameAck ==> s.outstanding.Some?)
    && (s.phase == Closed && (s.lease.Some? || s.work.ManifestWork?) ==> s.flooded)
    && (!s.open && s.lease.Some? ==> s.flooded)
    && (s.flooded ==> s.phase == Closed)
    && (s.phase == AwaitingCommit ==> s.work == Rest)
    && (won ==> s.phase == Closed && s.lease.None? && s.work == Rest)
  }

  /** What must come after something that was written; nothing comes after a refusal or a commit's answer. */
  function After(out: Out): Option<Next> {
    match out
    case Meta(_, _, _) => Some(SendHeader(0))
    case Header(i, size) => Some(if size > 0 then SendBody(i) else AwaitAck(i))
    case Body(i, _) => Some(AwaitAck(i))
    case AckOk(_, next) => Some(if next.None? then AwaitCommit else SendHeader(next.value))
    case _ => None
  }

  /** A header is followed by its body and by no line; a refusal appears only where a line is expected. */
  predicate Follows(a: Out, b: Out) {
    match After(a)
    case None => false
    case Some(SendHeader(i)) => b.Header? && b.frame == i
    case Some(SendBody(i)) => b.Body? && b.frame == i && a.Header? && |b.bytes| == a.size
    case Some(AwaitAck(i)) => (b.AckOk? && b.frame == i && (b.next.None? || b.next.value == i + 1)) || b.Refusal?
    case Some(AwaitCommit) => b.CommitOk? || b.Refusal?
  }

  predicate Final(out: Out) {
    out.Refusal? || out.CommitOk?
  }

  predicate WellFormed(sent: seq<Out>) {
    && (forall k :: 0 < k < |sent| ==> Follows(sent[k - 1], sent[k]))
    && (sent != [] ==> sent[0].Meta? || sent[0].Refusal?)
  }

  /** The bytes written so far are a prefix of one well-formed conversation, which has got exactly as far as the phase. */
  predicate Written(sent: seq<Out>, s: Session, won: bool) {
    && WellFormed(sent)
    && (s.phase != Closed ==> sent == [] || !Final(sent[|sent| - 1]))
    && (s.phase != Closed && Turn(s).Some? ==> sent != [] && After(sent[|sent| - 1]) == Turn(s) && (Turn(s).value.SendBody? ==> SizeOk(sent[|sent| - 1], s)))
    && (s.phase != Closed && Turn(s).None? ==> sent == [])
    && (sent != [] && sent[|sent| - 1].CommitOk? ==> won)
    && (sent != [] && sent[|sent| - 1].Refusal? ==> !won)
  }

  predicate SizeOk(out: Out, s: Session) {
    out.Header? && (out.frame < |s.frames| ==> |s.frames[out.frame]| == out.size)
  }

  predicate ConnInv(cfg: Config, me: nat, c: Conn) {
    && SysInv(cfg, c.sys)
    && LeaseAgreed(c.sys.core.recs, c.s.lease, me) && Suspended(c.sys.begins, c.s, me)
    && Coupled(cfg, c.sys.core.recs, c.s)
    && Shape(c.s, c.won) && Written(c.sent, c.s, c.won)
  }

  /** Within one stretch of code: the broker may have ended the lease already, and the other fields may be in between. */
  predicate Base(cfg: Config, me: nat, c: Conn) {
    SysInv(cfg, c.sys) && HoldingAtMost(c.sys.core.recs, c.s.lease, me) && Suspended(c.sys.begins, c.s, me)
  }

  predicate HoldingAtMost(recs: seq<Rec>, lease: Option<Held>, me: nat) {
    LeaseAgreed(recs, lease, me) || (lease.Some? && lease.value.id < |recs| && recs[lease.value.id].transfer.None? && LeaseAgreed(recs, None, me))
  }

  // ------------------------------------------------------------- giving the lease back

  lemma ReleaseKeeps(cfg: Config, me: nat, c: Conn)
    requires Base(cfg, me, c)
    ensures var c' := ReleaseLease(cfg, c);
      && SysInv(cfg, c'.sys) && LeaseAgreed(c'.sys.core.recs, None, me) && Suspended(c'.sys.begins, c.s.(lease := None), me) && c'.s == c.s.(lease := None) && c'.sent == c.sent && c'.won == c.won
      && AllEvolve(c.sys.core.recs, c'.sys.core.recs)
  {
    hide Step, SysInv, AllEvolve, SaidInv;
    if c.s.lease.Some? {
      var h := c.s.lease.value;
      OwnAbandonCall(cfg, c.sys, h, me);
      StepKeeps(cfg, c.sys, Abandon(h.id, h.transferId));
    } else {
      AllEvolveRefl(c.sys.core.recs);
    }
  }

  /** Steps only add to what was written, and never undo a commit. */
  predicate Grows(c: Conn, c': Conn) {
    && AllEvolve(c.sys.core.recs, c'.sys.core.recs)
    && |c.sent| <= |c'.sent| && c'.sent[..|c.sent|] == c.sent
    && (c.won ==> c'.won)
  }

  lemma GrowsRefl(c: Conn)
    ensures Grows(c, c)
  {
    AllEvolveRefl(c.sys.core.recs);
  }

  /** A connection that is over, and not because of a flood, leaves no lease behind. */
  lemma FailKeeps(cfg: Config, me: nat, c: Conn)
    requires Base(cfg, me, c) && WellFormed(c.sent) && !c.s.work.ManifestWork? && !c.won
    requires c.sent != [] ==> !c.sent[|c.sent| - 1].CommitOk?
    ensures ConnInv(cfg, me, Fail(cfg, c)) && Grows(c, Fail(cfg, c)) && Fail(cfg, c).sent == c.sent && !Fail(cfg, c).won
  {
    hide SysInv, ReleaseLease, LeaseAgreed, AllEvolve, WellFormed;
    ReleaseKeeps(cfg, me, c.(s := c.s.(phase := Closed)));
  }

  /** What may be the last line: a refusal where a line is expected, or a commit's answer. */
  predicate LastLine(sent: seq<Out>, out: Out, won: bool) {
    && Final(out) && (if sent == [] then out.Refusal? else Follows(sent[|sent| - 1], out))
    && (out.CommitOk? <==> won)
  }

  lemma CloseKeeps(cfg: Config, me: nat, c: Conn, out: Out)
    requires Base(cfg, me, c) && WellFormed(c.sent) && c.s.work == Rest && c.s.phase != Closed && LastLine(c.sent, out, c.won)
    ensures var c' := AnswerAndClose(cfg, c, out);
      ConnInv(cfg, me, c') && Grows(c, c') && (c'.sent == c.sent || c'.sent == c.sent + [out]) && c'.won == c.won
  {
    hide SysInv, ReleaseLease, LeaseAgreed, AllEvolve;
    ReleaseKeeps(cfg, me, c.(s := c.s.(phase := Closed)));
  }

  /** The broker took the lease back, and nobody else's is in this connection's name. */
  lemma LostKeeps(cfg: Config, me: nat, c: Conn)
    requires SysInv(cfg, c.sys) && WellFormed(c.sent) && c.s.lease.Some? && !c.s.work.ManifestWork? && !c.won
    requires LeaseAgreed(c.sys.core.recs, None, me) && Suspended(c.sys.begins, c.s.(lease := None), me)
    requires c.sent != [] ==> !c.sent[|c.sent| - 1].CommitOk?
    ensures ConnInv(cfg, me, Lost(c))
  {
    hide SysInv;
  }

  /** One write of a live conversation. */
  lemma WriteStepKeeps(cfg: Config, me: nat, c: Conn, out: Out, next: Next)
    requires SysInv(cfg, c.sys) && LeaseAgreed(c.sys.core.recs, c.s.lease, me) && Suspended(c.sys.begins, c.s, me)
    requires WellFormed(c.sent) && !c.s.work.ManifestWork? && !c.won && c.s.phase != Closed && !c.s.flooded
    requires !Final(out) && After(out) == Some(next) && (next.SendBody? ==> SizeOk(out, c.s))
    requires if c.sent == [] then out.Meta? else Follows(c.sent[|c.sent| - 1], out) && !Final(c.sent[|c.sent| - 1])
    requires Coupled(cfg, c.sys.core.recs, c.s.(work := Writing(next)))
    requires (c.s.phase == Beginning && next == SendHeader(0)) || c.s.phase == Streaming || (c.s.phase == AwaitingFrameAck && c.s.outstanding.Some?)
    ensures var c' := WriteStep(cfg, c, out, next);
      ConnInv(cfg, me, c') && Grows(c, c') && (c'.sent == c.sent || c'.sent == c.sent + [out]) && !c'.won
  {
    hide SysInv, Fail, AllEvolve, LeaseAgreed;
    if !c.s.open {
      FailKeeps(cfg, me, c);
    } else {
      GrowsRefl(c);
    }
  }

  // ------------------------------------------------------------------- lines

  lemma RefuseKeeps(cfg: Config, me: nat, c: Conn, a: Answer)
    requires ConnInv(cfg, me, c) && c.s.work == Rest && c.s.phase != Closed
    ensures var c' := AnswerAndClose(cfg, c, Refusal(a));
      ConnInv(cfg, me, c') && Grows(c, c') && (c'.sent == c.sent || c'.sent == c.sent + [Refusal(a)]) && !c'.won
  {
    hide SysInv, LeaseAgreed, Suspended, Coupled, AnswerAndClose;
    CloseKeeps(cfg, me, c, Refusal(a));
  }

  lemma HearBeginKeeps(cfg: Config, me: nat, c: Conn, id: nat, leaseMs: Option<int>, now: int)
    requires ConnInv(cfg, me, c) && c.s.work == Rest && c.s.phase == Idle
    ensures var c' := HearBegin(cfg, me, c, id, leaseMs, now);
      && ConnInv(cfg, me, c') && Grows(c, c') && !c'.won
      && (c'.sent == c.sent || (|c'.sent| == 1 && c'.sent[0].Refusal? && (c'.sent[0].answer == Unavailable && id < |c.sys.core.recs| ==> Over(c'.sys, id))))
  {
    hide SysInv, Step, AnswerAndClose, AllEvolve, SaidInv;
    var c1 := c.(s := c.s.(phase := Beginning, named := Some(id)));
    if leaseMs.Some? && leaseMs.value < 1 {
      CloseKeeps(cfg, me, c1, Refusal(InvalidRequest));
    } else if id >= |c.sys.core.recs| {
      CloseKeeps(cfg, me, c1, Refusal(Unavailable));
    } else {
      var asked := if leaseMs.Some? then Some(leaseMs.value as nat) else None;
      OwnBeginCall(cfg, c.sys, id, me, asked, now);
      StepKeeps(cfg, c.sys, BeginClaim(id, me, asked, now));
      var (sys, said) := Step(cfg, c.sys, BeginClaim(id, me, asked, now));
      if said.Said? {
        CloseKeeps(cfg, me, c1.(sys := sys), Refusal(said.answer));
        RefusedAfter(cfg, me, c, c1.(sys := sys), said.answer, id);
      }
    }
  }

  /** A refusal given after a call still describes the record: closing only gives a lease back. */
  lemma RefusedAfter(cfg: Config, me: nat, c: Conn, c1: Conn, a: Answer, id: nat)
    requires AllEvolve(c.sys.core.recs, c1.sys.core.recs) && c1.sent == c.sent && c1.won == c.won
    requires Grows(c1, AnswerAndClose(cfg, c1, Refusal(a)))
    ensures Grows(c, AnswerAndClose(cfg, c1, Refusal(a)))
    ensures c1.s.lease.None? && a == Unavailable && Over(c1.sys, id) ==> Over(AnswerAndClose(cfg, c1, Refusal(a)).sys, id)
  {
    EvolveThen(c.sys.core.recs, c1.sys.core.recs, AnswerAndClose(cfg, c1, Refusal(a)).sys.core.recs);
  }

  /** After a call on the held lease, the connection's claim on that record is the lease that is left there, if any. */
  lemma HoldingAfter(recs: seq<Rec>, recs': seq<Rec>, h: Held, me: nat)
    requires LeaseAgreed(recs, Some(h), me) && |recs'| == |recs|
    requires forall i :: 0 <= i < |recs| && i != h.id ==> recs'[i] == recs[i]
    ensures recs'[h.id].transfer.None? ==> LeaseAgreed(recs', None, me)
    ensures Owned(recs'[h.id], me) && recs'[h.id].transfer.value.transferId == h.transferId ==> LeaseAgreed(recs', Some(h), me)
  {
  }

  /** Transitivity at the end of a call: the broker moved first, then the connection did. */
  lemma GrowsAfter(c: Conn, c1: Conn, c': Conn)
    requires AllEvolve(c.sys.core.recs, c1.sys.core.recs) && c1.sent == c.sent && (c.won ==> c1.won) && Grows(c1, c')
    ensures Grows(c, c')
  {
    EvolveThen(c.sys.core.recs, c1.sys.core.recs, c'.sys.core.recs);
  }

  /** The broker moved the record this connection holds, and nothing else. */
  predicate Called(cfg: Config, c: Conn, c1: Conn, h: Held) {
    && c.s.lease == Some(h) && c1 == c.(sys := c1.sys)
    && SysInv(cfg, c1.sys) && AllEvolve(c.sys.core.recs, c1.sys.core.recs) && OnlyAt(c.sys, c1.sys, h.id)
  }

  predicate MidTurn(c: Conn) {
    c.s.work == Rest && (c.s.phase == AwaitingFrameAck || c.s.phase == AwaitingCommit)
  }

  lemma HeldIsLive(cfg: Config, me: nat, c: Conn, h: Held)
    requires ConnInv(cfg, me, c) && c.s.lease == Some(h)
    ensures StillHeld(c.sys, h, me) && SysInv(cfg, c.sys) && !c.won
    ensures LeaseStreams(cfg, c.sys.core.recs[h.id].transfer.value, c.s.frames) && c.s.named == Some(h.id)
    ensures c.s.phase != Closed ==> Turn(c.s).Some? && At(c.sys.core.recs[h.id].transfer.value, Turn(c.s).value)
  {
  }

  /** The record died under the call: the holder was told before it could be answered. */
  lemma CallLost(cfg: Config, me: nat, c: Conn, c1: Conn, h: Held)
    requires ConnInv(cfg, me, c) && MidTurn(c) && Called(cfg, c, c1, h) && c1.sys.core.recs[h.id].transfer.None?
    ensures ConnInv(cfg, me, Lost(c1)) && Grows(c, Lost(c1))
  {
    hide SysInv, AllEvolve;
    HoldingAfter(c.sys.core.recs, c1.sys.core.recs, h, me);
    LostKeeps(cfg, me, c1);
  }

  lemma CallRefused(cfg: Config, me: nat, c: Conn, c1: Conn, h: Held, a: Answer)
    requires ConnInv(cfg, me, c) && MidTurn(c) && Called(cfg, c, c1, h)
    requires c1.sys.core.recs[h.id].transfer.None? || c1.sys.core.recs[h.id].transfer == c.sys.core.recs[h.id].transfer
    ensures var c' := AnswerAndClose(cfg, c1, Refusal(a));
      ConnInv(cfg, me, c') && Grows(c, c') && !c'.won && (c'.sent == c.sent || c'.sent == c.sent + [Refusal(a)])
  {
    hide SysInv, AllEvolve, AnswerAndClose, Coupled;
    HoldingAfter(c.sys.core.recs, c1.sys.core.recs, h, me);
    CloseKeeps(cfg, me, c1, Refusal(a));
    GrowsAfter(c, c1, AnswerAndClose(cfg, c1, Refusal(a)));
  }

  lemma CallAcked(cfg: Config, me: nat, c: Conn, c1: Conn, h: Held, index: nat, size: nat, a: Answer)
    requires ConnInv(cfg, me, c) && MidTurn(c) && c.s.phase == AwaitingFrameAck && Called(cfg, c, c1, h) && c.sys.core.recs[h.id].transfer.Some?
    requires a.FrameAcked? && AckOutcome(c.sys.core.recs[h.id].transfer.value, c1.sys.core.recs[h.id].transfer, index, size, a)
    ensures var c' := WriteStep(cfg, c1, AckOk(index, a.next), if a.next.None? then AwaitCommit else SendHeader(a.next.value));
      ConnInv(cfg, me, c') && Grows(c, c') && !c'.won && (c'.sent == c.sent || c'.sent == c.sent + [AckOk(index, a.next)])
  {
    hide SysInv, AllEvolve, WriteStep;
    var next := if a.next.None? then AwaitCommit else SendHeader(a.next.value);
    HoldingAfter(c.sys.core.recs, c1.sys.core.recs, h, me);
    WriteStepKeeps(cfg, me, c1, AckOk(index, a.next), next);
    GrowsAfter(c, c1, WriteStep(cfg, c1, AckOk(index, a.next), next));
  }

  lemma CallCommitted(cfg: Config, me: nat, c: Conn, c1: Conn, h: Held, a: Answer)
    requires ConnInv(cfg, me, c) && MidTurn(c) && c.s.phase == AwaitingCommit && Called(cfg, c, c1, h)
    requires a.Committed? && c1.sys.core.recs[h.id].transfer.None? && c1.sys.core.recs[h.id].state == Claimed
    ensures var c' := AnswerAndClose(cfg, c1.(won := true), CommitOk(a.files, a.bytes));
      && ConnInv(cfg, me, c') && Grows(c, c') && c'.won && (c'.sent == c.sent || c'.sent == c.sent + [CommitOk(a.files, a.bytes)])
      && Spent(c'.sys, h.id)
  {
    hide SysInv, AllEvolve, AnswerAndClose, Coupled;
    var c2 := c1.(won := true);
    HoldingAfter(c.sys.core.recs, c1.sys.core.recs, h, me);
    CloseKeeps(cfg, me, c2, CommitOk(a.files, a.bytes));
    GrowsAfter(c, c2, AnswerAndClose(cfg, c2, CommitOk(a.files, a.bytes)));
    StaysClaimed(c1.sys.core.recs, AnswerAndClose(cfg, c2, CommitOk(a.files, a.bytes)).sys.core.recs, h.id);
  }

  lemma StaysClaimed(recs: seq<Rec>, recs': seq<Rec>, id: nat)
    requires AllEvolve(recs, recs') && id < |recs| && recs[id].state == Claimed
    ensures id < |recs'| && (recs'[id].state == Claimed || recs'[id].state == Destroyed)
  {
  }

  /** What one line added to the conversation. */
  predicate AddsAtMost(c: Conn, c': Conn, out: Out) {
    c'.sent == c.sent || c'.sent == c.sent + [out]
  }

  /** An ack on the held lease: the next frame's turn, a refusal of what the line said, or a lease that is lost. */
  lemma HeldAckKeeps(cfg: Config, me: nat, c: Conn, h: Held, line: Line, now: int)
    requires ConnInv(cfg, me, c) && MidTurn(c) && c.s.phase == AwaitingFrameAck && c.s.lease == Some(h) && line.AckLine?
    ensures var c' := HearAck(cfg, me, c, line, now);
      && ConnInv(cfg, me, c') && Grows(c, c') && !c'.won
      && exists out :: AddsAtMost(c, c', out) && (out.AckOk? || (out.Refusal? && out.answer.TransferFailed?))
  {
    hide SysInv, Step, AnswerAndClose, WriteStep, AllEvolve, SaidInv, ConnInv, OnlyAt, Grows, LeaseStreams;
    HeldIsLive(cfg, me, c, h);
    OwnAckCall(cfg, c.sys, h, me, line.transferId, line.index, line.size, line.digest, now);
    StepKeeps(cfg, c.sys, AckFrame(h.id, line.transferId, me, line.index, line.size, line.digest, now));
    var (sys, said) := Step(cfg, c.sys, AckFrame(h.id, line.transferId, me, line.index, line.size, line.digest, now));
    var c1 := c.(sys := sys);
    if RecordGone(sys, h.id) {
      CallLost(cfg, me, c, c1, h);
      assert AddsAtMost(c, Lost(c1), AckOk(0, None));
    } else if said.answer.FrameAcked? {
      CallAcked(cfg, me, c, c1, h, line.index, line.size, said.answer);
      assert AddsAtMost(c, HearAck(cfg, me, c, line, now), AckOk(line.index, said.answer.next));
    } else {
      CallRefused(cfg, me, c, c1, h, said.answer);
      assert AddsAtMost(c, HearAck(cfg, me, c, line, now), Refusal(said.answer));
    }
  }

  lemma HearAckKeeps(cfg: Config, me: nat, c: Conn, line: Line, now: int)
    requires ConnInv(cfg, me, c) && c.s.work == Rest && c.s.phase != Closed && line.AckLine?
    ensures var c' := HearAck(cfg, me, c, line, now);
      && ConnInv(cfg, me, c') && Grows(c, c') && !c'.won
      && exists out :: AddsAtMost(c, c', out) && (out.AckOk? || (out.Refusal? && out.answer != Unavailable))
  {
    hide SysInv, Step, AnswerAndClose, WriteStep, AllEvolve, SaidInv, Suspended, LeaseAgreed, ConnInv;
    if c.s.phase != AwaitingFrameAck || c.s.lease.None? {
      RefuseKeeps(cfg, me, c, InvalidRequest);
      assert AddsAtMost(c, HearAck(cfg, me, c, line, now), Refusal(InvalidRequest));
    } else {
      HeldAckKeeps(cfg, me, c, c.s.lease.value, line, now);
    }
  }

  /** What a commit must have matched to be accepted on the held lease. */
  predicate CommitMatches(sys: Sys, h: Held, line: Line) {
    && line.CommitLine? && h.id < |sys.core.recs| && sys.core.recs[h.id].transfer.Some?
    && line.digests == sys.core.recs[h.id].transfer.value.digests && line.received == sys.core.recs[h.id].transfer.value.totalBytes
  }

  /**
   * A commit on the held lease. The refusals the broker keeps for a caller
   * without phase discipline are unreachable here: only what the line itself
   * said can be refused.
   */
  lemma HeldCommitKeeps(cfg: Config, me: nat, c: Conn, h: Held, line: Line, now: int)
    requires ConnInv(cfg, me, c) && MidTurn(c) && c.s.phase == AwaitingCommit && c.s.lease == Some(h) && line.CommitLine? && line.id == h.id
    ensures var c' := HearCommit(cfg, me, c, line, now);
      && ConnInv(cfg, me, c') && Grows(c, c')
      && (c'.won ==> CommitMatches(c.sys, h, line) && Spent(c'.sys, h.id))
      && exists out :: AddsAtMost(c, c', out) && if c'.won then out.CommitOk? else RefusesLine(out)
  {
    hide SysInv, Step, AnswerAndClose, AllEvolve, SaidInv, ConnInv, OnlyAt, Grows, LeaseStreams;
    HeldIsLive(cfg, me, c, h);
    OwnCommitCall(cfg, c.sys, h, me, line.transferId, line.received, line.digests, now);
    StepKeeps(cfg, c.sys, CommitClaim(h.id, line.transferId, me, line.received, line.digests, now));
    var (sys, said) := Step(cfg, c.sys, CommitClaim(h.id, line.transferId, me, line.received, line.digests, now));
    var c1 := c.(sys := sys);
    if RecordGone(sys, h.id) {
      CallLost(cfg, me, c, c1, h);
      assert AddsAtMost(c, Lost(c1), Refusal(TransferFailed(SizeMismatch)));
    } else if said.answer.Committed? {
      CallCommitted(cfg, me, c, c1, h, said.answer);
      assert AddsAtMost(c, HearCommit(cfg, me, c, line, now), CommitOk(said.answer.files, said.answer.bytes));
    } else {
      CallRefused(cfg, me, c, c1, h, said.answer);
      assert AddsAtMost(c, HearCommit(cfg, me, c, line, now), Refusal(said.answer));
    }
  }

  /** A refusal of what a commit line itself said. */
  predicate RefusesLine(out: Out) {
    out.Refusal? && out.answer.TransferFailed? && out.answer.reason in {TransferIdMismatch, SizeMismatch, DigestMismatch}
  }

  lemma HearCommitKeeps(cfg: Config, me: nat, c: Conn, line: Line, now: int)
    requires ConnInv(cfg, me, c) && c.s.work == Rest && c.s.phase != Closed && line.CommitLine?
    ensures var c' := HearCommit(cfg, me, c, line, now);
      && ConnInv(cfg, me, c') && Grows(c, c')
      && (c'.won ==> c.s.lease.Some? && CommitMatches(c.sys, c.s.lease.value, line) && Spent(c'.sys, c.s.lease.value.id))
      && exists out :: AddsAtMost(c, c', out) && if c'.won then out.CommitOk? else out.Refusal? && out.answer != Unavailable
  {
    hide SysInv, Step, AnswerAndClose, AllEvolve, SaidInv, Suspended, LeaseAgreed, ConnInv;
    if c.s.phase != AwaitingCommit || c.s.lease.None? || line.id != c.s.lease.value.id {
      RefuseKeeps(cfg, me, c, InvalidRequest);
      assert AddsAtMost(c, HearCommit(cfg, me, c, line, now), Refusal(InvalidRequest));
    } else {
      HeldCommitKeeps(cfg, me, c, c.s.lease.value, line, now);
    }
  }

  /** The payload is gone for good. */
  predicate Spent(s: Sys, id: nat) {
    id < |s.core.recs| && (s.core.recs[id].state == Claimed || s.core.recs[id].state == Destroyed)
  }

  // ------------------------------------------------------------- continuations

  lemma SuspendedIsReady(cfg: Config, me: nat, c: Conn)
    requires ConnInv(cfg, me, c) && c.s.work.ManifestWork?
    ensures c.s.work.begin < |c.sys.begins| && c.sys.begins[c.s.work.begin].running && c.sys.begins[c.s.work.begin].owner == me
    ensures c.s.lease.None? && !c.won && c.s.named == Some(c.sys.begins[c.s.work.begin].id) && SysInv(cfg, c.sys)
    ensures c.s.phase != Closed ==> c.sent == [] && c.s.phase == Beginning && !c.s.flooded
    ensures c.s.phase == Closed ==> c.s.flooded && (c.sent != [] ==> !c.sent[|c.sent| - 1].CommitOk?)
    ensures WellFormed(c.sent) && LeaseAgreed(c.sys.core.recs, None, me) && (c.s.phase == Beginning || c.s.phase == Closed)
  {
  }

  /** Once the pass it waited for is finished, nothing else runs in this connection's name. */
  lemma NoLongerSuspended(me: nat, begins: seq<Begin>, s: Session)
    requires Suspended(begins, s, me) && s.work.ManifestWork?
    ensures Suspended(begins[s.work.begin := begins[s.work.begin].(running := false)], s.(work := Rest), me)
  {
  }

  /** What the connection writes first is the manifest of the container it was granted. */
  predicate MetaOf(cfg: Config, r: Rec, out: Out) {
    && out.Meta? && r.plaintext.Some? && cfg.decode(r.plaintext.value).Some?
    && var p := cfg.decode(r.plaintext.value).value;
    out.sizes == Sizes(Frames(p)) && out.hasText == p.text.Some?
  }

  lemma FinishGrantedKeeps(cfg: Config, me: nat, c: Conn, c1: Conn, id: nat, lease: Lease, frames: seq<Bytes>)
    requires SysInv(cfg, c1.sys) && AllEvolve(c.sys.core.recs, c1.sys.core.recs) && c1.sent == c.sent && !c.won && !c1.won
    requires LeaseAgreed(c.sys.core.recs, None, me) && c1.s.lease.None? && c1.s.work == Rest && c1.s.named == Some(id)
    requires id < |c.sys.core.recs| == |c1.sys.core.recs| && c.sys.core.recs[id].transfer.None?
    requires c1.sys.core.recs == c.sys.core.recs[id := c1.sys.core.recs[id]] && c1.sys.core.recs[id].transfer == Some(lease)
    requires lease.owner == me && LeaseStreams(cfg, lease, frames) && lease.nextFrame == 0
    requires Suspended(c1.sys.begins, c1.s, me) && WellFormed(c1.sent)
    requires if c1.s.phase == Closed then (c1.s.flooded && (c1.sent != [] ==> !c1.sent[|c1.sent| - 1].CommitOk?)) else (c1.s.phase == Beginning && c1.sent == [] && !c1.s.flooded)
    ensures var c2 := c1.(s := c1.s.(lease := Some(Held(id, lease.transferId)), frames := frames));
      var out := Meta(lease.transferId, lease.sizes, lease.hasPrivateText);
      var c' := WriteStep(cfg, c2, out, SendHeader(0));
      && ConnInv(cfg, me, c') && Grows(c, c') && !c'.won && AddsAtMost(c, c', out) && (c1.s.phase == Closed ==> c'.sent == c.sent)
  {
    hide SysInv, AllEvolve, Fail;
    var c2 := c1.(s := c1.s.(lease := Some(Held(id, lease.transferId)), frames := frames));
    var out := Meta(lease.transferId, lease.sizes, lease.hasPrivateText);
    assert LeaseAgreed(c2.sys.core.recs, c2.s.lease, me);
    if c1.s.phase != Closed {
      WriteStepKeeps(cfg, me, c2, out, SendHeader(0));
      GrowsAfter(c, c2, WriteStep(cfg, c2, out, SendHeader(0)));
    }
  }

  lemma FinishBeginKeeps(cfg: Config, me: nat, c: Conn, now: int)
    requires ConnInv(cfg, me, c) && c.s.work.ManifestWork?
    ensures var c' := FinishBegin(cfg, c, now);
      && ConnInv(cfg, me, c') && Grows(c, c') && !c'.won && c.s.named.Some?
      && exists out :: AddsAtMost(c, c', out) && BeginAnswer(cfg, c, c', c.s.named.value, out)
  {
    hide SysInv, Step, AnswerAndClose, WriteStep, AllEvolve, SaidInv, ConnInv, Grows, LeaseAgreed, Suspended, WellFormed, LeaseStreams, GrantOf;
    SuspendedIsReady(cfg, me, c);
    OwnFinishCall(cfg, c.sys, c.s.work.begin, now);
    StepKeeps(cfg, c.sys, BeginStep(c.s.work.begin, now));
    var (sys, said) := Step(cfg, c.sys, BeginStep(c.s.work.begin, now));
    var c1 := c.(sys := sys, s := c.s.(work := Rest));
    NoLongerSuspendedIn(cfg, me, c, sys);
    if said.answer.Began? {
      FinishGrantedKeeps(cfg, me, c, c1, said.id, said.answer.lease, said.answer.frames);
      GrantedMeta(cfg, c, c1, said.id, said.answer.lease, said.answer.frames);
      var lease := said.answer.lease;
      assert BeginAnswer(cfg, c, FinishBegin(cfg, c, now), said.id, Meta(lease.transferId, lease.sizes, lease.hasPrivateText));
    } else {
      FinishRefusedKeeps(cfg, me, c, c1, said.answer, said.id);
      assert BeginAnswer(cfg, c, FinishBegin(cfg, c, now), said.id, Refusal(said.answer));
    }
  }

  /** What a begin is answered with: the container's manifest, or a refusal that is true of the drop. */
  predicate BeginAnswer(cfg: Config, c: Conn, c': Conn, id: nat, out: Out) {
    || (out.Meta? && id < |c.sys.core.recs| && MetaOf(cfg, c.sys.core.recs[id], out))
    || (out.Refusal? && (out.answer == Unavailable && id < |c'.sys.core.recs| ==> Over(c'.sys, id)))
  }

  lemma GrantedMeta(cfg: Config, c: Conn, c1: Conn, id: nat, lease: Lease, frames: seq<Bytes>)
    requires id < |c.sys.core.recs| && LeaseStreams(cfg, lease, frames) && GrantOf(cfg, c.sys.core.recs[id], lease, frames)
    ensures MetaOf(cfg, c.sys.core.recs[id], Meta(lease.transferId, lease.sizes, lease.hasPrivateText))
  {
  }

  lemma NoLongerSuspendedIn(cfg: Config, me: nat, c: Conn, sys: Sys)
    requires ConnInv(cfg, me, c) && c.s.work.ManifestWork? && c.s.work.begin < |c.sys.begins|
    requires sys.begins == c.sys.begins[c.s.work.begin := c.sys.begins[c.s.work.begin].(running := false)]
    ensures Suspended(sys.begins, c.s.(work := Rest), me)
  {
    NoLongerSuspended(me, c.sys.begins, c.s);
  }

  lemma FinishRefusedKeeps(cfg: Config, me: nat, c: Conn, c1: Conn, a: Answer, id: nat)
    requires c1 == c.(sys := c1.sys, s := c.s.(work := Rest)) && c1.sys.core == c.sys.core
    requires SysInv(cfg, c1.sys) && !c.won && c.s.lease.None? && LeaseAgreed(c.sys.core.recs, None, me) && Suspended(c1.sys.begins, c1.s, me)
    requires WellFormed(c.sent) && (c.s.phase == Closed ==> (c.sent != [] ==> !c.sent[|c.sent| - 1].CommitOk?) && c.s.flooded)
    requires c.s.phase != Closed ==> c.sent == [] && c.s.phase == Beginning
    requires a == Unavailable ==> Over(c1.sys, id)
    ensures var c' := AnswerAndClose(cfg, c1, Refusal(a));
      && ConnInv(cfg, me, c') && Grows(c, c') && !c'.won && AddsAtMost(c, c', Refusal(a))
      && (a == Unavailable && id < |c'.sys.core.recs| ==> Over(c'.sys, id))
  {
    hide SysInv, AllEvolve;
    GrowsRefl(c1);
    if c1.s.phase != Closed {
      CloseKeeps(cfg, me, c1, Refusal(a));
      GrowsAfter(c, c1, AnswerAndClose(cfg, c1, Refusal(a)));
    }
  }

  lemma PerformKeeps(cfg: Config, me: nat, c: Conn, next: Next)
    requires ConnInv(cfg, me, c) && c.s.work == Writing(next) && c.s.phase != Closed
    ensures var c' := Perform(cfg, c, next);
      ConnInv(cfg, me, c') && Grows(c, c') && !c'.won && exists out :: AddsAtMost(c, c', out) && (out.Header? || out.Body?)
  {
    hide SysInv, AllEvolve, Fail, WriteStep, LeaseAgreed;
    HeldMore(cfg, me, c);
    match next
    case SendHeader(i) =>
      if i < |c.s.frames| {
        var size := |c.s.frames[i]|;
        var out, then_ := Header(i, size), if size > 0 then SendBody(i) else AwaitAck(i);
        WriteStepKeeps(cfg, me, c.(s := c.s.(phase := Streaming)), out, then_);
        assert AddsAtMost(c, Perform(cfg, c, next), out);
      } else {
        FailKeeps(cfg, me, c);
        assert AddsAtMost(c, Perform(cfg, c, next), Header(0, 0));
      }
    case SendBody(i) =>
      if i < |c.s.frames| {
        WriteStepKeeps(cfg, me, c, Body(i, c.s.frames[i]), AwaitAck(i));
        assert AddsAtMost(c, Perform(cfg, c, next), Body(i, c.s.frames[i]));
      } else {
        FailKeeps(cfg, me, c);
        assert AddsAtMost(c, Perform(cfg, c, next), Header(0, 0));
      }
    case _ =>
      GrowsRefl(c);
      assert AddsAtMost(c, Perform(cfg, c, next), Header(0, 0));
  }

  lemma HeldMore(cfg: Config, me: nat, c: Conn)
    requires ConnInv(cfg, me, c) && c.s.work.Writing?
    ensures Base(cfg, me, c) && !c.won && (c.s.lease.Some? ==> StillHeld(c.sys, c.s.lease.value, me))
    ensures c.s.phase != Closed ==> !c.s.flooded
  {
  }

  // ------------------------------------------------------------------ endings

  /** A disconnect, a half-close or a flood: the lease goes back, and nothing more is written. */
  lemma EndKeeps(cfg: Config, me: nat, c: Conn, s: Session)
    requires ConnInv(cfg, me, c)
    requires s == c.s || (s == c.s.(phase := Closed) && c.s.work == Rest) || (s == c.s.(phase := Closed, flooded := true) && c.s.phase != Closed)
    ensures var c1 := ReleaseLease(cfg, c.(s := s)); var c' := c1.(s := c1.s.(open := false));
      ConnInv(cfg, me, c') && Grows(c, c') && c'.sent == c.sent && c'.won == c.won && c'.s.lease.None?
  {
    hide SysInv, AllEvolve, ReleaseLease, LeaseAgreed, WellFormed;
    ReleaseKeeps(cfg, me, c.(s := s));
  }

  lemma WorldKeeps(cfg: Config, me: nat, c: Conn, e: Event)
    requires ConnInv(cfg, me, c) && Foreign(c.sys, e, me)
    ensures var c' := SessionStep(cfg, me, c, World(e)); ConnInv(cfg, me, c') && Grows(c, c') && c'.sent == c.sent && c'.won == c.won
  {
    hide SysInv, AllEvolve, Step, SaidInv, Foreign, WellFormed, LeaseStreams;
    ForeignKeepsMine(cfg, c.sys, e, me);
    StepKeeps(cfg, c.sys, e);
    var c1 := c.(sys := Step(cfg, c.sys, e).0);
    if c.s.lease.Some? && !StillHeld(c1.sys, c.s.lease.value, me) {
      LostKeeps(cfg, me, c1);
    }
  }

  // -------------------------------------------------------------- every step

  /** What one step may add: a manifest of the named drop's container, a refusal that is true of it, a commit that matched. */
  predicate StepSaid(cfg: Config, c: Conn, e: SessionEvent, c': Conn) {
    && |c.sent| <= |c'.sent| <= |c.sent| + 1
    && (|c'.sent| == |c.sent| + 1 ==>
          var out := c'.sent[|c.sent|];
          && (out.Meta? ==> c.s.named.Some? && c.s.named.value < |c.sys.core.recs| && MetaOf(cfg, c.sys.core.recs[c.s.named.value], out))
          && (out == Refusal(Unavailable) ==>
                c'.s.named.Some? && (c'.s.named.value < |c.sys.core.recs| ==> Over(c'.sys, c'.s.named.value))))
    && (c'.won && !c.won ==>
          && c.s.lease.Some? && c.s.named == Some(c.s.lease.value.id)
          && e.Hear? && CommitMatches(c.sys, c.s.lease.value, e.line) && Spent(c'.sys, c.s.lease.value.id))
    && (c'.s.named != c.s.named ==> e.Hear? && e.line.BeginLine? && c.s.phase == Idle && c'.s.named == Some(e.line.id))
  }

  lemma BeginLineSaid(cfg: Config, me: nat, c: Conn, line: Line, now: int)
    requires ConnInv(cfg, me, c) && c.s.work == Rest && c.s.phase != Closed && line.BeginLine?
    ensures var c' := HearBegin(cfg, me, c, line.id, line.leaseMs, now);
      ConnInv(cfg, me, c') && Grows(c, c') && StepSaid(cfg, c, Hear(line, now), c')
  {
    hide HearBegin, AnswerAndClose, ConnInv, CommitMatches, Spent, Over, MetaOf, Grows;
    NamesLease(cfg, me, c);
    if c.s.phase == Idle {
      HearBeginKeeps(cfg, me, c, line.id, line.leaseMs, now);
      BeginNames(cfg, me, c, line.id, line.leaseMs, now);
    } else {
      RefuseKeeps(cfg, me, c, InvalidRequest);
      RefusedBegin(cfg, me, c, line.id, line.leaseMs, now);
    }
  }

  lemma AckLineSaid(cfg: Config, me: nat, c: Conn, line: Line, now: int)
    requires ConnInv(cfg, me, c) && c.s.work == Rest && c.s.phase != Closed && line.AckLine?
    ensures var c' := HearAck(cfg, me, c, line, now);
      ConnInv(cfg, me, c') && Grows(c, c') && StepSaid(cfg, c, Hear(line, now), c')
  {
    hide HearAck, ConnInv, CommitMatches, Spent, Over, MetaOf, Grows;
    HearAckKeeps(cfg, me, c, line, now);
    AckNames(cfg, me, c, line, now);
  }

  lemma CommitLineSaid(cfg: Config, me: nat, c: Conn, line: Line, now: int)
    requires ConnInv(cfg, me, c) && c.s.work == Rest && c.s.phase != Closed && line.CommitLine?
    ensures var c' := HearCommit(cfg, me, c, line, now);
      ConnInv(cfg, me, c') && Grows(c, c') && StepSaid(cfg, c, Hear(line, now), c')
  {
    hide HearCommit, ConnInv, CommitMatches, Spent, Over, MetaOf, Grows;
    NamesLease(cfg, me, c);
    HearCommitKeeps(cfg, me, c, line, now);
    AckNames(cfg, me, c, line, now);
  }

  lemma OtherLineSaid(cfg: Config, me: nat, c: Conn, now: int)
    requires ConnInv(cfg, me, c) && c.s.work == Rest && c.s.phase != Closed
    ensures var c' := AnswerAndClose(cfg, c, Refusal(InvalidRequest));
      ConnInv(cfg, me, c') && Grows(c, c') && StepSaid(cfg, c, Hear(OtherLine, now), c')
  {
    hide AnswerAndClose, ConnInv, CommitMatches, Spent, Over, MetaOf, Grows;
    RefuseKeeps(cfg, me, c, InvalidRequest);
    AckNames(cfg, me, c, OtherLine, now);
  }

  lemma SaidNothing(cfg: Config, c: Conn, e: SessionEvent, c': Conn)
    requires c'.sent == c.sent && c'.won == c.won && c'.s.named == c.s.named
    ensures StepSaid(cfg, c, e, c')
  {
  }

  lemma HearLineKeeps(cfg: Config, me: nat, c: Conn, line: Line, now: int)
    requires ConnInv(cfg, me, c)
    ensures var c' := HearLine(cfg, me, c, line, now);
      ConnInv(cfg, me, c') && Grows(c, c') && StepSaid(cfg, c, Hear(line, now), c')
  {
    hide HearBegin, HearAck, HearCommit, AnswerAndClose, ConnInv, Grows, StepSaid;
    GrowsRefl(c);
    SaidNothing(cfg, c, Hear(line, now), c);
    if c.s.work == Rest && c.s.phase != Closed {
      match line
      case BeginLine(_, _) => BeginLineSaid(cfg, me, c, line, now);
      case AckLine(_, _, _, _) => AckLineSaid(cfg, me, c, line, now);
      case CommitLine(_, _, _, _) => CommitLineSaid(cfg, me, c, line, now);
      case OtherLine => OtherLineSaid(cfg, me, c, now);
    }
  }

  lemma NamesLease(cfg: Config, me: nat, c: Conn)
    requires ConnInv(cfg, me, c)
    ensures c.s.lease.Some? ==> c.s.named == Some(c.s.lease.value.id)
    ensures c.s.phase == Idle ==> c.s.named.None? && c.sent == [] && !c.won
  {
  }

  lemma BeginNames(cfg: Config, me: nat, c: Conn, id: nat, leaseMs: Option<int>, now: int)
    requires c.s.phase == Idle
    ensures HearBegin(cfg, me, c, id, leaseMs, now).s.named == Some(id)
  {
    hide Step;
  }

  lemma RefusedBegin(cfg: Config, me: nat, c: Conn, id: nat, leaseMs: Option<int>, now: int)
    requires c.s.phase != Idle
    ensures HearBegin(cfg, me, c, id, leaseMs, now) == AnswerAndClose(cfg, c, Refusal(InvalidRequest))
    ensures AnswerAndClose(cfg, c, Refusal(InvalidRequest)).s.named == c.s.named
  {
    hide Step;
  }

  lemma AckNames(cfg: Config, me: nat, c: Conn, line: Line, now: int)
    ensures line.AckLine? ==> HearAck(cfg, me, c, line, now).s.named == c.s.named
    ensures line.CommitLine? ==> HearCommit(cfg, me, c, line, now).s.named == c.s.named
    ensures AnswerAndClose(cfg, c, Refusal(InvalidRequest)).s.named == c.s.named
  {
    hide Step;
  }

  lemma FinishBeginSaid(cfg: Config, me: nat, c: Conn, now: int)
    requires ConnInv(cfg, me, c) && c.s.work.ManifestWork?
    ensures var c' := FinishBegin(cfg, c, now);
      ConnInv(cfg, me, c') && Grows(c, c') && StepSaid(cfg, c, ManifestDone(now), c')
  {
    hide FinishBegin, ConnInv, Over, MetaOf, Grows;
    FinishBeginKeeps(cfg, me, c, now);
    FinishNames(cfg, c, now);
    GrowsLength(c, FinishBegin(cfg, c, now));
  }

  lemma FinishNames(cfg: Config, c: Conn, now: int)
    requires c.s.work.ManifestWork?
    ensures FinishBegin(cfg, c, now).s.named == c.s.named
  {
    hide Step;
  }

  lemma GrowsLength(c: Conn, c': Conn)
    requires Grows(c, c')
    ensures |c.sys.core.recs| <= |c'.sys.core.recs|
  {
  }

  lemma WriteDoneKeeps(cfg: Config, me: nat, c: Conn, ok: bool)
    requires ConnInv(cfg, me, c)
    ensures var c' := SessionStep(cfg, me, c, WriteDone(ok));
      ConnInv(cfg, me, c') && Grows(c, c') && StepSaid(cfg, c, WriteDone(ok), c')
  {
    hide SysInv, AllEvolve, Fail, Perform, LeaseAgreed, LeaseStreams;
    GrowsRefl(c);
    if c.s.work.Writing? {
      PerformNames(cfg, c, c.s.work.next);
      if !ok {
        HeldMore(cfg, me, c);
        WritingIsFresh(cfg, me, c);
        FailKeeps(cfg, me, c);
      } else if c.s.phase != Closed {
        PerformKeeps(cfg, me, c, c.s.work.next);
      }
    }
  }

  lemma WritingIsFresh(cfg: Config, me: nat, c: Conn)
    requires ConnInv(cfg, me, c) && c.s.work.Writing?
    ensures WellFormed(c.sent) && !c.won && (c.sent != [] ==> !c.sent[|c.sent| - 1].CommitOk?)
  {
  }

  lemma PerformNames(cfg: Config, c: Conn, next: Next)
    ensures Perform(cfg, c, next).s.named == c.s.named && Fail(cfg, c).s.named == c.s.named
  {
    hide Step;
  }

  /** Every step of a connection, against any line and any broker traffic of others, keeps the agreement. */
  lemma SessionKeeps(cfg: Config, me: nat, c: Conn, e: SessionEvent)
    requires ConnInv(cfg, me, c)
    ensures var c' := SessionStep(cfg, me, c, e);
      ConnInv(cfg, me, c') && Grows(c, c') && StepSaid(cfg, c, e, c')
  {
    hide HearLine, FinishBegin, Perform, Fail, ConnInv, Grows, StepSaid, Step, Foreign, StillHeld;
    GrowsRefl(c);
    SaidNothing(cfg, c, e, c);
    match e
    case Hear(line, now) => HearLineKeeps(cfg, me, c, line, now);
    case ManifestDone(now) => if c.s.work.ManifestWork? { FinishBeginSaid(cfg, me, c, now); }
    case WriteDone(ok) => WriteDoneKeeps(cfg, me, c, ok);
    case World(event) =>
      if Foreign(c.sys, event, me) {
        WorldKeeps(cfg, me, c, event);
        SaidNothing(cfg, c, e, SessionStep(cfg, me, c, e));
      }
    case _ => EndedKeeps(cfg, me, c, e);
  }

  lemma EndedKeeps(cfg: Config, me: nat, c: Conn, e: SessionEvent)
    requires ConnInv(cfg, me, c) && (e.PeerClosed? || e.HalfClosed? || e.Flood?)
    ensures var c' := SessionStep(cfg, me, c, e);
      ConnInv(cfg, me, c') && Grows(c, c') && StepSaid(cfg, c, e, c')
  {
    hide ReleaseLease, ConnInv, Grows, StepSaid;
    GrowsRefl(c);
    SaidNothing(cfg, c, e, c);
    var s := if e.PeerClosed? then c.s else if e.HalfClosed? then c.s.(phase := Closed) else c.s.(phase := Closed, flooded := true);
    if !(e.HalfClosed? && (c.s.work != Rest || c.s.lease.None?)) && !(e.Flood? && c.s.phase != Streaming && c.s.phase != Beginning) {
      EndKeeps(cfg, me, c, s);
      ReleaseNames(cfg, c.(s := s));
      SaidNothing(cfg, c, e, SessionStep(cfg, me, c, e));
    }
  }

  lemma ReleaseNames(cfg: Config, c: Conn)
    ensures ReleaseLease(cfg, c).s == c.s.(lease := None) && ReleaseLease(cfg, c).sent == c.sent && ReleaseLease(cfg, c).won == c.won
  {
    hide Step;
  }

  /** Nothing is written after a last line. */
  lemma OnlyTheLastIsFinal(sent: seq<Out>)
    requires WellFormed(sent)
    ensures forall k :: 0 <= k < |sent| - 1 ==> !Final(sent[k])
  {
    forall k | 0 <= k < |sent| - 1
      ensures !Final(sent[k])
    {
      assert Follows(sent[k + 1 - 1], sent[k + 1]);
    }
  }

  // -------------------------------------------------- how a payload can leave

  /** Whatever was held still is, unless its record expired. */
  predicate PayloadsStay(recs: seq<Rec>, recs': seq<Rec>) {
    && |recs| <= |recs'|
    && forall i :: 0 <= i < |recs| && recs[i].plaintext.Some? ==> recs'[i].plaintext.Some? || recs'[i].state == Destroyed
  }

  lemma PayloadsStayThen(a: seq<Rec>, b: seq<Rec>, c: seq<Rec>)
    requires PayloadsStay(a, b) && PayloadsStay(b, c) && AllEvolve(b, c)
    ensures PayloadsStay(a, c)
  {
    forall i | 0 <= i < |a| && a[i].plaintext.Some?
      ensures c[i].plaintext.Some? || c[i].state == Destroyed
    {
      assert Evolves(b[i], c[i]);
    }
  }

  /** Up to expiry, touching a record takes nothing; a destroyed record stays destroyed. */
  lemma TouchStays(c: Core, id: nat, now: int)
    requires id < |c.recs|
    ensures PayloadsStay(c.recs, Touch(c, id, now).recs) && |Touch(c, id, now).recs| == |c.recs|
    ensures forall i :: 0 <= i < |c.recs| && i != id ==> Touch(c, id, now).recs[i] == c.recs[i]
    ensures Touch(c, id, now) == c || Touch(c, id, now).recs[id].state == Destroyed
  {
  }

  lemma AckStays(cfg: Config, s: Sys, e: Event)
    requires e.AckFrame? && e.id < |s.core.recs|
    ensures PayloadsStay(s.core.recs, Step(cfg, s, e).0.core.recs)
  {
    hide Touch, PayloadInv;
    TouchStays(s.core, e.id, e.now);
  }

  lemma CommitStays(cfg: Config, s: Sys, e: Event)
    requires e.CommitClaim? && e.id < |s.core.recs|
    ensures Step(cfg, s, e).1.Said? && (!Step(cfg, s, e).1.answer.Committed? ==> PayloadsStay(s.core.recs, Step(cfg, s, e).0.core.recs))
  {
    hide Touch, Retire;
    TouchStays(s.core, e.id, e.now);
  }

  lemma BeginStays(cfg: Config, s: Sys, e: Event)
    requires e.BeginClaim? && e.id < |s.core.recs|
    ensures PayloadsStay(s.core.recs, Step(cfg, s, e).0.core.recs)
  {
    hide Touch;
    TouchStays(s.core, e.id, e.now);
  }

  lemma FinishStays(cfg: Config, s: Sys, e: Event)
    requires e.BeginStep? || e.Abandon?
    ensures PayloadsStay(s.core.recs, Step(cfg, s, e).0.core.recs)
  {
  }

  /** Of the calls of a file claim, only an accepted commit takes a payload. */
  lemma CallsKeepPayloads(cfg: Config, s: Sys, e: Event)
    requires e.BeginClaim? || e.BeginStep? || e.AckFrame? || e.Abandon? || e.CommitClaim?
    requires e.CommitClaim? ==> !(Step(cfg, s, e).1.Said? && Step(cfg, s, e).1.answer.Committed?)
    ensures PayloadsStay(s.core.recs, Step(cfg, s, e).0.core.recs)
  {
    hide PayloadsStay, StepBegin, StepBegun, Ack, Commit, EndLease;
    PayloadsStayRefl(s.core.recs);
    if e.BeginStep? || e.Abandon? {
      FinishStays(cfg, s, e);
    } else if e.id < |s.core.recs| {
      if e.BeginClaim? {
        BeginStays(cfg, s, e);
      } else if e.AckFrame? {
        AckStays(cfg, s, e);
      } else {
        CommitStays(cfg, s, e);
      }
    }
  }

  lemma ReleaseStays(cfg: Config, c: Conn)
    requires SysInv(cfg, c.sys)
    ensures var c' := ReleaseLease(cfg, c); PayloadsStay(c.sys.core.recs, c'.sys.core.recs) && AllEvolve(c.sys.core.recs, c'.sys.core.recs)
  {
    hide Step, SysInv, AllEvolve, PayloadsStay, SaidInv;
    AllEvolveRefl(c.sys.core.recs);
    PayloadsStayRefl(c.sys.core.recs);
    if c.s.lease.Some? {
      var e := Abandon(c.s.lease.value.id, c.s.lease.value.transferId);
      CallsKeepPayloads(cfg, c.sys, e);
      StepKeeps(cfg, c.sys, e);
    }
  }

  /** The broker's part of closing, failing, writing and going on is at most giving a lease back. */
  lemma EndingsOnlyRelease(cfg: Config, c: Conn, out: Out, next: Next)
    ensures AnswerAndClose(cfg, c, out).sys == c.sys || AnswerAndClose(cfg, c, out).sys == ReleaseLease(cfg, c).sys
    ensures Fail(cfg, c).sys == ReleaseLease(cfg, c).sys
    ensures WriteStep(cfg, c, out, next).sys == c.sys || WriteStep(cfg, c, out, next).sys == ReleaseLease(cfg, c).sys
    ensures Perform(cfg, c, next).sys == c.sys || Perform(cfg, c, next).sys == ReleaseLease(cfg, c).sys
  {
    hide Step;
  }

  lemma PayloadsStayRefl(recs: seq<Rec>)
    ensures PayloadsStay(recs, recs)
  {
  }

  /** After a call, the connection's own ending takes nothing more. */
  lemma EndStays(cfg: Config, recs: seq<Rec>, c1: Conn, sys: Sys)
    requires SysInv(cfg, c1.sys) && PayloadsStay(recs, c1.sys.core.recs)
    requires sys == c1.sys || sys == ReleaseLease(cfg, c1).sys
    ensures PayloadsStay(recs, sys.core.recs)
  {
    hide SysInv, ReleaseLease, PayloadsStay, AllEvolve;
    ReleaseStays(cfg, c1);
    PayloadsStayRefl(recs);
    if sys != c1.sys {
      PayloadsStayThen(recs, c1.sys.core.recs, sys.core.recs);
    }
  }

  lemma BeginLineStays(cfg: Config, me: nat, c: Conn, line: Line, now: int)
    requires SysInv(cfg, c.sys) && line.BeginLine?
    ensures PayloadsStay(c.sys.core.recs, HearBegin(cfg, me, c, line.id, line.leaseMs, now).sys.core.recs)
  {
    hide SysInv, Step, ReleaseLease, PayloadsStay, AnswerAndClose, AllEvolve, SaidInv;
    PayloadsStayRefl(c.sys.core.recs);
    var c1 := c.(s := c.s.(phase := Beginning, named := Some(line.id)));
    EndingsOnlyRelease(cfg, c, Refusal(InvalidRequest), AwaitCommit);
    EndingsOnlyRelease(cfg, c1, Refusal(InvalidRequest), AwaitCommit);
    EndingsOnlyRelease(cfg, c1, Refusal(Unavailable), AwaitCommit);
    var asked := if line.leaseMs.Some? && line.leaseMs.value >= 1 then Some(line.leaseMs.value as nat) else None;
    var e := BeginClaim(line.id, me, asked, now);
    CallsKeepPayloads(cfg, c.sys, e);
    StepKeeps(cfg, c.sys, e);
    var (sys, said) := Step(cfg, c.sys, e);
    var c2 := c1.(sys := sys);
    if said.Said? {
      EndingsOnlyRelease(cfg, c2, Refusal(said.answer), AwaitCommit);
      EndStays(cfg, c.sys.core.recs, c2, AnswerAndClose(cfg, c2, Refusal(said.answer)).sys);
    }
    EndStays(cfg, c.sys.core.recs, c, AnswerAndClose(cfg, c, Refusal(InvalidRequest)).sys);
    EndStays(cfg, c.sys.core.recs, c1, AnswerAndClose(cfg, c1, Refusal(InvalidRequest)).sys);
    EndStays(cfg, c.sys.core.recs, c1, AnswerAndClose(cfg, c1, Refusal(Unavailable)).sys);
  }

  lemma AckLineStays(cfg: Config, me: nat, c: Conn, line: Line, now: int)
    requires SysInv(cfg, c.sys) && line.AckLine?
    ensures PayloadsStay(c.sys.core.recs, HearAck(cfg, me, c, line, now).sys.core.recs)
  {
    hide SysInv, Step, ReleaseLease, PayloadsStay, AnswerAndClose, WriteStep, AllEvolve, SaidInv;
    PayloadsStayRefl(c.sys.core.recs);
    if c.s.phase != AwaitingFrameAck || c.s.lease.None? {
      EndingsOnlyRelease(cfg, c, Refusal(InvalidRequest), AwaitCommit);
      EndStays(cfg, c.sys.core.recs, c, AnswerAndClose(cfg, c, Refusal(InvalidRequest)).sys);
    } else {
      var e := AckFrame(c.s.lease.value.id, line.transferId, me, line.index, line.size, line.digest, now);
      CallsKeepPayloads(cfg, c.sys, e);
      StepKeeps(cfg, c.sys, e);
      var (sys, said) := Step(cfg, c.sys, e);
      var c1 := c.(sys := sys);
      if said.Said? {
        var next := if said.answer.FrameAcked? && said.answer.next.Some? then SendHeader(said.answer.next.value) else AwaitCommit;
        var out := if said.answer.FrameAcked? then AckOk(line.index, said.answer.next) else Refusal(said.answer);
        EndingsOnlyRelease(cfg, c1, out, next);
        EndStays(cfg, c.sys.core.recs, c1, AnswerAndClose(cfg, c1, out).sys);
        EndStays(cfg, c.sys.core.recs, c1, WriteStep(cfg, c1, out, next).sys);
      }
    }
  }

  lemma CommitLineStays(cfg: Config, me: nat, c: Conn, line: Line, now: int)
    requires SysInv(cfg, c.sys) && line.CommitLine? && !c.won
    ensures var c' := HearCommit(cfg, me, c, line, now); c'.won || PayloadsStay(c.sys.core.recs, c'.sys.core.recs)
  {
    hide SysInv, Step, ReleaseLease, PayloadsStay, AllEvolve, SaidInv;
    PayloadsStayRefl(c.sys.core.recs);
    if c.s.phase != AwaitingCommit || c.s.lease.None? || line.id != c.s.lease.value.id {
      EndingsOnlyRelease(cfg, c, Refusal(InvalidRequest), AwaitCommit);
      EndStays(cfg, c.sys.core.recs, c, AnswerAndClose(cfg, c, Refusal(InvalidRequest)).sys);
    } else {
      var e := CommitClaim(c.s.lease.value.id, line.transferId, me, line.received, line.digests, now);
      StepKeeps(cfg, c.sys, e);
      var (sys, said) := Step(cfg, c.sys, e);
      var c1 := c.(sys := sys);
      if !(said.Said? && said.answer.Committed?) {
        CallsKeepPayloads(cfg, c.sys, e);
        if said.Said? {
          EndingsOnlyRelease(cfg, c1, Refusal(said.answer), AwaitCommit);
          EndStays(cfg, c.sys.core.recs, c1, AnswerAndClose(cfg, c1, Refusal(said.answer)).sys);
        }
      } else {
        CommitStaysIn(cfg, me, c, e);
        ReleaseNames(cfg, c1.(won := true, s := c1.s.(phase := Closed)));
      }
    }
  }

  lemma CommitStaysIn(cfg: Config, me: nat, c: Conn, e: Event)
    requires SysInv(cfg, c.sys) && e.CommitClaim? && Step(cfg, c.sys, e).1.Said? && Step(cfg, c.sys, e).1.answer.Committed?
    ensures RecordGone(Step(cfg, c.sys, e).0, e.id) ==> PayloadsStay(c.sys.core.recs, Step(cfg, c.sys, e).0.core.recs)
  {
    StepKeeps(cfg, c.sys, e);
    hide Step, SysInv;
  }

  lemma FinishLineStays(cfg: Config, c: Conn, now: int)
    requires SysInv(cfg, c.sys) && c.s.work.ManifestWork?
    ensures PayloadsStay(c.sys.core.recs, FinishBegin(cfg, c, now).sys.core.recs)
  {
    hide SysInv, Step, ReleaseLease, PayloadsStay, AnswerAndClose, WriteStep, AllEvolve, SaidInv;
    var e := BeginStep(c.s.work.begin, now);
    CallsKeepPayloads(cfg, c.sys, e);
    StepKeeps(cfg, c.sys, e);
    var (sys, said) := Step(cfg, c.sys, e);
    var c1 := c.(sys := sys, s := c.s.(work := Rest));
    if said.Said? && !said.answer.Began? {
      EndingsOnlyRelease(cfg, c1, Refusal(said.answer), AwaitCommit);
      EndStays(cfg, c.sys.core.recs, c1, AnswerAndClose(cfg, c1, Refusal(said.answer)).sys);
    } else if said.Said? {
      var lease := said.answer.lease;
      var c2 := c1.(s := c1.s.(lease := Some(Held(said.id, lease.transferId)), frames := said.answer.frames));
      var out := Meta(lease.transferId, lease.sizes, lease.hasPrivateText);
      EndingsOnlyRelease(cfg, c2, out, SendHeader(0));
      EndStays(cfg, c.sys.core.recs, c2, WriteStep(cfg, c2, out, SendHeader(0)).sys);
    }
  }

  /** A connection's own steps take a payload only by committing it, and lose one only to expiry. */
  lemma SessionKeepsPayloads(cfg: Config, me: nat, c: Conn, e: SessionEvent)
    requires ConnInv(cfg, me, c) && !e.World?
    ensures var c' := SessionStep(cfg, me, c, e); c'.won || PayloadsStay(c.sys.core.recs, c'.sys.core.recs)
  {
    hide SysInv, HearBegin, HearAck, HearCommit, FinishBegin, Perform, Fail, AnswerAndClose, ReleaseLease, PayloadsStay, LeaseAgreed, Suspended, Coupled, Shape, Written;
    PayloadsStayRefl(c.sys.core.recs);
    EndingsOnlyRelease(cfg, c, Refusal(InvalidRequest), if c.s.work.Writing? then c.s.work.next else AwaitCommit);
    EndStays(cfg, c.sys.core.recs, c, AnswerAndClose(cfg, c, Refusal(InvalidRequest)).sys);
    EndStays(cfg, c.sys.core.recs, c, ReleaseLease(cfg, c).sys);
    match e
    case Hear(line, now) =>
      if c.s.work == Rest && c.s.phase != Closed && !c.won {
        match line
        case BeginLine(_, _) => BeginLineStays(cfg, me, c, line, now);
        case AckLine(_, _, _, _) => AckLineStays(cfg, me, c, line, now);
        case CommitLine(_, _, _, _) => CommitLineStays(cfg, me, c, line, now);
        case OtherLine =>
      }
      WonStays(cfg, me, c, e);
    case ManifestDone(now) => if c.s.work.ManifestWork? { FinishLineStays(cfg, c, now); }
    case WriteDone(_) => if c.s.work.Writing? { EndStays(cfg, c.sys.core.recs, c, Perform(cfg, c, c.s.work.next).sys); }
    case _ =>
      ReleaseAnyway(cfg, c, c.s.(phase := Closed));
      ReleaseAnyway(cfg, c, c.s.(phase := Closed, flooded := true));
  }

  lemma WonStays(cfg: Config, me: nat, c: Conn, e: SessionEvent)
    requires ConnInv(cfg, me, c)
    ensures c.won ==> SessionStep(cfg, me, c, e).won
  {
    hide ConnInv, SessionStep, AllEvolve;
    SessionKeeps(cfg, me, c, e);
  }

  lemma ReleaseAnyway(cfg: Config, c: Conn, s: Session)
    requires s.lease == c.s.lease
    ensures ReleaseLease(cfg, c.(s := s)).sys == ReleaseLease(cfg, c).sys
  {
    hide Step;
  }
}
