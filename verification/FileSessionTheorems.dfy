/** The main results about one file-claim connection, over every run of it against every run of the broker. */
module FileSessionTheorems {
  import opened Basics
  import opened BrokerCore
  import opened BrokerSystem
  import opened BrokerInvariants
  import opened BrokerRuns
  import opened FileSession
  import opened FileSessionProofs
  import opened FileSessionRuns

  /** A fresh connection on a broker that has already run: no call was ever made with its token. */
  predicate Opened(sys: Sys, me: nat) {
    && (forall i :: 0 <= i < |sys.core.recs| ==> !Owned(sys.core.recs[i], me))
    && (forall b :: 0 <= b < |sys.begins| ==> !OwnBegin(sys.begins[b], me))
  }

  function Accept(sys: Sys): Conn {
    Conn(sys, FreshSession, [], false)
  }

  /** The connection after a run of steps, its own and everybody else's. */
  function SessionRun(cfg: Config, me: nat, sys: Sys, es: seq<SessionEvent>): Conn {
    if es == [] then Accept(sys)
    else SessionStep(cfg, me, SessionRun(cfg, me, sys, es[..|es| - 1]), es[|es| - 1])
  }

  lemma {:induction false} SessionRunKeeps(cfg: Config, me: nat, sys: Sys, es: seq<SessionEvent>)
    requires SysInv(cfg, sys) && Opened(sys, me)
    ensures ConnInv(cfg, me, SessionRun(cfg, me, sys, es))
    decreases |es|
  {
    hide SysInv, SessionStep;
    if es != [] {
      SessionRunKeeps(cfg, me, sys, es[..|es| - 1]);
      SessionKeeps(cfg, me, SessionRun(cfg, me, sys, es[..|es| - 1]), es[|es| - 1]);
    }
  }

  /**
   * The conversation and the lease never disagree: a held lease is the broker's,
   * and whenever the connection waits, it waits for exactly the frame the broker
   * expects next, with the acknowledged bytes the sum of the frames before it.
   */
  lemma ConversationCoupled(cfg: Config, me: nat, sys: Sys, es: seq<SessionEvent>)
    requires SysInv(cfg, sys) && Opened(sys, me)
    ensures var c := SessionRun(cfg, me, sys, es);
      && (forall id :: 0 <= id < |c.sys.core.recs| && Owned(c.sys.core.recs[id], me) ==>
            c.s.lease == Some(Held(id, c.sys.core.recs[id].transfer.value.transferId)))
      && (c.s.lease.Some? ==>
            && StillHeld(c.sys, c.s.lease.value, me)
            && var lease := c.sys.core.recs[c.s.lease.value.id].transfer.value;
            && lease.nextFrame <= |lease.sizes| && lease.ackedBytes == Sum(lease.sizes[..lease.nextFrame])
            && lease.sizes == Sizes(c.s.frames)
            && (c.s.work == Rest && c.s.phase == AwaitingFrameAck ==> c.s.outstanding == Some(lease.nextFrame) && lease.nextFrame < |lease.sizes|)
            && (c.s.work == Rest && c.s.phase == AwaitingCommit ==> lease.nextFrame == |lease.sizes|))
  {
    SessionRunKeeps(cfg, me, sys, es);
    var c := SessionRun(cfg, me, sys, es);
    if c.s.lease.Some? {
      assert RecInv(cfg, c.sys.core.recs[c.s.lease.value.id]);
    }
  }

  /** What is written is always a prefix of one conversation: no line ever falls between a header and its body. */
  lemma StreamIsWellFormed(cfg: Config, me: nat, sys: Sys, es: seq<SessionEvent>)
    requires SysInv(cfg, sys) && Opened(sys, me)
    ensures var c := SessionRun(cfg, me, sys, es);
      && WellFormed(c.sent)
      && (c.s.phase != Closed ==> forall k :: 0 <= k < |c.sent| ==> !Final(c.sent[k]))
  {
    hide SysInv, LeaseAgreed, Suspended, Coupled, Shape, SessionRun, Follows;
    SessionRunKeeps(cfg, me, sys, es);
    OnlyTheLastIsFinal(SessionRun(cfg, me, sys, es).sent);
  }

  /** At the broker, a commit by a lease's owner is accepted exactly on this condition. */
  lemma CommitCondition(cfg: Config, s: Sys, h: Held, me: nat, transferId: nat, received: nat, digests: seq<Digest>, now: int)
    requires SysInv(cfg, s) && StillHeld(s, h, me)
    ensures var r, lease := s.core.recs[h.id], s.core.recs[h.id].transfer.value;
      Step(cfg, s, CommitClaim(h.id, transferId, me, received, digests, now)).1.answer.Committed? <==>
        && now < r.expiresAt && transferId == lease.transferId
        && lease.nextFrame == |lease.sizes| && received == lease.totalBytes && digests == lease.digests
  {
    var r, lease := s.core.recs[h.id], s.core.recs[h.id].transfer.value;
    assert RecInv(cfg, r);
    assert lease.nextFrame == |lease.sizes| ==> lease.sizes[..lease.nextFrame] == lease.sizes;
    hide SysInv, RecInv;
    if now < r.expiresAt {
      assert Touch(s.core, h.id, now) == s.core;
    } else {
      assert Touch(s.core, h.id, now).recs[h.id].state == Destroyed;
    }
  }

  /**
   * A commit in turn retires the payload exactly when it names the held
   * transfer before the drop expires, with the container's own byte count and
   * digests. Outstanding frames, another owner and a byte count at odds with the
   * acks are never the reason for a refusal here.
   */
  lemma CommitInTurn(cfg: Config, me: nat, sys: Sys, es: seq<SessionEvent>, line: Line, now: int)
    requires SysInv(cfg, sys) && Opened(sys, me) && line.CommitLine?
    requires var c := SessionRun(cfg, me, sys, es);
      c.s.work == Rest && c.s.phase == AwaitingCommit && c.s.lease.Some? && c.s.lease.value.id == line.id
    ensures var c := SessionRun(cfg, me, sys, es);
      var c', h := SessionStep(cfg, me, c, Hear(line, now)), c.s.lease.value;
      && StillHeld(c.sys, h, me)
      && var lease := c.sys.core.recs[h.id].transfer.value;
      && (c'.won <==> now < c.sys.core.recs[h.id].expiresAt && line.transferId == h.transferId
                      && line.received == Sum(Sizes(c.s.frames)) && line.digests == Digests(cfg, c.s.frames))
      && (!c'.won ==> exists out :: AddsAtMost(c, c', out) && RefusesLine(out))
  {
    hide SysInv, ConnInv, SessionRun, HearCommit, RefusesLine, Sizes, Digests;
    SessionRunKeeps(cfg, me, sys, es);
    DecidedCommit(cfg, me, SessionRun(cfg, me, sys, es), line, now);
  }

  lemma DecidedCommit(cfg: Config, me: nat, c: Conn, line: Line, now: int)
    requires ConnInv(cfg, me, c) && MidTurn(c) && c.s.phase == AwaitingCommit && line.CommitLine? && c.s.lease.Some? && c.s.lease.value.id == line.id
    ensures var c', h := HearCommit(cfg, me, c, line, now), c.s.lease.value;
      && StillHeld(c.sys, h, me)
      && (c'.won <==> now < c.sys.core.recs[h.id].expiresAt && line.transferId == h.transferId
                      && line.received == Sum(Sizes(c.s.frames)) && line.digests == Digests(cfg, c.s.frames))
      && (!c'.won ==> exists out :: AddsAtMost(c, c', out) && RefusesLine(out))
  {
    hide SysInv, ConnInv, Step, RefusesLine, Grows, Sizes, Digests, HearCommit, CommitMatches, Spent;
    var h := c.s.lease.value;
    HeldIsLive(cfg, me, c, h);
    LeaseTotals(cfg, c.sys, h.id);
    CommitCondition(cfg, c.sys, h, me, line.transferId, line.received, line.digests, now);
    HeldCommitKeeps(cfg, me, c, h, line, now);
    CommitSets(cfg, me, c, h, line, now);
  }

  lemma LeaseTotals(cfg: Config, s: Sys, id: nat)
    requires SysInv(cfg, s) && id < |s.core.recs| && s.core.recs[id].transfer.Some?
    ensures s.core.recs[id].transfer.value.totalBytes == Sum(s.core.recs[id].transfer.value.sizes)
  {
    assert RecInv(cfg, s.core.recs[id]);
  }

  lemma CommitSets(cfg: Config, me: nat, c: Conn, h: Held, line: Line, now: int)
    requires c.s.work == Rest && c.s.phase == AwaitingCommit && c.s.lease == Some(h) && line.CommitLine? && line.id == h.id && !c.won
    requires SysInv(cfg, c.sys) && StillHeld(c.sys, h, me)
    ensures var said := Step(cfg, c.sys, CommitClaim(h.id, line.transferId, me, line.received, line.digests, now)).1;
      said.Said? && (HearCommit(cfg, me, c, line, now).won <==> said.answer.Committed?)
  {
    hide SysInv, Step, CommitOutcome, OnlyAt;
    OwnCommitCall(cfg, c.sys, h, me, line.transferId, line.received, line.digests, now);
  }
}
