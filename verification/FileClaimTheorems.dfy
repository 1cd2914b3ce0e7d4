/** The main results about a file claim, over every run: of the broker, the connection, the receiver, the spool and the policy. */
module FileClaimTheorems {
  import opened Basics
  import opened HpkeInfo
  import opened BrokerCore
  import opened BrokerSystem
  import opened BrokerInvariants
  import opened BrokerRuns
  import opened FileSession
  import opened FileSessionRuns
  import opened FileSessionTheorems
  import opened FileClaim
  import opened FileClaimRuns

  /** Where a claim may start: any broker state in which this drop holds a submitted container, and a new connection. */
  ghost predicate Startable(cfg: Config, me: nat, id: nat, payload: Bytes, sys: Sys) {
    && DigestsName(cfg) && SysInv(cfg, sys) && Opened(sys, me)
    && id < |sys.core.recs| && sys.core.recs[id].state != Pending && sys.core.recs[id].payloadKind == Files
    && sys.core.recs[id].plaintext == Some(payload)
  }

  lemma StartKeeps(cfg: Config, me: nat, id: nat, payload: Bytes, sys: Sys)
    requires Startable(cfg, me, id, payload, sys)
    ensures ClaimInv(cfg, me, id, payload, Start(sys))
  {
    assert RecInv(cfg, sys.core.recs[id]);
  }

  lemma {:induction false} ClaimRunKeeps(cfg: Config, me: nat, id: nat, payload: Bytes, sys: Sys, es: seq<ClaimEvent>)
    requires Startable(cfg, me, id, payload, sys)
    ensures ClaimInv(cfg, me, id, payload, ClaimRun(cfg, me, id, sys, es))
    decreases |es|
  {
    hide ClaimInv, ClaimStep, SysInv;
    if es == [] {
      StartKeeps(cfg, me, id, payload, sys);
    } else {
      ClaimRunKeeps(cfg, me, id, payload, sys, es[..|es| - 1]);
      ClaimStepKeeps(cfg, me, id, payload, ClaimRun(cfg, me, id, sys, es[..|es| - 1]), es[|es| - 1]);
    }
  }

  /** The files a container carries, without its private text. */
  function FilesIn(cfg: Config, payload: Bytes): seq<Bytes>
    requires cfg.decode(payload).Some?
  {
    cfg.decode(payload).value.files
  }

  lemma FilesOfFrames(p: Parsed)
    ensures FilesOf(p.text.Some?, Frames(p)) == p.files
  {
  }

  lemma DecodesToFiles(cfg: Config, me: nat, id: nat, payload: Bytes, s: Claim)
    requires ClaimInv(cfg, me, id, payload, s)
    ensures cfg.decode(payload).Some? && id < |s.conn.sys.core.recs|
    ensures s.conn.won ==> s.spool.done == FilesIn(cfg, payload) && s.conn.sys.core.recs[id].plaintext.None?
    ensures NeverWins(s.conn, s.rx) ==> !s.conn.won
  {
    FilesOfFrames(cfg.decode(payload).value);
  }

  /** Every file of the drop is somewhere on this side's disk, whole and verified. */
  predicate Kept(cfg: Config, payload: Bytes, s: Claim)
    requires cfg.decode(payload).Some?
  {
    s.spool.done == FilesIn(cfg, payload) && s.spool.missing == {} && (s.spool.node == Staged || s.spool.node == Published || s.spool.node == Quarantined)
  }

  /** What the discards under way have listed and not yet unlinked. */
  function Listed(task: Task): set<nat> {
    (if task.discard.Emptying? then task.discard.left else {}) + (if task.pc.CancelEmptying? then task.pc.left else {})
  }

  /** No discard has found the directory, so none is emptying it. */
  predicate Untouched(s: Claim) {
    s.spool.missing == {} && !s.task.discard.Emptying? && !s.task.pc.CancelEmptying?
  }

  /** Every file has been unlinked, or a discard that is under way has it on its list. */
  predicate Doomed(s: Claim) {
    Covers(s.spool, Listed(s.task))
  }

  lemma TouchedIsDoomed(s: Claim)
    requires DiscardInv(s.spool, s.task, s.notes)
    ensures if s.notes.listed then Doomed(s) else Untouched(s) && s.spool.node != Removed
  {
  }

  /**
   * No loss. At every moment of every run the broker still has the payload, or
   * this side has every file, or somebody else or the drop's expiry took it; the
   * one exception is a hold that failed or was cut off by a cancellation.
   */
  lemma NoLoss(cfg: Config, me: nat, id: nat, payload: Bytes, sys: Sys, es: seq<ClaimEvent>)
    requires Startable(cfg, me, id, payload, sys)
    ensures cfg.decode(payload).Some?
    ensures var s := ClaimRun(cfg, me, id, sys, es);
      && id < |s.conn.sys.core.recs|
      && (|| s.conn.sys.core.recs[id].plaintext == Some(payload)
          || (s.conn.won && Kept(cfg, payload, s))
          || (s.conn.won && Doomed(s) && (s.notes.holdFailed || s.notes.holdCancelled))
          || s.notes.takenByOthers || s.conn.sys.core.recs[id].state == Destroyed)
  {
    hide ConnInv, LinesInv, RxInv, AlignInv, StagedInv, WonInv, VerdictInv, ClaimRun, DiscardInv, Doomed, Untouched;
    var s := ClaimRun(cfg, me, id, sys, es);
    ClaimRunKeeps(cfg, me, id, payload, sys, es);
    DecodesToFiles(cfg, me, id, payload, s);
    TouchedIsDoomed(s);
    assert s.conn.won ==> s.rx.commitWritten by {
      WonIsWritten(cfg, me, id, payload, s);
    }
  }

  lemma WonIsWritten(cfg: Config, me: nat, id: nat, payload: Bytes, s: Claim)
    requires ClaimInv(cfg, me, id, payload, s)
    ensures s.conn.won ==> s.rx.commitWritten && s.spool.node != NoDirectory
  {
  }

  /**
   * Verdicts are sound, when they are given and at every later moment:
   * `retry_safe` means this attempt did not and will not retire the payload; `ok`
   * and `mark_spent` mean the broker no longer holds it; the two are never said
   * together; and `transfer_indeterminate` needs a written commit or a fault.
   */
  lemma VerdictsAreSound(cfg: Config, me: nat, id: nat, payload: Bytes, sys: Sys, es: seq<ClaimEvent>)
    requires Startable(cfg, me, id, payload, sys)
    requires ClaimRun(cfg, me, id, sys, es).task.pc.Returned?
    ensures var s := ClaimRun(cfg, me, id, sys, es);
      var v := s.task.pc.verdict;
      && id < |s.conn.sys.core.recs|
      && (RetrySafe(v) ==> !s.conn.won)
      && (v == Ok || MarkSpent(v) ==> s.conn.sys.core.recs[id].plaintext.None?)
      && !(RetrySafe(v) && MarkSpent(v))
      && (v == Refused(SpoolPublishFailed) ==> s.conn.won)
      && (v == Refused(Indeterminate) ==> s.rx.commitWritten || s.notes.faulted)
  {
    hide ConnInv, LinesInv, RxInv, AlignInv, StagedInv, WonInv, ConnTruth, LossInv, SpoolInv, ClaimRun;
    var s := ClaimRun(cfg, me, id, sys, es);
    ClaimRunKeeps(cfg, me, id, payload, sys, es);
    DecodesToFiles(cfg, me, id, payload, s);
  }

  lemma FlagsOf(spool: Spool, task: Task, notes: Notes)
    requires SpoolInv(spool, task) && DiscardInv(spool, task, notes)
    ensures spool.node == Published ==> task.publish != Unstarted && !notes.holdCancelled
    ensures task.pc == Returned(Ok) ==> spool.node == Published && !notes.listed
  {
  }

  /**
   * Whatever is published is the whole drop, committed, and no file of it is
   * ever removed again unless a hold's rename was refused before. An `ok` claim is
   * published, and nobody has touched a file of it.
   */
  lemma PublishedIsTheDrop(cfg: Config, me: nat, id: nat, payload: Bytes, sys: Sys, es: seq<ClaimEvent>)
    requires Startable(cfg, me, id, payload, sys)
    ensures cfg.decode(payload).Some?
    ensures var s := ClaimRun(cfg, me, id, sys, es);
      && (s.spool.node == Published ==> s.conn.won && s.spool.done == FilesIn(cfg, payload))
      && (s.spool.node == Published ==> Untouched(s) || (Doomed(s) && s.notes.holdFailed))
      && (s.task.pc == Returned(Ok) ==> s.spool.node == Published && Untouched(s))
  {
    hide ConnInv, LinesInv, RxInv, AlignInv, StagedInv, WonInv, ConnTruth, ClaimRun, SpoolInv, DiscardInv, Untouched, Doomed;
    var s := ClaimRun(cfg, me, id, sys, es);
    ClaimRunKeeps(cfg, me, id, payload, sys, es);
    DecodesToFiles(cfg, me, id, payload, s);
    FlagsOf(s.spool, s.task, s.notes);
    TouchedIsDoomed(s);
  }

  /** The cross-check never turns down a committed transfer: a publish is only ever given up after its own rename did not happen. */
  lemma CrossCheckNeverRefuses(cfg: Config, me: nat, id: nat, payload: Bytes, sys: Sys, es: seq<ClaimEvent>)
    requires Startable(cfg, me, id, payload, sys)
    ensures var s := ClaimRun(cfg, me, id, sys, es);
      s.task.pc.Holding? && s.task.pc.hold == OnPublish ==> s.task.publish == Failed && s.conn.won
  {
    hide ConnInv, LinesInv, RxInv, AlignInv, StagedInv, WonInv, ConnTruth, LossInv, ClaimRun;
    ClaimRunKeeps(cfg, me, id, payload, sys, es);
  }
}
