/**
 * What loses the files of a committed claim: told from the events of the run and
 * the order they came in, not from where the directory ended up.
 */
module FileClaimCauses {
  import opened Basics
  import opened HpkeInfo
  import opened BrokerCore
  import opened BrokerSystem
  import opened FileSession
  import opened FileSessionRuns
  import opened FileClaim
  import opened FileClaimRuns
  import opened FileClaimTheorems

  // ---------------------------------------------------------------------- events

  /** A quarantining rename is tried while the directory is staged, and refused. */
  predicate RefusesHold(s: Claim, e: ClaimEvent) {
    && s.spool.node == Staged && !s.spool.published && !s.spool.quarantined && !s.spool.released
    && ((e == OfThread(HoldRename(false)) && s.task.hold == Running) || (e == OfTask(CancelHold(false)) && s.task.pc == CancelRename))
  }

  /** A publishing or quarantining rename goes through. */
  predicate Lands(s: Claim, e: ClaimEvent) {
    && s.spool.node == Staged
    && (|| (e == OfThread(PublishRename(true)) && s.task.publish == Running && s.spool.done != [] && s.spool.part.None?)
        || (e == OfThread(HoldRename(true)) && s.task.hold == Running && !s.spool.published && !s.spool.quarantined && !s.spool.released)
        || (e == OfTask(CancelHold(true)) && s.task.pc == CancelRename && !s.spool.published && !s.spool.quarantined && !s.spool.released))
  }

  /** A cancellation lands while the policy awaits a hold outside the publish: nobody handles it. */
  predicate CutsHold(s: Claim, e: ClaimEvent) {
    e == OfTask(Cancel) && s.task.pc.Holding? && (s.task.pc.hold == OnRefusal || s.task.pc.hold == OnFault)
  }

  /** The worker thread of a hold gets to its rename. */
  predicate HoldTries(s: Claim, e: ClaimEvent) {
    e.OfThread? && e.thread.HoldRename? && s.task.hold == Running
  }

  /** The cancelled claim's context manager goes to discard the staging directory. */
  predicate ExitDiscards(s: Claim, e: ClaimEvent) {
    e == OfTask(Discarding) && s.task.pc.CancelDiscard?
  }

  /** A discard, on the way out or in a worker thread, looks for the directory. */
  predicate Seeks(s: Claim, e: ClaimEvent) {
    ExitDiscards(s, e) || (e == OfThread(ClearLook) && s.task.discard == Asked)
  }

  /** It finds it in its place, and lists it. */
  predicate Opens(s: Claim, e: ClaimEvent) {
    Seeks(s, e) && s.spool.node == Staged
  }

  /** The state the `k`th event of a run met. */
  function Met(cfg: Config, me: nat, id: nat, sys: Sys, es: seq<ClaimEvent>, k: nat): Claim
    requires k < |es|
  {
    ClaimRun(cfg, me, id, sys, es[..k])
  }

  /** A cancelled hold: the discard on the way out came before the hold's thread got to its rename. */
  predicate CutShort(cfg: Config, me: nat, id: nat, sys: Sys, es: seq<ClaimEvent>) {
    exists k, m :: 0 <= k < m < |es|
      && CutsHold(Met(cfg, me, id, sys, es, k), es[k]) && ExitDiscards(Met(cfg, me, id, sys, es, m), es[m])
      && forall x :: 0 <= x < m ==> !HoldTries(Met(cfg, me, id, sys, es, x), es[x])
  }

  /** A hold's rename was refused, and a discard looked for the directory before a rename of either kind went through. */
  predicate RefusedThenSought(cfg: Config, me: nat, id: nat, sys: Sys, es: seq<ClaimEvent>) {
    exists k, m :: 0 <= k < m < |es|
      && RefusesHold(Met(cfg, me, id, sys, es, k), es[k]) && Seeks(Met(cfg, me, id, sys, es, m), es[m])
      && forall x :: k < x < m ==> !Lands(Met(cfg, me, id, sys, es, x), es[x])
  }

  // ---------------------------------------------------------------- runs, one event longer

  lemma LastStep(cfg: Config, me: nat, id: nat, sys: Sys, es: seq<ClaimEvent>, n: nat)
    requires n < |es|
    ensures ClaimRun(cfg, me, id, sys, es[..n + 1]) == ClaimStep(cfg, me, id, Met(cfg, me, id, sys, es, n), es[n])
  {
    hide ClaimStep;
    assert es[..n + 1][..n] == es[..n];
  }

  /** Nothing but a rename moves a staged directory, and nothing brings one back. */
  predicate Moves(s: Claim, s': Claim, e: ClaimEvent) {
    && (s.spool.node == Published || s.spool.node == Quarantined ==> s'.spool.node == s.spool.node)
    && (s.spool.node == Removed ==> s'.spool.node == Removed)
    && (s'.spool.node == Published || s'.spool.node == Quarantined ==> s.spool.node == s'.spool.node || Lands(s, e))
    && (Lands(s, e) ==> s'.spool.node == Published || s'.spool.node == Quarantined)
    && (s'.notes.holdFailed ==> s.notes.holdFailed || RefusesHold(s, e))
    && (s'.notes.listed <==> s.notes.listed || Opens(s, e))
    && (s'.notes.holdCancelled ==> s.notes.holdCancelled || (ExitDiscards(s, e) && s.task.pc.exit == InHold && s.spool.node == Staged))
  }

  lemma StepMoves(cfg: Config, me: nat, id: nat, s: Claim, e: ClaimEvent)
    requires SpoolInv(s.spool, s.task)
    ensures Moves(s, ClaimStep(cfg, me, id, s, e), e)
  {
    hide SessionStep, ReceiverStep, ThreadStep, TaskStep;
    match e
    case OfSession(_) =>
    case Deliver(_) =>
    case OfReceiver(r) => ReceiverMoves(cfg, id, s, r);
    case OfThread(thread) => ThreadMoves(s, thread);
    case OfTask(task) => TaskMoves(s, task);
  }

  lemma ThreadMoves(s: Claim, e: ThreadEvent)
    requires SpoolInv(s.spool, s.task)
    ensures Moves(s, ThreadStep(s, e), OfThread(e))
  {
  }

  lemma TaskMoves(s: Claim, e: TaskEvent)
    requires SpoolInv(s.spool, s.task)
    ensures Moves(s, TaskStep(s, e), OfTask(e))
  {
  }

  lemma ReceiverMoves(cfg: Config, id: nat, s: Claim, r: ReceiverEvent)
    ensures var s' := ReceiverStep(cfg, id, s, r);
      s'.spool.node == s.spool.node && s'.spool.published == s.spool.published && s'.notes == s.notes.(faulted := s'.notes.faulted)
  {
    hide CrossCheck;
  }

  /** The policy of a claim whose hold is, or was being, awaited outside the publish. */
  predicate InBareHold(pc: Pc) {
    (pc.Holding? && pc.hold != OnPublish) || CutPc(pc)
  }

  /** While its thread has not got to the rename, such a hold has its directory before it. */
  predicate HoldStands(s: Claim) {
    InBareHold(s.task.pc) ==>
      && s.task.publish == Unstarted && s.task.hold != Unstarted
      && (s.task.hold == Running ==> s.task.discard == Unasked && s.spool.node == Staged && !s.spool.published && !s.spool.quarantined && !s.spool.released)
  }

  /** How the policy gets into a cut hold, and out of it. */
  predicate Turns(s: Claim, s': Claim, e: ClaimEvent) {
    && (HoldStands(s) ==> HoldStands(s'))
    && (CutPc(s'.task.pc) ==> CutPc(s.task.pc) || CutsHold(s, e))
    && (CutPc(s.task.pc) || CutsHold(s, e) ==> CutPc(s'.task.pc) || s'.task.pc.Returned?)
    && (s.task.pc.Returned? ==> s'.task.pc.Returned?)
    && (Waiting(s'.task.hold) <==> Waiting(s.task.hold) && !HoldTries(s, e))
  }

  /** The hold's thread has not got to its rename. */
  predicate Waiting(hold: Thread) {
    hold == Unstarted || hold == Running
  }

  lemma StepTurns(cfg: Config, me: nat, id: nat, s: Claim, e: ClaimEvent)
    requires SpoolInv(s.spool, s.task) && DiscardInv(s.spool, s.task, s.notes)
    ensures Turns(s, ClaimStep(cfg, me, id, s, e), e)
  {
    hide SessionStep, ReceiverStep, ThreadStep, TaskStep;
    match e
    case OfSession(_) =>
    case Deliver(_) =>
    case OfReceiver(r) => ReceiverTurns(cfg, id, s, r);
    case OfThread(thread) => ThreadTurns(s, thread);
    case OfTask(task) => TaskTurns(s, task);
  }

  lemma ThreadTurns(s: Claim, e: ThreadEvent)
    requires SpoolInv(s.spool, s.task) && DiscardInv(s.spool, s.task, s.notes)
    ensures Turns(s, ThreadStep(s, e), OfThread(e))
  {
  }

  lemma TaskTurns(s: Claim, e: TaskEvent)
    requires SpoolInv(s.spool, s.task) && DiscardInv(s.spool, s.task, s.notes)
    ensures Turns(s, TaskStep(s, e), OfTask(e))
  {
  }

  lemma ReceiverTurns(cfg: Config, id: nat, s: Claim, r: ReceiverEvent)
    requires SpoolInv(s.spool, s.task) && DiscardInv(s.spool, s.task, s.notes)
    ensures Turns(s, ReceiverStep(cfg, id, s, r), OfReceiver(r))
  {
    hide CrossCheck;
  }

  // ---------------------------------------------------------------- what a run's past says

  predicate NothingLanded(cfg: Config, me: nat, id: nat, sys: Sys, es: seq<ClaimEvent>, n: nat) {
    forall x :: 0 <= x < n && x < |es| ==> !Lands(Met(cfg, me, id, sys, es, x), es[x])
  }

  predicate SomethingLanded(cfg: Config, me: nat, id: nat, sys: Sys, es: seq<ClaimEvent>, n: nat) {
    exists x :: 0 <= x < n && x < |es| && Lands(Met(cfg, me, id, sys, es, x), es[x])
  }

  predicate HoldRefused(cfg: Config, me: nat, id: nat, sys: Sys, es: seq<ClaimEvent>, n: nat) {
    exists k :: 0 <= k < n && k < |es| && RefusesHold(Met(cfg, me, id, sys, es, k), es[k])
  }

  predicate HoldCut(cfg: Config, me: nat, id: nat, sys: Sys, es: seq<ClaimEvent>, n: nat) {
    exists k :: 0 <= k < n && k < |es| && CutsHold(Met(cfg, me, id, sys, es, k), es[k])
  }

  /** The exit's discard of a cut hold found the directory still staged. */
  predicate CutDiscarded(cfg: Config, me: nat, id: nat, sys: Sys, es: seq<ClaimEvent>, n: nat) {
    exists m :: 0 <= m < n && m < |es| && var s := Met(cfg, me, id, sys, es, m); ExitDiscards(s, es[m]) && s.task.pc.exit == InHold && s.spool.node == Staged
  }

  /** A discard found the directory in its place. */
  predicate SomethingOpened(cfg: Config, me: nat, id: nat, sys: Sys, es: seq<ClaimEvent>, n: nat) {
    exists m :: 0 <= m < n && m < |es| && Opens(Met(cfg, me, id, sys, es, m), es[m])
  }

  predicate NobodyTried(cfg: Config, me: nat, id: nat, sys: Sys, es: seq<ClaimEvent>, n: nat) {
    forall x :: 0 <= x < n && x < |es| ==> !HoldTries(Met(cfg, me, id, sys, es, x), es[x])
  }

  predicate Past(cfg: Config, me: nat, id: nat, sys: Sys, es: seq<ClaimEvent>, n: nat, s: Claim) {
    && HoldStands(s)
    && (s.spool.node == Published || s.spool.node == Quarantined || NothingLanded(cfg, me, id, sys, es, n))
    && (s.spool.node == Published || s.spool.node == Quarantined ==> SomethingLanded(cfg, me, id, sys, es, n))
    && (s.notes.listed <==> SomethingOpened(cfg, me, id, sys, es, n))
    && (s.notes.holdFailed ==> HoldRefused(cfg, me, id, sys, es, n))
    && (s.notes.holdCancelled ==> CutDiscarded(cfg, me, id, sys, es, n))
    && (CutPc(s.task.pc) ==> HoldCut(cfg, me, id, sys, es, n))
    && (Waiting(s.task.hold) <==> NobodyTried(cfg, me, id, sys, es, n))
  }

  lemma PastGrows(cfg: Config, me: nat, id: nat, sys: Sys, es: seq<ClaimEvent>, n: nat, s: Claim, s': Claim)
    requires n < |es| && s == Met(cfg, me, id, sys, es, n) && Past(cfg, me, id, sys, es, n, s) && Moves(s, s', es[n]) && Turns(s, s', es[n])
    ensures Past(cfg, me, id, sys, es, n + 1, s')
  {
    hide Met, RefusesHold, Lands, CutsHold, ExitDiscards, Opens, HoldTries, HoldStands;
  }

  lemma {:induction false} PastHolds(cfg: Config, me: nat, id: nat, payload: Bytes, sys: Sys, es: seq<ClaimEvent>, n: nat)
    requires Startable(cfg, me, id, payload, sys) && n <= |es|
    ensures Past(cfg, me, id, sys, es, n, ClaimRun(cfg, me, id, sys, es[..n]))
  {
    hide ClaimStep, Startable, ClaimInv, Moves, Turns, Past;
    if n == 0 {
      NoPast(cfg, me, id, sys, es);
    } else {
      PastHolds(cfg, me, id, payload, sys, es, n - 1);
      var s := Met(cfg, me, id, sys, es, n - 1);
      ClaimRunKeeps(cfg, me, id, payload, sys, es[..n - 1]);
      SpoolOf(cfg, me, id, payload, s);
      StepMoves(cfg, me, id, s, es[n - 1]);
      StepTurns(cfg, me, id, s, es[n - 1]);
      LastStep(cfg, me, id, sys, es, n - 1);
      PastGrows(cfg, me, id, sys, es, n - 1, s, ClaimRun(cfg, me, id, sys, es[..n]));
    }
  }

  lemma NoPast(cfg: Config, me: nat, id: nat, sys: Sys, es: seq<ClaimEvent>)
    ensures Past(cfg, me, id, sys, es, 0, ClaimRun(cfg, me, id, sys, es[..0]))
  {
    assert es[..0] == [];
  }

  lemma SpoolOf(cfg: Config, me: nat, id: nat, payload: Bytes, s: Claim)
    requires ClaimInv(cfg, me, id, payload, s)
    ensures SpoolInv(s.spool, s.task) && DiscardInv(s.spool, s.task, s.notes)
  {
  }

  // ---------------------------------------------------------------- the main results

  /** No hold's rename is refused while the directory is staged, and no cancellation lands in a hold nobody guards. */
  predicate Untroubled(cfg: Config, me: nat, id: nat, sys: Sys, es: seq<ClaimEvent>) {
    && (forall k :: 0 <= k < |es| ==> !RefusesHold(Met(cfg, me, id, sys, es, k), es[k]))
    && (forall k :: 0 <= k < |es| ==> !CutsHold(Met(cfg, me, id, sys, es, k), es[k]))
  }

  /** In an untroubled run no file is ever lost: the broker has the payload, or this side has every file, or others or expiry took it. */
  lemma UntroubledRunsKeep(cfg: Config, me: nat, id: nat, payload: Bytes, sys: Sys, es: seq<ClaimEvent>)
    requires Startable(cfg, me, id, payload, sys) && Untroubled(cfg, me, id, sys, es)
    ensures cfg.decode(payload).Some?
    ensures var s := ClaimRun(cfg, me, id, sys, es);
      && id < |s.conn.sys.core.recs|
      && (|| s.conn.sys.core.recs[id].plaintext == Some(payload)
          || (s.conn.won && Kept(cfg, payload, s))
          || s.notes.takenByOthers || s.conn.sys.core.recs[id].state == Destroyed)
  {
    hide ClaimRun, Met, RefusesHold, CutsHold, HoldTries, Lands, Startable, HoldStands, Kept;
    NoLoss(cfg, me, id, payload, sys, es);
    assert es[..|es|] == es;
    PastHolds(cfg, me, id, payload, sys, es, |es|);
    var s := ClaimRun(cfg, me, id, sys, es);
    if s.notes.holdCancelled {
      var m :| 0 <= m < |es| && var t := Met(cfg, me, id, sys, es, m); ExitDiscards(t, es[m]) && t.task.pc.exit == InHold && t.spool.node == Staged;
      MetPast(cfg, me, id, payload, sys, es, m);
    }
  }

  lemma MetPast(cfg: Config, me: nat, id: nat, payload: Bytes, sys: Sys, es: seq<ClaimEvent>, m: nat)
    requires Startable(cfg, me, id, payload, sys) && m < |es|
    ensures Past(cfg, me, id, sys, es, m, Met(cfg, me, id, sys, es, m))
    ensures ClaimInv(cfg, me, id, payload, Met(cfg, me, id, sys, es, m))
  {
    hide Past, ClaimInv, ClaimRun, Startable;
    PastHolds(cfg, me, id, payload, sys, es, m);
    ClaimRunKeeps(cfg, me, id, payload, sys, es[..m]);
  }

  /** Once a hold is cut, the policy only goes on to its end. */
  lemma {:induction false} AfterCut(cfg: Config, me: nat, id: nat, payload: Bytes, sys: Sys, es: seq<ClaimEvent>, k: nat, n: nat)
    requires Startable(cfg, me, id, payload, sys) && k < n <= |es| && CutsHold(Met(cfg, me, id, sys, es, k), es[k])
    ensures var s := ClaimRun(cfg, me, id, sys, es[..n]); CutPc(s.task.pc) || s.task.pc.Returned?
  {
    hide ClaimStep, Startable, ClaimInv, ClaimRun, CutsHold, HoldStands, HoldTries;
    var s := Met(cfg, me, id, sys, es, n - 1);
    MetPast(cfg, me, id, payload, sys, es, n - 1);
    SpoolOf(cfg, me, id, payload, s);
    StepTurns(cfg, me, id, s, es[n - 1]);
    LastStep(cfg, me, id, sys, es, n - 1);
    if k < n - 1 {
      AfterCut(cfg, me, id, payload, sys, es, k, n - 1);
    }
  }

  /** A hold that was cut before its rename has its directory emptied. */
  lemma CutLoses(cfg: Config, me: nat, id: nat, payload: Bytes, sys: Sys, es: seq<ClaimEvent>)
    requires Startable(cfg, me, id, payload, sys) && CutShort(cfg, me, id, sys, es)
    ensures SomethingOpened(cfg, me, id, sys, es, |es|)
  {
    hide Startable, ClaimInv, ClaimRun, CutsHold, HoldTries;
    var k, m :| 0 <= k < m < |es|
      && CutsHold(Met(cfg, me, id, sys, es, k), es[k]) && ExitDiscards(Met(cfg, me, id, sys, es, m), es[m])
      && forall x :: 0 <= x < m ==> !HoldTries(Met(cfg, me, id, sys, es, x), es[x]);
    AfterCut(cfg, me, id, payload, sys, es, k, m);
    MetPast(cfg, me, id, payload, sys, es, m);
    assert Opens(Met(cfg, me, id, sys, es, m), es[m]);
  }

  lemma SoughtIsThere(cfg: Config, me: nat, id: nat, payload: Bytes, s: Claim, e: ClaimEvent)
    requires ClaimInv(cfg, me, id, payload, s) && Seeks(s, e)
    ensures s.spool.node != NoDirectory && (s.spool.node == Removed ==> s.notes.listed)
  {
    hide ConnInv, LinesInv, RxInv, AlignInv, StagedInv, WonInv, VerdictInv, ConnTruth;
  }

  /** A discard that looked while nothing had been renamed found the directory, or another had removed it. */
  lemma RefusedLoses(cfg: Config, me: nat, id: nat, payload: Bytes, sys: Sys, es: seq<ClaimEvent>)
    requires Startable(cfg, me, id, payload, sys) && RefusedThenSought(cfg, me, id, sys, es)
    ensures SomethingOpened(cfg, me, id, sys, es, |es|)
  {
    hide ClaimRun, Startable, ClaimInv, Met, HoldTries, CutsHold, HoldStands, Seeks;
    var k, m :| 0 <= k < m < |es|
      && RefusesHold(Met(cfg, me, id, sys, es, k), es[k]) && Seeks(Met(cfg, me, id, sys, es, m), es[m])
      && forall x :: k < x < m ==> !Lands(Met(cfg, me, id, sys, es, x), es[x]);
    MetPast(cfg, me, id, payload, sys, es, k);
    MetPast(cfg, me, id, payload, sys, es, m);
    assert NothingLanded(cfg, me, id, sys, es, m);
    SoughtIsThere(cfg, me, id, payload, Met(cfg, me, id, sys, es, m), es[m]);
    assert Met(cfg, me, id, sys, es, m).spool.node == Staged ==> Opens(Met(cfg, me, id, sys, es, m), es[m]);
  }

  // ------------------------------------------------------------ what never wins never will

  lemma StepNeverWins(cfg: Config, me: nat, id: nat, payload: Bytes, s: Claim, e: ClaimEvent)
    requires DigestsName(cfg) && ClaimInv(cfg, me, id, payload, s) && NeverWins(s.conn, s.rx)
    ensures var s' := ClaimStep(cfg, me, id, s, e); NeverWins(s'.conn, s'.rx)
  {
    hide ConnInv, ConnTruth, LinesInv, RxInv, AlignInv, StagedInv, WonInv, SpoolInv, DiscardInv, LossInv, VerdictInv, PayloadAccounted, SessionStep, ReceiverStep, ThreadStep, TaskStep, StepSaid, Grows, Refusing;
    match e
    case OfSession(session) =>
      SessionKeeps(cfg, me, s.conn, session);
      RefusingStays(cfg, me, s.conn, SessionStep(cfg, me, s.conn, session));
    case Deliver(now) =>
      if s.wire.taken < |s.wire.lines| {
        SessionKeeps(cfg, me, s.conn, Hear(s.wire.lines[s.wire.taken], now));
        RefusingStays(cfg, me, s.conn, SessionStep(cfg, me, s.conn, Hear(s.wire.lines[s.wire.taken], now)));
      }
    case OfReceiver(r) => ReceiverConn(cfg, id, s, r);
    case OfThread(thread) => ThreadConn(s, thread);
    case OfTask(task) => TaskRx(s, task);
  }

  lemma ReceiverConn(cfg: Config, id: nat, s: Claim, r: ReceiverEvent)
    ensures var s' := ReceiverStep(cfg, id, s, r); s'.conn == s.conn && (s.rx.at == RxDone ==> s' == s)
  {
    hide CrossCheck;
  }

  lemma ThreadConn(s: Claim, e: ThreadEvent)
    ensures var s' := ThreadStep(s, e); s'.conn == s.conn && s'.rx == s.rx
  {
  }

  lemma {:induction false} StillNeverWins(cfg: Config, me: nat, id: nat, payload: Bytes, sys: Sys, es: seq<ClaimEvent>, m: nat, n: nat)
    requires Startable(cfg, me, id, payload, sys) && m <= n <= |es|
    requires var s := ClaimRun(cfg, me, id, sys, es[..m]); NeverWins(s.conn, s.rx)
    ensures var s := ClaimRun(cfg, me, id, sys, es[..n]); NeverWins(s.conn, s.rx) && !s.conn.won
  {
    hide ClaimStep, ClaimInv, ClaimRun, NeverWins;
    ClaimRunKeeps(cfg, me, id, payload, sys, es[..n]);
    if m < n {
      StillNeverWins(cfg, me, id, payload, sys, es, m, n - 1);
      ClaimRunKeeps(cfg, me, id, payload, sys, es[..n - 1]);
      StepNeverWins(cfg, me, id, payload, ClaimRun(cfg, me, id, sys, es[..n - 1]), es[n - 1]);
      LastStep(cfg, me, id, sys, es, n - 1);
    }
    DecodesToFiles(cfg, me, id, payload, ClaimRun(cfg, me, id, sys, es[..n]));
  }

  // ---------------------------------------------------------------- why it was listed

  /** A directory that is staged when a cut hold's discard finds it has had no rename tried on it, or one that was refused. */
  lemma OpenedBecause(cfg: Config, me: nat, id: nat, payload: Bytes, s: Claim, e: ClaimEvent)
    requires ClaimInv(cfg, me, id, payload, s) && HoldStands(s) && Opens(s, e)
    ensures NeverWins(s.conn, s.rx) || s.notes.holdFailed || (ExitDiscards(s, e) && CutPc(s.task.pc) && Waiting(s.task.hold))
  {
    hide ConnInv, LinesInv, RxInv, AlignInv, StagedInv, WonInv, VerdictInv, ConnTruth, NeverWins;
  }

  lemma OpenedHasCause(cfg: Config, me: nat, id: nat, payload: Bytes, sys: Sys, es: seq<ClaimEvent>)
    requires Startable(cfg, me, id, payload, sys)
    requires SomethingOpened(cfg, me, id, sys, es, |es|) && ClaimRun(cfg, me, id, sys, es).conn.won
    ensures CutShort(cfg, me, id, sys, es) || RefusedThenSought(cfg, me, id, sys, es)
  {
    hide ClaimRun, Startable, ClaimInv, RefusesHold, Lands, CutsHold, HoldTries, NeverWins, ExitDiscards, HoldStands;
    assert es[..|es|] == es;
    var m :| 0 <= m < |es| && Opens(Met(cfg, me, id, sys, es, m), es[m]);
    var t := Met(cfg, me, id, sys, es, m);
    MetPast(cfg, me, id, payload, sys, es, m);
    OpenedBecause(cfg, me, id, payload, t, es[m]);
    if NeverWins(t.conn, t.rx) {
      StillNeverWins(cfg, me, id, payload, sys, es, m, |es|);
    } else if t.notes.holdFailed {
      assert HoldRefused(cfg, me, id, sys, es, m) && NothingLanded(cfg, me, id, sys, es, m);
    }
  }

  // ---------------------------------------------------------------- exactly when

  /** A committed claim that has ended has its files in one of the two places a rename takes them, unless a discard found them. */
  lemma EndedIsSettled(cfg: Config, me: nat, id: nat, payload: Bytes, s: Claim)
    requires ClaimInv(cfg, me, id, payload, s) && s.task.pc.Returned? && s.conn.won
    ensures cfg.decode(payload).Some?
    ensures if s.notes.listed then Doomed(s) else Untouched(s) && Kept(cfg, payload, s) && (s.spool.node == Published || s.spool.node == Quarantined)
  {
    hide ConnInv, LinesInv, RxInv, AlignInv, StagedInv, WonInv, VerdictInv, ConnTruth, ClaimRun, DiscardInv, Doomed;
    DecodesToFiles(cfg, me, id, payload, s);
    WonIsWritten(cfg, me, id, payload, s);
    TouchedIsDoomed(s);
  }

  /**
   * When a committed claim loses its files. If a cancellation landed in a hold
   * awaited outside the publish and the discard on the way out came before that
   * hold's thread got to its rename, or a hold's rename was refused and a discard
   * looked for the directory before any rename went through, then every file has
   * been unlinked or is on the list of a discard still under way, wherever the
   * directory is. Otherwise every file is published or quarantined, whole, and no
   * discard is after it.
   */
  lemma FilesAreLostIff(cfg: Config, me: nat, id: nat, payload: Bytes, sys: Sys, es: seq<ClaimEvent>)
    requires Startable(cfg, me, id, payload, sys)
    requires ClaimRun(cfg, me, id, sys, es).task.pc.Returned? && ClaimRun(cfg, me, id, sys, es).conn.won
    ensures cfg.decode(payload).Some?
    ensures var s := ClaimRun(cfg, me, id, sys, es);
      if CutShort(cfg, me, id, sys, es) || RefusedThenSought(cfg, me, id, sys, es) then Doomed(s)
      else Untouched(s) && Kept(cfg, payload, s) && (s.spool.node == Published || s.spool.node == Quarantined)
  {
    hide ClaimRun, Startable, ClaimInv, CutShort, RefusedThenSought, Kept, SomethingOpened, HoldStands, Doomed, Untouched;
    var s := ClaimRun(cfg, me, id, sys, es);
    assert es[..|es|] == es;
    ClaimRunKeeps(cfg, me, id, payload, sys, es);
    PastHolds(cfg, me, id, payload, sys, es, |es|);
    EndedIsSettled(cfg, me, id, payload, s);
    if s.notes.listed {
      OpenedHasCause(cfg, me, id, payload, sys, es);
    }
    if CutShort(cfg, me, id, sys, es) {
      CutLoses(cfg, me, id, payload, sys, es);
    }
    if RefusedThenSought(cfg, me, id, sys, es) {
      RefusedLoses(cfg, me, id, payload, sys, es);
    }
  }

  /** A published drop is whole, and stays so, exactly if no discard found its directory before the rename that published it. */
  lemma PublishedIsWholeIff(cfg: Config, me: nat, id: nat, payload: Bytes, sys: Sys, es: seq<ClaimEvent>)
    requires Startable(cfg, me, id, payload, sys) && ClaimRun(cfg, me, id, sys, es).spool.node == Published
    ensures var s := ClaimRun(cfg, me, id, sys, es);
      if SomethingOpened(cfg, me, id, sys, es, |es|) then Doomed(s) else Untouched(s)
  {
    hide ClaimRun, Startable, SomethingOpened, HoldStands, Doomed, Untouched, ConnInv, LinesInv, RxInv, AlignInv, StagedInv, WonInv, VerdictInv, ConnTruth, SpoolInv, LossInv, DiscardInv;
    var s := ClaimRun(cfg, me, id, sys, es);
    assert es[..|es|] == es;
    ClaimRunKeeps(cfg, me, id, payload, sys, es);
    PastHolds(cfg, me, id, payload, sys, es, |es|);
    TouchedIsDoomed(s);
  }
}
