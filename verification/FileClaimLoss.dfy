/**
 * The ways a committed claim loses its files, as runs that exist for every drop
 * with one non-empty file: a cancellation that lands while a hold is being waited
 * for, a hold whose single rename fails without any publish having been tried,
 * and a publish that renames the directory while a discard is emptying it.
 */
module FileClaimLoss {
  import opened Basics
  import opened HpkeInfo
  import opened BrokerCore
  import opened BrokerSystem
  import opened BrokerInvariants
  import opened BrokerRuns
  import opened FileSession
  import opened FileSessionProofs
  import opened FileSessionTheorems
  import BrokerTheorems
  import FileSessionLeases
  import opened FileClaim
  import opened FileClaimRuns
  import opened FileClaimTheorems

  /** A submitted drop with one non-empty file, unexpired and with attempts left. */
  ghost predicate OneFile(cfg: Config, me: nat, id: nat, payload: Bytes, file: Bytes, sys: Sys, now: int) {
    && Startable(cfg, me, id, payload, sys) && cfg.decode(payload) == Some(Parsed(None, [file])) && file != []
    && sys.core.recs[id].state == Submitted && sys.core.recs[id].transferAttempts < cfg.maxTransferAttempts
    && now + MIN_TRANSFER_LEASE_MS <= sys.core.recs[id].expiresAt
  }

  // ------------------------------------------------------ where such a drop comes from

  /** A deployment that has room for one drop, and a container of one file that fits it. */
  ghost predicate Uploadable(cfg: Config, payload: Bytes, file: Bytes) {
    && DigestsName(cfg) && cfg.maxTransferAttempts > 0 && Ceiling(cfg) <= cfg.maxLiveFileBytes
    && 0 < |payload| <= Ceiling(cfg) && cfg.decode(payload) == Some(Parsed(None, [file])) && file != []
  }

  function Zeros(n: nat): (r: Bytes)
    ensures |r| == n
  {
    if n == 0 then [] else [0] + Zeros(n - 1)
  }

  function SealedFor(payload: Bytes): EnvelopeKey {
    EnvelopeKey(Envelope(FILE_VERSION, true, true, Zeros(ID_BYTES), 0, 0, Box(0, Info(Zeros(ID_BYTES), Zeros(HASH_BYTES), FILE_VERSION), payload)), Files)
  }

  function Fresh(cfg: Config): Rec {
    Minted(Zeros(ID_BYTES), Zeros(HASH_BYTES), Files, Ceiling(cfg), MIN_TRANSFER_LEASE_MS, 0)
  }

  function Uploading(cfg: Config, r: Rec, submissions: seq<Submission>): Sys {
    Init.(core := Core(Ceiling(cfg), [r]), creates := [Creation(Files, 0, false)], submissions := submissions)
  }

  function AtStage(cfg: Config, payload: Bytes, stage: Stage): Sys {
    Uploading(cfg, Fresh(cfg).(inFlight := Some(InFlight(SealedFor(payload), 0))), [Submission(0, SealedFor(payload), stage)])
  }

  lemma RunThen(cfg: Config, es: seq<Event>, e: Event)
    ensures Run(cfg, es + [e]) == Step(cfg, Run(cfg, es), e).0
  {
    hide Step;
    assert (es + [e])[..|es|] == es;
  }

  lemma MintedRun(cfg: Config, payload: Bytes, file: Bytes) returns (es: seq<Event>)
    requires Uploadable(cfg, payload, file)
    ensures Run(cfg, es) == Uploading(cfg, Fresh(cfg), [])
  {
    es := [];
    RunThen(cfg, es, CreateBegin(Files));
    es := es + [CreateBegin(Files)];
    assert Run(cfg, es) == Init.(core := Core(Ceiling(cfg), []), creates := [Creation(Files, Ceiling(cfg), true)]);
    RunThen(cfg, es, CreateFinish(0, Zeros(ID_BYTES), Zeros(HASH_BYTES), MIN_TRANSFER_LEASE_MS, 0));
    es := es + [CreateFinish(0, Zeros(ID_BYTES), Zeros(HASH_BYTES), MIN_TRANSFER_LEASE_MS, 0)];
  }

  lemma SubmitRegisters(cfg: Config, payload: Bytes, file: Bytes)
    requires Uploadable(cfg, payload, file)
    ensures Step(cfg, Uploading(cfg, Fresh(cfg), []), Submit(0, SealedFor(payload).envelope, DeclaredFiles, 0)).0
      == AtStage(cfg, payload, Fingerprint(0))
  {
    hide DigestsName, Info, Zeros;
    var c := Core(Ceiling(cfg), [Fresh(cfg)]);
    assert SubmitStart(cfg, c, 0, SealedFor(payload).envelope, DeclaredFiles, 0, 0).1 == Accepting(SealedFor(payload), true);
  }

  lemma OpensForItself(cfg: Config, payload: Bytes, file: Bytes)
    requires Uploadable(cfg, payload, file)
    ensures Step(cfg, AtStage(cfg, payload, Fingerprint(0)), SubmitStep(0)).0 == AtStage(cfg, payload, Opening(Some(payload)))
    ensures Step(cfg, AtStage(cfg, payload, Opening(Some(payload))), SubmitStep(0)).0 == AtStage(cfg, payload, Validating(payload))
  {
    hide DigestsName, Info, Zeros, SubmitGate;
  }

  function Stored(cfg: Config, payload: Bytes): Rec {
    Fresh(cfg).(inFlight := Some(InFlight(SealedFor(payload), 0)), plaintext := Some(payload), envelopeKey := Some(SealedFor(payload)), state := Submitted, key := None)
  }

  lemma GateStores(cfg: Config, payload: Bytes, file: Bytes)
    requires Uploadable(cfg, payload, file)
    ensures var s := Step(cfg, AtStage(cfg, payload, Validating(payload)), SubmitStep(0)).0;
      s.core.recs == [Stored(cfg, payload)] && s.begins == []
  {
    hide DigestsName, Info, Zeros;
    assert SubmitGate(cfg, AtStage(cfg, payload, Validating(payload)).core, 0, SealedFor(payload), payload).0
      == Core(Ceiling(cfg), [Stored(cfg, payload)]);
  }

  /** Every such container can be uploaded: a run of the broker, from nothing, ends with the drop submitted. */
  lemma UploadedDropIsReached(cfg: Config, me: nat, payload: Bytes, file: Bytes) returns (es: seq<Event>)
    requires Uploadable(cfg, payload, file)
    ensures OneFile(cfg, me, 0, payload, file, Run(cfg, es), 0)
  {
    hide DigestsName, SysInv, Step, SealedFor, AtStage, Run;
    es := MintedRun(cfg, payload, file);
    SubmitRegisters(cfg, payload, file);
    OpensForItself(cfg, payload, file);
    GateStores(cfg, payload, file);
    RunThen(cfg, es, Submit(0, SealedFor(payload).envelope, DeclaredFiles, 0));
    es := es + [Submit(0, SealedFor(payload).envelope, DeclaredFiles, 0)];
    RunThen(cfg, es, SubmitStep(0));
    es := es + [SubmitStep(0)];
    RunThen(cfg, es, SubmitStep(0));
    es := es + [SubmitStep(0)];
    RunThen(cfg, es, SubmitStep(0));
    es := es + [SubmitStep(0)];
    BrokerTheorems.RunKeeps(cfg, es);
  }

  /** A deployment in which the identity is the digest and every text is one file. */
  lemma OneFileCanBeMet(me: nat) returns (cfg: Config, es: seq<Event>, file: Bytes)
    ensures OneFile(cfg, me, 0, file, file, Run(cfg, es), 0)
  {
    file := [1];
    cfg := Config(1_000_000, 1000, 1000, 1, 1, MIN_TRANSFER_LEASE_MS, payload => Some(Parsed(None, [payload])), content => content);
    es := UploadedDropIsReached(cfg, me, file, file);
  }

  // ------------------------------------------------------ the broker's four answers

  lemma BeginIsGranted(cfg: Config, me: nat, id: nat, payload: Bytes, file: Bytes, sys: Sys, now: int)
    requires OneFile(cfg, me, id, payload, file, sys, now)
    ensures var (sys', said) := Step(cfg, sys, BeginClaim(id, me, None, now));
      && said.Quiet? && sys'.core == sys.core && |sys'.begins| == |sys.begins| + 1
      && sys'.begins[|sys.begins|].id == id && sys'.begins[|sys.begins|].owner == me && sys'.begins[|sys.begins|].running
      && sys'.begins[|sys.begins|].plaintext == payload
  {
    assert RecInv(cfg, sys.core.recs[id]);
    assert Touch(sys.core, id, now) == sys.core;
    hide SysInv, RecInv;
  }

  /** The lease of the one file, after `acked` of its frames. */
  predicate Leased(cfg: Config, me: nat, id: nat, file: Bytes, sys: Sys, t: nat, acked: nat, now: int) {
    && id < |sys.core.recs|
    && var r := sys.core.recs[id];
    && now < r.expiresAt && r.state == Transferring && r.plaintext.Some? && r.transfer.Some?
    && var lease := r.transfer.value;
    && lease.transferId == t && lease.owner == me && lease.sizes == [|file|] && lease.digests == [cfg.digest(file)]
    && lease.totalBytes == |file| && lease.nextFrame == acked && !lease.hasPrivateText
  }

  lemma OneFrame(cfg: Config, file: Bytes)
    ensures Frames(Parsed(None, [file])) == [file] && Sizes([file]) == [|file|] && Digests(cfg, [file]) == [cfg.digest(file)] && Sum([|file|]) == |file|
  {
    assert [|file|][..0] == [];
  }

  lemma FinishIsGranted(cfg: Config, me: nat, id: nat, payload: Bytes, file: Bytes, sys: Sys, b: nat, now: int)
    requires id < |sys.core.recs| && sys.core.recs[id].state == Submitted && sys.core.recs[id].plaintext == Some(payload) && sys.core.recs[id].transfer.None?
    requires cfg.decode(payload) == Some(Parsed(None, [file])) && now < sys.core.recs[id].expiresAt
    requires b < |sys.begins| && sys.begins[b].running && sys.begins[b].id == id && sys.begins[b].owner == me && sys.begins[b].plaintext == payload
    ensures var (sys', said) := Step(cfg, sys, BeginStep(b, now));
      && said.Said? && said.id == id && said.answer.Began? && said.answer.frames == [file]
      && said.answer.lease.sizes == [|file|] && !said.answer.lease.hasPrivateText
      && Leased(cfg, me, id, file, sys', said.answer.lease.transferId, 0, now)
  {
    OneFrame(cfg, file);
  }

  lemma AckIsAccepted(cfg: Config, me: nat, id: nat, file: Bytes, sys: Sys, t: nat, now: int)
    requires Leased(cfg, me, id, file, sys, t, 0, now)
    ensures var (sys', said) := Step(cfg, sys, AckFrame(id, t, me, 0, |file|, cfg.digest(file), now));
      said == Said(id, FrameAcked(None)) && Leased(cfg, me, id, file, sys', t, 1, now)
  {
    assert Touch(sys.core, id, now) == sys.core;
  }

  lemma CommitIsAccepted(cfg: Config, me: nat, id: nat, file: Bytes, sys: Sys, t: nat, now: int)
    requires SysInv(cfg, sys) && Leased(cfg, me, id, file, sys, t, 1, now)
    ensures var (sys', said) := Step(cfg, sys, CommitClaim(id, t, me, |file|, [cfg.digest(file)], now));
      said.Said? && said.answer.Committed? && !RecordGone(sys', id)
  {
    CommitCondition(cfg, sys, Held(id, t), me, t, |file|, [cfg.digest(file)], now);
    OwnCommitCall(cfg, sys, Held(id, t), me, t, |file|, [cfg.digest(file)], now);
    hide Step, SysInv;
  }

  // ------------------------------------------------------------------ the runs

  lemma Then(cfg: Config, me: nat, id: nat, sys: Sys, es: seq<ClaimEvent>, e: ClaimEvent)
    ensures ClaimRun(cfg, me, id, sys, es + [e]) == ClaimStep(cfg, me, id, ClaimRun(cfg, me, id, sys, es), e)
  {
    assert (es + [e])[..|es|] == es;
    hide ClaimStep;
  }

  function Talking(id: nat, t: nat, file: Bytes, phase: SessionPhase, outstanding: Option<nat>, work: Work): Session {
    Session(phase, Some(id), Some(Held(id, t)), [file], outstanding, work, true, false)
  }

  const Calm: Notes := Notes(false, false, false, false, false)

  const UnderTransfer: Task := Task(Receiving, Unstarted, Unstarted, Unasked)

  function Staging(done: seq<Bytes>): Spool {
    Spool(done, None, Staged, {}, false, false, false)
  }

  /** The lease is granted and the manifest is on its way. */
  predicate Granted(cfg: Config, me: nat, id: nat, file: Bytes, t: nat, now: int, s: Claim) {
    && Leased(cfg, me, id, file, s.conn.sys, t, 0, now)
    && s.conn == Conn(s.conn.sys, Talking(id, t, file, Beginning, None, Writing(SendHeader(0))), [Meta(t, [|file|], false)], false)
    && s.wire == Wire([BeginLine(id, None)], 1, 0)
    && s.rx == Receiver(WaitMeta, 0, [], false, [], 0, [], false)
    && s.spool == Staging([]) && s.task == UnderTransfer && s.notes == Calm
  }

  /** The frame was received, staged and acknowledged; the connection has not heard the ack. */
  predicate Acknowledging(cfg: Config, me: nat, id: nat, file: Bytes, t: nat, now: int, s: Claim) {
    && Leased(cfg, me, id, file, s.conn.sys, t, 0, now)
    && s.conn == Conn(s.conn.sys, Talking(id, t, file, AwaitingFrameAck, Some(0), Rest), [Meta(t, [|file|], false), Header(0, |file|), Body(0, file)], false)
    && s.wire == Wire([BeginLine(id, None), AckLine(t, 0, |file|, cfg.digest(file))], 1, 3)
    && s.rx == Receiver(WaitAck(0), t, [|file|], false, [file], |file|, [cfg.digest(file)], false)
    && s.spool == Staging([file]) && s.task == UnderTransfer && s.notes == Calm
  }

  /** The commit is written and not yet heard. */
  predicate Committing(cfg: Config, me: nat, id: nat, file: Bytes, t: nat, now: int, s: Claim) {
    && Leased(cfg, me, id, file, s.conn.sys, t, 1, now)
    && s.conn.s == Talking(id, t, file, AwaitingCommit, None, Rest) && !s.conn.won
    && |s.wire.lines| == 3 && s.wire.lines[2] == CommitLine(id, t, |file|, [cfg.digest(file)]) && s.wire.taken == 2
    && s.rx.at == WaitCommit && s.rx.commitWritten && s.wire.read == |s.conn.sent| && CrossCheck(cfg, s)
    && s.spool == Staging([file]) && s.task == UnderTransfer && s.notes == Calm
  }

  /** The receiver gave up waiting, the hold was begun, and then the broker accepted the commit. */
  predicate HoldPending(file: Bytes, s: Claim) {
    && s.conn.won && s.spool == Staging([file]) && s.notes == Calm
    && s.task == Task(Holding(OnRefusal, Indeterminate), Unstarted, Running, Unasked)
  }

  /** The begin line was heard, and the broker is in its manifest pass. */
  predicate Requested(cfg: Config, me: nat, id: nat, payload: Bytes, sys: Sys, s: Claim) {
    && s.conn == Conn(s.conn.sys, FreshSession.(phase := Beginning, named := Some(id), work := ManifestWork(|sys.begins|)), [], false)
    && s.conn.sys.core == sys.core && |s.conn.sys.begins| == |sys.begins| + 1
    && (var b := s.conn.sys.begins[|sys.begins|]; b.id == id && b.owner == me && b.running && b.plaintext == payload)
    && s.wire == Wire([BeginLine(id, None)], 1, 0) && s.rx == Receiver(WaitMeta, 0, [], false, [], 0, [], false)
    && s.spool == Staging([]) && s.task == UnderTransfer && s.notes == Calm
  }

  lemma ReachRequested(cfg: Config, me: nat, id: nat, payload: Bytes, file: Bytes, sys: Sys, now: int) returns (es: seq<ClaimEvent>)
    requires OneFile(cfg, me, id, payload, file, sys, now)
    ensures Requested(cfg, me, id, payload, sys, ClaimRun(cfg, me, id, sys, es))
  {
    hide Step, SysInv;
    es := [];
    Then(cfg, me, id, sys, es, OfTask(Enter(None)));
    es := es + [OfTask(Enter(None))];
    Then(cfg, me, id, sys, es, OfReceiver(Connect(true)));
    es := es + [OfReceiver(Connect(true))];
    BeginIsGranted(cfg, me, id, payload, file, sys, now);
    Then(cfg, me, id, sys, es, Deliver(now));
    es := es + [Deliver(now)];
  }

  lemma FinishWrites(cfg: Config, me: nat, id: nat, file: Bytes, c: Conn, now: int)
    requires c.s.work.ManifestWork? && c.s == FreshSession.(phase := Beginning, named := Some(id), work := c.s.work) && c.sent == [] && !c.won
    requires var said := Step(cfg, c.sys, BeginStep(c.s.work.begin, now)).1;
      said.Said? && said.id == id && said.answer.Began? && said.answer.frames == [file] && said.answer.lease.sizes == [|file|] && !said.answer.lease.hasPrivateText
    ensures var (sys', said) := Step(cfg, c.sys, BeginStep(c.s.work.begin, now));
      var t := said.answer.lease.transferId;
      SessionStep(cfg, me, c, ManifestDone(now))
        == Conn(sys', Talking(id, t, file, Beginning, None, Writing(SendHeader(0))), [Meta(t, [|file|], false)], false)
  {
    hide Step;
  }

  lemma ReachGranted(cfg: Config, me: nat, id: nat, payload: Bytes, file: Bytes, sys: Sys, now: int) returns (es: seq<ClaimEvent>, t: nat)
    requires OneFile(cfg, me, id, payload, file, sys, now)
    ensures Granted(cfg, me, id, file, t, now, ClaimRun(cfg, me, id, sys, es))
  {
    hide Step, SysInv, Leased, SessionStep, ClaimRun;
    es := ReachRequested(cfg, me, id, payload, file, sys, now);
    var s3 := ClaimRun(cfg, me, id, sys, es);
    DropIsHeld(cfg, id, payload, sys);
    FinishIsGranted(cfg, me, id, payload, file, s3.conn.sys, |sys.begins|, now);
    t := Step(cfg, s3.conn.sys, BeginStep(|sys.begins|, now)).1.answer.lease.transferId;
    FinishWrites(cfg, me, id, file, s3.conn, now);
    Then(cfg, me, id, sys, es, OfSession(ManifestDone(now)));
    es := es + [OfSession(ManifestDone(now))];
  }

  lemma DropIsHeld(cfg: Config, id: nat, payload: Bytes, sys: Sys)
    requires SysInv(cfg, sys) && id < |sys.core.recs| && sys.core.recs[id].state == Submitted
    ensures sys.core.recs[id].transfer.None?
  {
    assert RecInv(cfg, sys.core.recs[id]);
  }

  lemma ReachAcknowledging(cfg: Config, me: nat, id: nat, file: Bytes, sys: Sys, now: int, es: seq<ClaimEvent>, t: nat) returns (es': seq<ClaimEvent>)
    requires file != [] && Granted(cfg, me, id, file, t, now, ClaimRun(cfg, me, id, sys, es))
    ensures Acknowledging(cfg, me, id, file, t, now, ClaimRun(cfg, me, id, sys, es'))
  {
    hide Step, Leased;
    es' := es;
    var steps := [OfSession(WriteDone(true)), OfSession(WriteDone(true)), OfSession(WriteDone(true))];
    Then(cfg, me, id, sys, es', steps[0]);
    es' := es' + [steps[0]];
    assert ClaimRun(cfg, me, id, sys, es').conn.s == Talking(id, t, file, Streaming, None, Writing(SendBody(0)));
    Then(cfg, me, id, sys, es', steps[1]);
    es' := es' + [steps[1]];
    assert ClaimRun(cfg, me, id, sys, es').conn.s == Talking(id, t, file, Streaming, None, Writing(AwaitAck(0)));
    Then(cfg, me, id, sys, es', steps[2]);
    es' := es' + [steps[2]];
    var s3 := ClaimRun(cfg, me, id, sys, es');
    assert s3.conn.s == Talking(id, t, file, AwaitingFrameAck, Some(0), Rest);
    assert s3.conn.sent == [Meta(t, [|file|], false), Header(0, |file|), Body(0, file)];
    es' := ReadFrame(cfg, me, id, file, sys, now, es', t);
  }

  lemma ReadFrame(cfg: Config, me: nat, id: nat, file: Bytes, sys: Sys, now: int, es: seq<ClaimEvent>, t: nat) returns (es': seq<ClaimEvent>)
    requires file != []
    requires var s := ClaimRun(cfg, me, id, sys, es);
      && Leased(cfg, me, id, file, s.conn.sys, t, 0, now)
      && s.conn == Conn(s.conn.sys, Talking(id, t, file, AwaitingFrameAck, Some(0), Rest), [Meta(t, [|file|], false), Header(0, |file|), Body(0, file)], false)
      && s.wire == Wire([BeginLine(id, None)], 1, 0) && s.rx == Receiver(WaitMeta, 0, [], false, [], 0, [], false)
      && s.spool == Staging([]) && s.task == UnderTransfer && s.notes == Calm
    ensures Acknowledging(cfg, me, id, file, t, now, ClaimRun(cfg, me, id, sys, es'))
  {
    hide Step, Leased, SessionStep;
    es' := es;
    Then(cfg, me, id, sys, es', OfReceiver(ReadLine));
    es' := es' + [OfReceiver(ReadLine)];
    Then(cfg, me, id, sys, es', OfReceiver(ReadHeader));
    es' := es' + [OfReceiver(ReadHeader)];
    var s2 := ClaimRun(cfg, me, id, sys, es');
    assert s2.rx == Receiver(InBody(0, [], |file|), t, [|file|], false, [], 0, [], false);
    assert [] + file == file;
    Then(cfg, me, id, sys, es', OfReceiver(ReadChunk(file, file)));
    es' := es' + [OfReceiver(ReadChunk(file, file))];
  }

  lemma ReachCommitting(cfg: Config, me: nat, id: nat, file: Bytes, sys: Sys, now: int, es: seq<ClaimEvent>, t: nat) returns (es': seq<ClaimEvent>)
    requires Acknowledging(cfg, me, id, file, t, now, ClaimRun(cfg, me, id, sys, es))
    ensures Committing(cfg, me, id, file, t, now, ClaimRun(cfg, me, id, sys, es'))
  {
    var s := ClaimRun(cfg, me, id, sys, es);
    AckIsAccepted(cfg, me, id, file, s.conn.sys, t, now);
    LeasedIsLive(cfg, me, id, file, Step(cfg, s.conn.sys, AckFrame(id, t, me, 0, |file|, cfg.digest(file), now)).0, t, 1, now);
    hide Step, Leased;
    es' := es;
    Then(cfg, me, id, sys, es', Deliver(now));
    es' := es' + [Deliver(now)];
    var s1 := ClaimRun(cfg, me, id, sys, es');
    assert s1.conn.s == Talking(id, t, file, AwaitingFrameAck, Some(0), Writing(AwaitCommit));
    Then(cfg, me, id, sys, es', OfSession(WriteDone(true)));
    es' := es' + [OfSession(WriteDone(true))];
    Then(cfg, me, id, sys, es', OfReceiver(ReadLine));
    es' := es' + [OfReceiver(ReadLine)];
  }

  lemma LeasedIsLive(cfg: Config, me: nat, id: nat, file: Bytes, sys: Sys, t: nat, acked: nat, now: int)
    requires Leased(cfg, me, id, file, sys, t, acked, now)
    ensures !RecordGone(sys, id)
  {
  }

  lemma ReachHoldPending(cfg: Config, me: nat, id: nat, payload: Bytes, file: Bytes, sys: Sys, now: int) returns (es: seq<ClaimEvent>)
    requires OneFile(cfg, me, id, payload, file, sys, now)
    ensures HoldPending(file, ClaimRun(cfg, me, id, sys, es))
  {
    hide Step, Leased, Granted, Acknowledging, SysInv, Committing, ClaimRun;
    var t;
    es, t := ReachGranted(cfg, me, id, payload, file, sys, now);
    es := ReachAcknowledging(cfg, me, id, file, sys, now, es, t);
    es := ReachCommitting(cfg, me, id, file, sys, now, es, t);
    ClaimRunKeeps(cfg, me, id, payload, sys, es);
    es := LoseAnswer(cfg, me, id, payload, file, sys, now, es, t);
  }

  lemma LoseAnswer(cfg: Config, me: nat, id: nat, payload: Bytes, file: Bytes, sys: Sys, now: int, es: seq<ClaimEvent>, t: nat) returns (es': seq<ClaimEvent>)
    requires Committing(cfg, me, id, file, t, now, ClaimRun(cfg, me, id, sys, es)) && ClaimInv(cfg, me, id, payload, ClaimRun(cfg, me, id, sys, es))
    ensures HoldPending(file, ClaimRun(cfg, me, id, sys, es'))
  {
    hide Step, Leased, SysInv, ClaimRun, RxInv, AlignInv, StagedInv, WonInv, DiscardInv, LossInv, SpoolInv, VerdictInv, ConnTruth, LinesInv;
    es' := es;
    CommitIsAccepted(cfg, me, id, file, ClaimRun(cfg, me, id, sys, es).conn.sys, t, now);
    Then(cfg, me, id, sys, es', OfReceiver(Timeout));
    es' := es' + [OfReceiver(Timeout)];
    Then(cfg, me, id, sys, es', Deliver(now));
    es' := es' + [Deliver(now)];
  }

  // ----------------------------------------------------- the runs, from there to their ends

  /** Where the policy, its threads and the directory are, after the commit was accepted. */
  predicate At(s: Claim, spool: Spool, task: Task, notes: Notes) {
    s.conn.won && s.spool == spool && s.task == task && s.notes == notes
  }

  lemma TaskGoes(cfg: Config, me: nat, id: nat, sys: Sys, es: seq<ClaimEvent>, e: TaskEvent)
    ensures ClaimRun(cfg, me, id, sys, es + [OfTask(e)]) == TaskStep(ClaimRun(cfg, me, id, sys, es), e)
  {
    hide TaskStep;
    Then(cfg, me, id, sys, es, OfTask(e));
  }

  lemma ThreadGoes(cfg: Config, me: nat, id: nat, sys: Sys, es: seq<ClaimEvent>, e: ThreadEvent)
    ensures ClaimRun(cfg, me, id, sys, es + [OfThread(e)]) == ThreadStep(ClaimRun(cfg, me, id, sys, es), e)
  {
    hide ThreadStep;
    Then(cfg, me, id, sys, es, OfThread(e));
  }

  /** A cancelled claim's exit discards the directory, to the end. */
  lemma ExitEmpties(cfg: Config, me: nat, id: nat, file: Bytes, sys: Sys, es: seq<ClaimEvent>, task: Task, notes: Notes) returns (es': seq<ClaimEvent>)
    requires task.pc.CancelExit? && At(ClaimRun(cfg, me, id, sys, es), Staging([file]), task, notes)
    ensures At(ClaimRun(cfg, me, id, sys, es'), Staging([file]).(node := Removed, missing := {0}, released := true), task.(pc := Returned(Raised)),
        notes.(listed := true, holdCancelled := notes.holdCancelled || task.pc.exit == InHold))
  {
    hide ClaimRun;
    TaskGoes(cfg, me, id, sys, es, Exiting);
    es' := es + [OfTask(Exiting)];
    TaskGoes(cfg, me, id, sys, es', Discarding);
    es' := es' + [OfTask(Discarding)];
    assert FilesLeft(Staging([file])) == {0};
    TaskGoes(cfg, me, id, sys, es', ExitUnlink(0));
    es' := es' + [OfTask(ExitUnlink(0))];
    TaskGoes(cfg, me, id, sys, es', ExitRmdir);
    es' := es' + [OfTask(ExitRmdir)];
  }

  /** A cancellation during the wait for a hold: nothing failed, and the only copy is discarded. */
  lemma CancelledHoldLosesFiles(cfg: Config, me: nat, id: nat, payload: Bytes, file: Bytes, sys: Sys, now: int)
    requires OneFile(cfg, me, id, payload, file, sys, now)
    ensures exists es ::
      var s := ClaimRun(cfg, me, id, sys, es);
      s.conn.won && s.spool.node == Removed && s.spool.missing == {0} && s.task.pc == Returned(Raised) && !s.notes.holdFailed && !s.notes.takenByOthers
  {
    hide ClaimRun, OneFile;
    var es := ReachHoldPending(cfg, me, id, payload, file, sys, now);
    TaskGoes(cfg, me, id, sys, es, Cancel);
    es := es + [OfTask(Cancel)];
    es := ExitEmpties(cfg, me, id, file, sys, es, Task(CancelExit(InHold), Unstarted, Running, Unasked), Calm);
  }

  /** The discard after a hold that failed, in its worker thread, to the end. */
  lemma ThreadEmpties(cfg: Config, me: nat, id: nat, file: Bytes, sys: Sys, es: seq<ClaimEvent>, task: Task, notes: Notes) returns (es': seq<ClaimEvent>)
    requires task.discard == Asked && At(ClaimRun(cfg, me, id, sys, es), Staging([file]), task, notes)
    ensures At(ClaimRun(cfg, me, id, sys, es'), Staging([file]).(node := Removed, missing := {0}, released := true), task.(discard := Through), notes.(listed := true))
  {
    hide ClaimRun;
    ThreadGoes(cfg, me, id, sys, es, ClearLook);
    es' := es + [OfThread(ClearLook)];
    assert FilesLeft(Staging([file])) == {0};
    ThreadGoes(cfg, me, id, sys, es', ClearUnlink(0));
    es' := es' + [OfThread(ClearUnlink(0))];
    ThreadGoes(cfg, me, id, sys, es', ClearRmdir);
    es' := es' + [OfThread(ClearRmdir)];
  }

  /** One failed rename is enough when the outcome was unknown: no publish is ever tried on that path. */
  lemma OneFailedRenameLosesFiles(cfg: Config, me: nat, id: nat, payload: Bytes, file: Bytes, sys: Sys, now: int)
    requires OneFile(cfg, me, id, payload, file, sys, now)
    ensures exists es ::
      var s := ClaimRun(cfg, me, id, sys, es);
      s.conn.won && s.spool.node == Removed && s.spool.missing == {0} && s.task.pc == Returned(Refused(Indeterminate)) && s.task.publish == Unstarted && !s.notes.holdCancelled
  {
    hide ClaimRun, OneFile;
    var es := ReachHoldPending(cfg, me, id, payload, file, sys, now);
    ThreadGoes(cfg, me, id, sys, es, HoldRename(false));
    es := es + [OfThread(HoldRename(false))];
    ThreadGoes(cfg, me, id, sys, es, HoldReturn);
    es := es + [OfThread(HoldReturn)];
    es := ThreadEmpties(cfg, me, id, file, sys, es, Task(Clearing(ThenRefuse(OnRefusal, Indeterminate)), Unstarted, Failed, Asked), Calm.(holdFailed := true));
    ThreadGoes(cfg, me, id, sys, es, ClearReturn);
    es := es + [OfThread(ClearReturn)];
    es := LeaveEmpty(cfg, me, id, file, sys, es);
  }

  /** The context manager's own discard finds nothing any more. */
  lemma LeaveEmpty(cfg: Config, me: nat, id: nat, file: Bytes, sys: Sys, es: seq<ClaimEvent>) returns (es': seq<ClaimEvent>)
    requires At(ClaimRun(cfg, me, id, sys, es), Staging([file]).(node := Removed, missing := {0}, released := true),
        Task(Leaving(Refused(Indeterminate)), Unstarted, Failed, Through), Calm.(holdFailed := true, listed := true))
    ensures At(ClaimRun(cfg, me, id, sys, es'), Staging([file]).(node := Removed, missing := {0}, released := true),
        Task(Returned(Refused(Indeterminate)), Unstarted, Failed, Through), Calm.(holdFailed := true, listed := true))
  {
    hide ClaimRun;
    TaskGoes(cfg, me, id, sys, es, Leave);
    es' := es + [OfTask(Leave)];
    ThreadGoes(cfg, me, id, sys, es', ClearLook);
    es' := es' + [OfThread(ClearLook)];
    ThreadGoes(cfg, me, id, sys, es', ClearReturn);
    es' := es' + [OfThread(ClearReturn)];
  }

  /** The commit was accepted and heard: the publish is running. */
  lemma ReachPublishing(cfg: Config, me: nat, id: nat, payload: Bytes, file: Bytes, sys: Sys, now: int) returns (es: seq<ClaimEvent>)
    requires OneFile(cfg, me, id, payload, file, sys, now)
    ensures At(ClaimRun(cfg, me, id, sys, es), Staging([file]), Task(Publishing, Running, Unstarted, Unasked), Calm)
  {
    hide Step, Leased, Granted, Acknowledging, SysInv, Committing, ClaimRun, At;
    var t;
    es, t := ReachGranted(cfg, me, id, payload, file, sys, now);
    es := ReachAcknowledging(cfg, me, id, file, sys, now, es, t);
    es := ReachCommitting(cfg, me, id, file, sys, now, es, t);
    ClaimRunKeeps(cfg, me, id, payload, sys, es);
    es := HearAnswer(cfg, me, id, payload, file, sys, now, es, t);
  }

  lemma HearAnswer(cfg: Config, me: nat, id: nat, payload: Bytes, file: Bytes, sys: Sys, now: int, es: seq<ClaimEvent>, t: nat) returns (es': seq<ClaimEvent>)
    requires Committing(cfg, me, id, file, t, now, ClaimRun(cfg, me, id, sys, es)) && ClaimInv(cfg, me, id, payload, ClaimRun(cfg, me, id, sys, es))
    ensures At(ClaimRun(cfg, me, id, sys, es'), Staging([file]), Task(Publishing, Running, Unstarted, Unasked), Calm)
  {
    hide Step, Leased, SysInv, ClaimRun, RxInv, AlignInv, StagedInv, WonInv, DiscardInv, LossInv, SpoolInv, VerdictInv, ConnTruth, LinesInv;
    es' := es;
    CommitIsAccepted(cfg, me, id, file, ClaimRun(cfg, me, id, sys, es).conn.sys, t, now);
    Then(cfg, me, id, sys, es', Deliver(now));
    es' := es' + [Deliver(now)];
    Then(cfg, me, id, sys, es', OfReceiver(ReadLine));
    es' := es' + [OfReceiver(ReadLine)];
  }

  /**
   * A cancelled publish whose hold is refused may still rename the directory after
   * the discard has listed it: the claim is published, and its file is gone.
   */
  lemma PublishedInsideDiscard(cfg: Config, me: nat, id: nat, payload: Bytes, file: Bytes, sys: Sys, now: int)
    requires OneFile(cfg, me, id, payload, file, sys, now)
    ensures exists es ::
      var s := ClaimRun(cfg, me, id, sys, es);
      s.conn.won && s.spool.node == Published && s.spool.missing == {0} && s.task.pc == Returned(Raised)
  {
    hide ClaimRun, OneFile;
    var es := ReachPublishing(cfg, me, id, payload, file, sys, now);
    es := CancelPublish(cfg, me, id, file, sys, es);
    es := RenameInside(cfg, me, id, file, sys, es);
  }

  lemma CancelPublish(cfg: Config, me: nat, id: nat, file: Bytes, sys: Sys, es: seq<ClaimEvent>) returns (es': seq<ClaimEvent>)
    requires At(ClaimRun(cfg, me, id, sys, es), Staging([file]), Task(Publishing, Running, Unstarted, Unasked), Calm)
    ensures At(ClaimRun(cfg, me, id, sys, es'), Staging([file]), Task(CancelDiscard(HoldTried), Running, Unstarted, Unasked), Calm.(holdFailed := true))
  {
    hide ClaimRun;
    TaskGoes(cfg, me, id, sys, es, Cancel);
    es' := es + [OfTask(Cancel)];
    TaskGoes(cfg, me, id, sys, es', Check);
    es' := es' + [OfTask(Check)];
    TaskGoes(cfg, me, id, sys, es', CancelHold(false));
    es' := es' + [OfTask(CancelHold(false))];
    TaskGoes(cfg, me, id, sys, es', Exiting);
    es' := es' + [OfTask(Exiting)];
  }

  lemma RenameInside(cfg: Config, me: nat, id: nat, file: Bytes, sys: Sys, es: seq<ClaimEvent>) returns (es': seq<ClaimEvent>)
    requires At(ClaimRun(cfg, me, id, sys, es), Staging([file]), Task(CancelDiscard(HoldTried), Running, Unstarted, Unasked), Calm.(holdFailed := true))
    ensures var s := ClaimRun(cfg, me, id, sys, es');
      s.conn.won && s.spool.node == Published && s.spool.missing == {0} && s.task.pc == Returned(Raised)
  {
    hide ClaimRun;
    TaskGoes(cfg, me, id, sys, es, Discarding);
    es' := es + [OfTask(Discarding)];
    assert FilesLeft(Staging([file])) == {0};
    ThreadGoes(cfg, me, id, sys, es', PublishRename(true));
    es' := es' + [OfThread(PublishRename(true))];
    TaskGoes(cfg, me, id, sys, es', ExitUnlink(0));
    es' := es' + [OfTask(ExitUnlink(0))];
    TaskGoes(cfg, me, id, sys, es', ExitRmdir);
    es' := es' + [OfTask(ExitRmdir)];
  }

  /** For every such drop there is a three-step run in which a flooded begin leaves its lease behind. */
  lemma FloodedBeginStrandsLease(cfg: Config, me: nat, id: nat, payload: Bytes, file: Bytes, sys: Sys, now: int) returns (es: seq<SessionEvent>)
    requires OneFile(cfg, me, id, payload, file, sys, now)
    ensures FileSessionLeases.Ended(SessionRun(cfg, me, sys, es).s)
    ensures FileSessionLeases.Stranded(cfg, me, sys, es, |es|)
    ensures var recs := SessionRun(cfg, me, sys, es).sys.core.recs; exists i :: 0 <= i < |recs| && Owned(recs[i], me)
  {
    hide Step, SysInv, Leased;
    es := [Hear(BeginLine(id, None), now), Flood, ManifestDone(now)];
    var s0 := Accept(sys);
    var s1 := SessionStep(cfg, me, s0, es[0]);
    var s2 := SessionStep(cfg, me, s1, es[1]);
    ThreeSteps(cfg, me, sys, es);
    BeginIsGranted(cfg, me, id, payload, file, sys, now);
    assert s1.s.work == ManifestWork(|sys.begins|) && s1.s.phase == Beginning;
    assert FileSessionLeases.FloodsBegin(FileSessionLeases.Met(cfg, me, sys, es, 1), es[1]);
    DropIsHeld(cfg, id, payload, sys);
    FinishIsGranted(cfg, me, id, payload, file, s2.sys, |sys.begins|, now);
    assert FileSessionLeases.Grants(cfg, FileSessionLeases.Met(cfg, me, sys, es, 2), es[2]);
    assert FileSessionLeases.FloodedBegin(cfg, me, sys, es, 2);
    FileSessionLeases.LeaseIsLeftIff(cfg, me, sys, es);
  }

  lemma ThreeSteps(cfg: Config, me: nat, sys: Sys, es: seq<SessionEvent>)
    requires |es| == 3
    ensures var s1 := SessionStep(cfg, me, Accept(sys), es[0]);
      var s2 := SessionStep(cfg, me, s1, es[1]);
      && SessionRun(cfg, me, sys, es[..1]) == s1 && SessionRun(cfg, me, sys, es[..2]) == s2 && SessionRun(cfg, me, sys, es) == SessionStep(cfg, me, s2, es[2])
  {
    hide SessionStep;
    assert es[..0] == [] && es[..1][..0] == [] && es[..2][..1] == es[..1] && es[..3] == es;
    assert SessionRun(cfg, me, sys, []) == Accept(sys);
  }
}
