/** What every step of a file claim keeps, across broker, connection, receiver, spool and policy. */
module FileClaimRuns {
  import opened Basics
  import opened HpkeInfo
  import opened BrokerCore
  import opened BrokerSystem
  import opened BrokerInvariants
  import opened BrokerRuns
  import opened FileSession
  import opened FileSessionRuns
  import opened FileClaim

  /** The digest names the bytes: SHA-256 taken as injective. */
  ghost predicate DigestsName(cfg: Config) {
    forall a: Bytes, b: Bytes :: cfg.digest(a) == cfg.digest(b) ==> a == b
  }

  /** The drop this claim is for: a file payload that was submitted, whatever has become of it since. */
  predicate DropInv(cfg: Config, id: nat, payload: Bytes, recs: seq<Rec>) {
    && id < |recs| && cfg.decode(payload).Some?
    && recs[id].state != Pending && recs[id].payloadKind == Files
    && (recs[id].plaintext.Some? ==> recs[id].plaintext.value == payload)
  }

  function Contents(cfg: Config, payload: Bytes): Parsed
    requires cfg.decode(payload).Some?
  {
    cfg.decode(payload).value
  }

  predicate Refusing(sent: seq<Out>) {
    sent != [] && sent[|sent| - 1].Refusal?
  }

  predicate ManifestTrue(cfg: Config, payload: Bytes, sent: seq<Out>)
    requires cfg.decode(payload).Some?
  {
    sent != [] && sent[0].Meta? ==>
      sent[0].sizes == Sizes(Frames(Contents(cfg, payload))) && sent[0].hasText == Contents(cfg, payload).text.Some?
  }

  /** What the connection has said of this drop is true, and stays true. */
  predicate ConnTruth(cfg: Config, id: nat, payload: Bytes, c: Conn) {
    && DropInv(cfg, id, payload, c.sys.core.recs)
    && (c.s.named.Some? ==> c.s.named.value == id)
    && ManifestTrue(cfg, payload, c.sent)
    && (Refusing(c.sent) && c.sent[|c.sent| - 1].answer == Unavailable ==> c.sys.core.recs[id].plaintext.None?)
    && (c.won ==> c.sys.core.recs[id].plaintext.None?)
  }

  /** The lines written so far: one begin for this drop, and a commit that says what the receiver received. */
  predicate LinesInv(id: nat, lines: seq<Line>, rx: Receiver) {
    forall k :: 0 <= k < |lines| ==>
      && (lines[k].BeginLine? ==> lines[k].id == id)
      && (lines[k].CommitLine? ==> rx.commitWritten && lines[k] == CommitLine(id, rx.transferId, rx.received, rx.digests))
  }

  predicate RxInv(cfg: Config, rx: Receiver) {
    && rx.received == Sum(Sizes(rx.frames)) && rx.digests == Digests(cfg, rx.frames)
    && (rx.commitWritten ==> rx.at == WaitCommit || rx.at == RxDone)
    && (rx.at == WaitCommit ==> rx.commitWritten)
  }

  /** The last thing the receiver read is what it is waiting to go on from. */
  predicate AlignInv(sent: seq<Out>, read: nat, rx: Receiver) {
    && read <= |sent|
    && (rx.at == Connecting || rx.at == WaitMeta ==> read == 0 && rx.frames == [])
    && (rx.at != Connecting && rx.at != WaitMeta && rx.at != RxDone ==> read > 0 && Position(sent[read - 1], rx))
    && (rx.frames != [] || rx.commitWritten || (rx.at != Connecting && rx.at != WaitMeta && rx.at != RxDone) ==>
          sent != [] && sent[0].Meta? && rx.hasText == sent[0].hasText)
  }

  predicate Position(last: Out, rx: Receiver) {
    match rx.at
    case WaitHeader(n) => After(last) == Some(SendHeader(n)) && |rx.frames| == n
    case InBody(n, got, size) => last == Header(n, size) && |rx.frames| == n && |got| < size
    case WaitAck(n) => After(last) == Some(AwaitAck(n)) && |rx.frames| == n + 1
    case WaitCommit => After(last) == Some(AwaitCommit)
    case _ => true
  }

  /** What is staged and verified is exactly the files that were received whole. */
  predicate StagedInv(rx: Receiver, spool: Spool) {
    && spool.done == FilesOf(rx.hasText, rx.frames)
    && (rx.at != RxDone ==> (spool.part.Some? <==> rx.at.InBody?))
    && (rx.commitWritten ==> spool.part.None?)
  }

  /** A commit is accepted only for what this receiver holds, and that is the container's own frames. */
  predicate WonInv(cfg: Config, payload: Bytes, c: Conn, rx: Receiver)
    requires cfg.decode(payload).Some?
  {
    c.won ==>
      && rx.commitWritten && rx.frames == Frames(Contents(cfg, payload)) && rx.hasText == Contents(cfg, payload).text.Some?
  }

  /** This attempt has not retired the payload and never will. */
  predicate NeverWins(c: Conn, rx: Receiver) {
    (rx.at == RxDone && !rx.commitWritten) || Refusing(c.sent)
  }

  /** On the way out of a hold that a cancellation cut off and nobody handled. */
  predicate CutPc(pc: Pc) {
    (pc.CancelExit? || pc.CancelDiscard? || pc.CancelEmptying?) && pc.exit == InHold
  }

  /** The directory, the flags and the two worker threads. */
  predicate SpoolInv(spool: Spool, task: Task) {
    && (spool.published ==> spool.node == Published) && (spool.quarantined ==> spool.node == Quarantined)
    && (spool.released ==> spool.node != Staged && spool.node != NoDirectory)
    && (task.publish == Succeeded <==> spool.published)
    && (task.publish == Renamed ==> spool.node == Published)
    && (task.hold == Renamed ==> spool.node == Quarantined)
    && (task.hold == Succeeded ==> spool.published || spool.quarantined || spool.released)
    && (spool.node == Published ==> task.publish == Renamed || task.publish == Succeeded)
    && (spool.node == Quarantined ==> task.hold == Renamed || spool.quarantined)
    && (task.pc.Holding? ==> task.publish == if task.pc.hold == OnPublish then Failed else Unstarted)
    && (CutPc(task.pc) ==> task.publish == Unstarted)
    && (task.pc == Entering ==> spool.node == NoDirectory && task.publish == Unstarted && task.hold == Unstarted)
    && (task.pc == Receiving ==> spool.node == Staged && task.publish == Unstarted && task.hold == Unstarted)
    && (spool.node == NoDirectory ==> task.pc == Entering || task.pc.Returned?)
    && (task.pc == Publishing ==> task.publish != Unstarted && task.hold == Unstarted && spool.node != Quarantined && spool.node != Removed)
    && (task.pc.Holding? ==> task.hold != Unstarted && task.publish != Succeeded && task.publish != Renamed && task.publish != Running)
    && (task.pc == Leaving(Ok) || task.pc == Returned(Ok) ==> spool.published)
    && task.pc != Clearing(ThenReturn(Ok))
    && (task.pc.Clearing? && task.pc.after.ThenRefuse? ==> task.hold == Failed)
  }

  predicate Known(pc: Pc) {
    pc.Leaving? || pc.Returned? || (pc.Clearing? && pc.after.ThenReturn?)
  }

  predicate Covers(spool: Spool, left: set<nat>) {
    forall i :: 0 <= i < |spool.done| ==> i in spool.missing || i in left
  }

  /** Before anything can have asked for a discard. */
  predicate Unsought(pc: Pc) {
    pc == Entering || pc == Receiving || pc.Holding? || pc == Publishing || pc == Leaving(Ok) || pc == Returned(Ok)
  }

  /** Every discard that found the directory empties it of all its files, and nothing else removes one. */
  predicate DiscardInv(spool: Spool, task: Task, notes: Notes) {
    && (task.discard.Emptying? ==> notes.listed && Covers(spool, task.discard.left))
    && (task.pc.CancelEmptying? ==> notes.listed && Covers(spool, task.pc.left))
    && (notes.listed ==> task.discard.Emptying? || task.pc.CancelEmptying? || Covers(spool, {}))
    && (!notes.listed ==> spool.missing == {} && spool.node != Removed && !notes.holdCancelled)
    && (notes.holdCancelled ==> task.publish == Unstarted)
    && (task.discard == Through ==> spool.node != Staged && spool.node != NoDirectory)
    && (task.pc.Leaving? ==> task.discard == Unasked || task.discard == Through)
    && (task.pc.CancelEmptying? || task.pc.CancelDiscard? || task.pc.Clearing? || task.discard != Unasked ==> spool.node != NoDirectory)
    && (Unsought(task.pc) ==> !notes.listed && task.discard == Unasked)
  }

  /** Why the bytes are not in the staging directory, or may be removed from it. */
  predicate LossInv(c: Conn, rx: Receiver, spool: Spool, task: Task, notes: Notes) {
    && (rx.at != RxDone ==> task.pc == Entering || task.pc == Receiving)
    && (task.pc == Entering || (spool.node == NoDirectory && task.pc.Returned?) ==> !rx.commitWritten)
    && (spool.node == NoDirectory && task.pc.Returned? ==> rx.at == RxDone)
    && (notes.listed ==> NeverWins(c, rx) || notes.holdFailed || notes.holdCancelled)
    && (task.discard == Asked && spool.node == Staged ==> NeverWins(c, rx) || notes.holdFailed)
    && (task.hold == Failed ==> spool.node != Staged || notes.holdFailed)
    && (Known(task.pc) && spool.node == Staged ==> NeverWins(c, rx))
    && (task.pc.CancelExit? || task.pc.CancelDiscard? ==>
          match task.pc.exit
          case BeforeCommit => NeverWins(c, rx)
          case HoldTried => spool.node != Staged || notes.holdFailed
          case InHold => true)
  }

  predicate VerdictTrue(cfg: Config, id: nat, c: Conn, rx: Receiver, v: Verdict, notes: Notes)
    requires id < |c.sys.core.recs|
  {
    && (RetrySafe(v) ==> NeverWins(c, rx))
    && (v == Ok || v == Refused(SpoolPublishFailed) ==> c.won)
    && (v == Refused(DropUnavailable) ==> c.sys.core.recs[id].plaintext.None?)
    && (v == Refused(Indeterminate) ==> rx.commitWritten || notes.faulted)
  }

  predicate AfterTrue(cfg: Config, id: nat, c: Conn, rx: Receiver, after: Onward, task: Task, notes: Notes)
    requires id < |c.sys.core.recs|
  {
    match after
    case ThenReturn(v) => VerdictTrue(cfg, id, c, rx, v, notes)
    case ThenRefuse(OnPublish, code) => c.won && code == SpoolPublishFailed
    case ThenRefuse(_, code) => code == Indeterminate && (rx.commitWritten || notes.faulted) && task.publish == Unstarted
  }

  predicate VerdictInv(cfg: Config, id: nat, c: Conn, rx: Receiver, task: Task, notes: Notes)
    requires id < |c.sys.core.recs|
  {
    && (task.publish != Unstarted || task.pc == Publishing ==> c.won)
    && (task.pc.Holding? && task.pc.hold == OnPublish ==> c.won && task.pc.code == SpoolPublishFailed)
    && (task.pc.Holding? && task.pc.hold != OnPublish ==> task.pc.code == Indeterminate && (rx.commitWritten || notes.faulted) && task.publish == Unstarted)
    && (task.pc.Clearing? ==> AfterTrue(cfg, id, c, rx, task.pc.after, task, notes))
    && (task.pc.Leaving? ==> VerdictTrue(cfg, id, c, rx, task.pc.verdict, notes))
    && (task.pc.Returned? ==> VerdictTrue(cfg, id, c, rx, task.pc.verdict, notes))
  }

  /** The payload leaves the broker through this attempt's commit, through somebody else, or by expiring; never otherwise. */
  predicate PayloadAccounted(id: nat, c: Conn, notes: Notes)
    requires id < |c.sys.core.recs|
  {
    c.sys.core.recs[id].plaintext.Some? || c.won || notes.takenByOthers || c.sys.core.recs[id].state == Destroyed
  }

  predicate ClaimInv(cfg: Config, me: nat, id: nat, payload: Bytes, s: Claim) {
    && ConnInv(cfg, me, s.conn) && ConnTruth(cfg, id, payload, s.conn)
    && LinesInv(id, s.wire.lines, s.rx) && RxInv(cfg, s.rx) && AlignInv(s.conn.sent, s.wire.read, s.rx)
    && StagedInv(s.rx, s.spool) && WonInv(cfg, payload, s.conn, s.rx)
    && SpoolInv(s.spool, s.task) && DiscardInv(s.spool, s.task, s.notes) && LossInv(s.conn, s.rx, s.spool, s.task, s.notes)
    && VerdictInv(cfg, id, s.conn, s.rx, s.task, s.notes)
    && PayloadAccounted(id, s.conn, s.notes)
  }

  // ------------------------------------------------------------ worker threads

  lemma ThreadSpool(s: Claim, e: ThreadEvent)
    requires SpoolInv(s.spool, s.task) && DiscardInv(s.spool, s.task, s.notes)
    ensures var s' := ThreadStep(s, e); SpoolInv(s'.spool, s'.task)
  {
  }

  lemma ThreadDiscard(s: Claim, e: ThreadEvent)
    requires SpoolInv(s.spool, s.task) && DiscardInv(s.spool, s.task, s.notes)
    ensures var s' := ThreadStep(s, e); DiscardInv(s'.spool, s'.task, s'.notes)
  {
  }

  lemma ThreadLoss(s: Claim, e: ThreadEvent)
    requires SpoolInv(s.spool, s.task) && DiscardInv(s.spool, s.task, s.notes) && LossInv(s.conn, s.rx, s.spool, s.task, s.notes)
    ensures var s' := ThreadStep(s, e); LossInv(s'.conn, s'.rx, s'.spool, s'.task, s'.notes)
  {
  }

  lemma ThreadVerdict(cfg: Config, id: nat, s: Claim, e: ThreadEvent)
    requires id < |s.conn.sys.core.recs| && SpoolInv(s.spool, s.task) && VerdictInv(cfg, id, s.conn, s.rx, s.task, s.notes)
    ensures var s' := ThreadStep(s, e); s'.conn == s.conn && VerdictInv(cfg, id, s'.conn, s'.rx, s'.task, s'.notes)
  {
  }

  lemma ThreadRx(cfg: Config, id: nat, s: Claim, e: ThreadEvent)
    requires StagedInv(s.rx, s.spool) && id < |s.conn.sys.core.recs| && PayloadAccounted(id, s.conn, s.notes)
    ensures var s' := ThreadStep(s, e);
      s'.conn == s.conn && s'.wire == s.wire && s'.rx == s.rx && StagedInv(s'.rx, s'.spool) && PayloadAccounted(id, s'.conn, s'.notes)
  {
  }

  lemma ThreadKeeps(cfg: Config, me: nat, id: nat, payload: Bytes, s: Claim, e: ThreadEvent)
    requires ClaimInv(cfg, me, id, payload, s)
    ensures ClaimInv(cfg, me, id, payload, ThreadStep(s, e))
  {
    hide ConnInv, LinesInv, RxInv, AlignInv, WonInv, NeverWins, SpoolInv, DiscardInv, LossInv, VerdictInv, StagedInv, PayloadAccounted, ThreadStep;
    ThreadRx(cfg, id, s, e);
    ThreadSpool(s, e);
    ThreadDiscard(s, e);
    ThreadLoss(s, e);
    ThreadVerdict(cfg, id, s, e);
  }

  lemma TaskSpool(s: Claim, e: TaskEvent)
    requires SpoolInv(s.spool, s.task) && DiscardInv(s.spool, s.task, s.notes)
    ensures var s' := TaskStep(s, e); SpoolInv(s'.spool, s'.task)
  {
  }

  lemma TaskDiscard(s: Claim, e: TaskEvent)
    requires SpoolInv(s.spool, s.task) && DiscardInv(s.spool, s.task, s.notes)
    ensures var s' := TaskStep(s, e); DiscardInv(s'.spool, s'.task, s'.notes)
  {
  }

  lemma TaskLoss(s: Claim, e: TaskEvent)
    requires SpoolInv(s.spool, s.task) && DiscardInv(s.spool, s.task, s.notes) && LossInv(s.conn, s.rx, s.spool, s.task, s.notes)
    ensures var s' := TaskStep(s, e); LossInv(s'.conn, s'.rx, s'.spool, s'.task, s'.notes)
  {
  }

  lemma TaskVerdict(cfg: Config, id: nat, s: Claim, e: TaskEvent)
    requires id < |s.conn.sys.core.recs| && SpoolInv(s.spool, s.task) && VerdictInv(cfg, id, s.conn, s.rx, s.task, s.notes)
    requires LossInv(s.conn, s.rx, s.spool, s.task, s.notes)
    ensures var s' := TaskStep(s, e); VerdictInv(cfg, id, s'.conn, s'.rx, s'.task, s'.notes)
  {
  }

  /** The policy touches the receiver only to stop it. */
  lemma TaskRx(s: Claim, e: TaskEvent)
    ensures var s' := TaskStep(s, e);
      && s'.conn == s.conn && s'.wire == s.wire && s'.spool.done == s.spool.done && s'.spool.part == s.spool.part
      && (s'.rx == s.rx || s'.rx == s.rx.(at := RxDone))
  {
  }

  lemma StoppedRx(cfg: Config, id: nat, payload: Bytes, s: Claim, rx: Receiver, spool: Spool)
    requires cfg.decode(payload).Some? && LinesInv(id, s.wire.lines, s.rx) && RxInv(cfg, s.rx) && AlignInv(s.conn.sent, s.wire.read, s.rx)
    requires StagedInv(s.rx, s.spool) && WonInv(cfg, payload, s.conn, s.rx)
    requires (rx == s.rx || rx == s.rx.(at := RxDone)) && spool.done == s.spool.done && spool.part == s.spool.part
    ensures LinesInv(id, s.wire.lines, rx) && RxInv(cfg, rx) && AlignInv(s.conn.sent, s.wire.read, rx)
    ensures StagedInv(rx, spool) && WonInv(cfg, payload, s.conn, rx)
  {
  }

  lemma TaskKeeps(cfg: Config, me: nat, id: nat, payload: Bytes, s: Claim, e: TaskEvent)
    requires ClaimInv(cfg, me, id, payload, s)
    ensures ClaimInv(cfg, me, id, payload, TaskStep(s, e))
  {
    hide ConnInv, LinesInv, RxInv, AlignInv, WonInv, NeverWins, SpoolInv, DiscardInv, LossInv, VerdictInv, StagedInv, PayloadAccounted, TaskStep;
    TaskRx(s, e);
    StoppedRx(cfg, id, payload, s, TaskStep(s, e).rx, TaskStep(s, e).spool);
    TaskSpool(s, e);
    TaskDiscard(s, e);
    TaskLoss(s, e);
    TaskVerdict(cfg, id, s, e);
    TaskNotes(id, s, e);
  }

  lemma TaskNotes(id: nat, s: Claim, e: TaskEvent)
    requires id < |s.conn.sys.core.recs|
    ensures PayloadAccounted(id, s.conn, s.notes) ==> PayloadAccounted(id, s.conn, TaskStep(s, e).notes)
  {
  }

  // --------------------------------------------------------------- the receiver

  lemma SentIsWellFormed(cfg: Config, me: nat, c: Conn)
    requires ConnInv(cfg, me, c)
    ensures WellFormed(c.sent) && forall k :: 0 <= k < |c.sent| && Final(c.sent[k]) ==> k == |c.sent| - 1
    ensures c.sent != [] && c.sent[|c.sent| - 1].CommitOk? ==> c.won
    ensures Refusing(c.sent) ==> !c.won
  {
    OnlyTheLastIsFinal(c.sent);
  }

  /** The receiver is under way and its directory is there. */
  predicate UnderWay(s: Claim) {
    s.task.pc == Receiving && s.rx.at != RxDone
  }

  /** A receiver step that leaves everything but its own variables, the wire and the staged files alone. */
  predicate Local(s: Claim, s': Claim) {
    && s'.conn == s.conn && s'.task == s.task && s'.notes == s.notes
    && s'.spool == s.spool.(done := s'.spool.done, part := s'.spool.part)
  }

  lemma LocalKeeps(cfg: Config, me: nat, id: nat, payload: Bytes, s: Claim, s': Claim)
    requires ClaimInv(cfg, me, id, payload, s) && UnderWay(s) && !s.rx.commitWritten && Local(s, s') && UnderWay(s')
    requires LinesInv(id, s'.wire.lines, s'.rx) && RxInv(cfg, s'.rx) && AlignInv(s'.conn.sent, s'.wire.read, s'.rx) && StagedInv(s'.rx, s'.spool)
    ensures ClaimInv(cfg, me, id, payload, s')
  {
    hide ConnInv, ConnTruth, LinesInv, RxInv, AlignInv, StagedInv, NeverWins, VerdictTrue;
    assert !s.conn.won;
  }

  /** What a refusal must be entitled to. */
  predicate Entitled(s: Claim, id: nat, code: Code)
    requires id < |s.conn.sys.core.recs|
  {
    && code != SpoolPublishFailed
    && (code == Indeterminate ==> s.rx.commitWritten)
    && (code != Indeterminate ==> !s.rx.commitWritten || Refusing(s.conn.sent))
    && (code == DropUnavailable ==> s.conn.sys.core.recs[id].plaintext.None?)
  }

  lemma RefuseRxKeeps(cfg: Config, me: nat, id: nat, payload: Bytes, s: Claim, s1: Claim, code: Code)
    requires ClaimInv(cfg, me, id, payload, s) && UnderWay(s)
    requires Local(s, s1) && s1.rx == s.rx && s1.wire.lines == s.wire.lines && s1.wire.read <= |s.conn.sent|
    requires s1.spool.done == s.spool.done && (s.rx.commitWritten ==> s1.spool.part.None?)
    requires Entitled(s, id, code)
    ensures ClaimInv(cfg, me, id, payload, Refuse(s1, code))
  {
    hide ConnInv, LinesInv, RxInv, AlignInv, StagedInv, SpoolInv, DiscardInv, LossInv, VerdictInv, Refuse, Entitled;
    RefusedLocal(cfg, id, s, s1, code);
    RefusedTask(cfg, id, s, s1, code);
  }

  lemma RefusedLocal(cfg: Config, id: nat, s: Claim, s1: Claim, code: Code)
    requires LinesInv(id, s.wire.lines, s.rx) && RxInv(cfg, s.rx) && AlignInv(s.conn.sent, s.wire.read, s.rx) && StagedInv(s.rx, s.spool) && s.rx.at != RxDone
    requires Local(s, s1) && s1.rx == s.rx && s1.wire.lines == s.wire.lines && s1.wire.read <= |s.conn.sent|
    requires s1.spool.done == s.spool.done && (s.rx.commitWritten ==> s1.spool.part.None?)
    ensures var s' := Refuse(s1, code);
      && s'.conn == s.conn && s'.notes == s.notes && s'.rx == s.rx.(at := RxDone)
      && LinesInv(id, s'.wire.lines, s'.rx) && RxInv(cfg, s'.rx) && AlignInv(s'.conn.sent, s'.wire.read, s'.rx) && StagedInv(s'.rx, s'.spool)
  {
  }

  lemma RefusedTask(cfg: Config, id: nat, s: Claim, s1: Claim, code: Code)
    requires id < |s.conn.sys.core.recs| && UnderWay(s)
    requires SpoolInv(s.spool, s.task) && DiscardInv(s.spool, s.task, s.notes) && LossInv(s.conn, s.rx, s.spool, s.task, s.notes) && VerdictInv(cfg, id, s.conn, s.rx, s.task, s.notes)
    requires Local(s, s1) && s1.rx == s.rx && Entitled(s, id, code)
    ensures var s' := Refuse(s1, code);
      SpoolInv(s'.spool, s'.task) && DiscardInv(s'.spool, s'.task, s'.notes) && LossInv(s'.conn, s'.rx, s'.spool, s'.task, s'.notes) && VerdictInv(cfg, id, s'.conn, s'.rx, s'.task, s'.notes)
  {
  }

  /** What the next thing on the stream can be, wherever the receiver stands. */
  lemma NextOut(cfg: Config, me: nat, id: nat, payload: Bytes, s: Claim)
    requires ClaimInv(cfg, me, id, payload, s) && UnderWay(s) && s.rx.at != Connecting && s.wire.read < |s.conn.sent|
    ensures var out := s.conn.sent[s.wire.read];
      && (s.rx.at == WaitMeta ==> s.wire.read == 0 && (out.Meta? || out.Refusal?))
      && (s.rx.at != WaitMeta ==> s.wire.read > 0 && Position(s.conn.sent[s.wire.read - 1], s.rx) && Follows(s.conn.sent[s.wire.read - 1], out))
      && (out.Refusal? ==> Refusing(s.conn.sent) && Entitled(s, id, CodeOf(out.answer)))
      && (out.CommitOk? ==> s.conn.won)
      && (s.rx.at == WaitCommit <==> s.rx.commitWritten)
  {
    SentIsWellFormed(cfg, me, s.conn);
    var out := s.conn.sent[s.wire.read];
    if Final(out) {
      assert s.wire.read == |s.conn.sent| - 1;
    }
  }

  lemma ReadMetaKeeps(cfg: Config, me: nat, id: nat, payload: Bytes, s: Claim)
    requires ClaimInv(cfg, me, id, payload, s) && UnderWay(s) && s.rx.at == WaitMeta && s.wire.read < |s.conn.sent|
    ensures ClaimInv(cfg, me, id, payload, ReadLineStep(cfg, id, s))
  {
    hide ConnInv, ConnTruth, WonInv, SpoolInv, DiscardInv, LossInv, VerdictInv, Refuse, Entitled;
    NextOut(cfg, me, id, payload, s);
    var out := s.conn.sent[s.wire.read];
    if out.Meta? {
      LocalKeeps(cfg, me, id, payload, s, ReadLineStep(cfg, id, s));
    } else {
      RefuseRxKeeps(cfg, me, id, payload, s, s.(wire := s.wire.(read := s.wire.read + 1)), CodeOf(out.answer));
    }
  }

  lemma ReadAckKeeps(cfg: Config, me: nat, id: nat, payload: Bytes, s: Claim)
    requires ClaimInv(cfg, me, id, payload, s) && UnderWay(s) && s.rx.at.WaitAck? && s.wire.read < |s.conn.sent|
    ensures ClaimInv(cfg, me, id, payload, ReadLineStep(cfg, id, s))
  {
    hide ConnInv, ConnTruth, WonInv, SpoolInv, DiscardInv, LossInv, VerdictInv, Refuse, Entitled;
    NextOut(cfg, me, id, payload, s);
    var out := s.conn.sent[s.wire.read];
    if out.Refusal? {
      RefuseRxKeeps(cfg, me, id, payload, s, s.(wire := s.wire.(read := s.wire.read + 1)), CodeOf(out.answer));
    } else {
      LocalKeeps(cfg, me, id, payload, s, ReadLineStep(cfg, id, s));
    }
  }

  lemma ReadAnswerKeeps(cfg: Config, me: nat, id: nat, payload: Bytes, s: Claim)
    requires ClaimInv(cfg, me, id, payload, s) && UnderWay(s) && s.rx.at == WaitCommit && s.wire.read < |s.conn.sent|
    ensures ClaimInv(cfg, me, id, payload, ReadLineStep(cfg, id, s))
  {
    hide ConnInv, ConnTruth, WonInv, SpoolInv, DiscardInv, LossInv, VerdictInv, Refuse, Entitled, Accepted;
    NextOut(cfg, me, id, payload, s);
    var out := s.conn.sent[s.wire.read];
    var s1 := s.(wire := s.wire.(read := s.wire.read + 1));
    if out.Refusal? {
      RefuseRxKeeps(cfg, me, id, payload, s, s1, CodeOf(out.answer));
    } else {
      AcceptedKeeps(cfg, me, id, payload, s, s1);
    }
  }

  /** After a commit the two accounts of the transfer agree, so the publish begins. */
  lemma AcceptedKeeps(cfg: Config, me: nat, id: nat, payload: Bytes, s: Claim, s1: Claim)
    requires ClaimInv(cfg, me, id, payload, s) && UnderWay(s) && s.rx.at == WaitCommit && s.conn.won
    requires s1 == s.(wire := s.wire.(read := s1.wire.read)) && s1.wire.read <= |s.conn.sent|
    ensures Accepted(cfg, s1).task.pc == Publishing && ClaimInv(cfg, me, id, payload, Accepted(cfg, s1))
  {
    hide ConnInv, LinesInv, RxInv, AlignInv, StagedInv, SpoolInv, DiscardInv, LossInv, VerdictInv, Accepted;
    AccountsAgree(cfg, s1);
    RefusedLocal(cfg, id, s, s1, TransferRefused);
    AcceptedTask(cfg, id, s, s1);
  }

  lemma AccountsAgree(cfg: Config, s: Claim)
    requires StagedInv(s.rx, s.spool)
    ensures CrossCheck(cfg, s) && CrossCheck(cfg, s.(rx := s.rx.(at := RxDone))) && (s.rx.commitWritten ==> s.spool.part.None?)
  {
  }

  lemma AcceptedTask(cfg: Config, id: nat, s: Claim, s1: Claim)
    requires id < |s.conn.sys.core.recs| && UnderWay(s) && s.conn.won && CrossCheck(cfg, s1.(rx := s1.rx.(at := RxDone)))
    requires s1 == s.(wire := s.wire.(read := s1.wire.read)) && s.rx.commitWritten
    requires SpoolInv(s.spool, s.task) && DiscardInv(s.spool, s.task, s.notes) && LossInv(s.conn, s.rx, s.spool, s.task, s.notes) && VerdictInv(cfg, id, s.conn, s.rx, s.task, s.notes)
    ensures var s' := Accepted(cfg, s1);
      && s'.task.pc == Publishing && s' == s1.(rx := s1.rx.(at := RxDone), task := s'.task)
      && SpoolInv(s'.spool, s'.task) && DiscardInv(s'.spool, s'.task, s'.notes) && LossInv(s'.conn, s'.rx, s'.spool, s'.task, s'.notes) && VerdictInv(cfg, id, s'.conn, s'.rx, s'.task, s'.notes)
  {
  }

  // ------------------------------------------------------------------- frames

  lemma FilesGrow(hasText: bool, frames: seq<Bytes>, bytes: Bytes)
    ensures FilesOf(hasText, frames + [bytes]) == if hasText && frames == [] then FilesOf(hasText, frames) else FilesOf(hasText, frames) + [bytes]
  {
    if hasText && frames != [] {
      assert (frames + [bytes])[1..] == frames[1..] + [bytes];
    }
  }

  lemma CountersGrow(cfg: Config, frames: seq<Bytes>, bytes: Bytes)
    ensures Sum(Sizes(frames + [bytes])) == Sum(Sizes(frames)) + |bytes|
    ensures Digests(cfg, frames + [bytes]) == Digests(cfg, frames) + [cfg.digest(bytes)]
  {
    assert Sizes(frames + [bytes])[..|frames|] == Sizes(frames);
  }

  /** Acknowledging a whole frame keeps the counters, the digests and the staged files in step. */
  lemma FrameDoneKeeps(cfg: Config, me: nat, id: nat, payload: Bytes, s: Claim, s1: Claim, frame: nat, bytes: Bytes)
    requires ClaimInv(cfg, me, id, payload, s) && UnderWay(s) && !s.rx.commitWritten && frame == |s.rx.frames|
    requires s.rx.at.WaitHeader? || s.rx.at.InBody?
    requires Local(s, s1) && s1.rx == s.rx && s1.wire == s.wire.(read := s.wire.read + 1) && s1.spool.part.None?
    requires s1.spool.done == FilesOf(s.rx.hasText, s.rx.frames + [bytes])
    requires s.wire.read < |s.conn.sent| && After(s.conn.sent[s.wire.read]) == Some(AwaitAck(frame))
    ensures ClaimInv(cfg, me, id, payload, FrameDone(cfg, s1, frame, bytes))
  {
    hide ConnInv, ConnTruth, WonInv, SpoolInv, DiscardInv, LossInv, VerdictInv;
    CountersGrow(cfg, s.rx.frames, bytes);
    LocalKeeps(cfg, me, id, payload, s, FrameDone(cfg, s1, frame, bytes));
  }

  lemma ReadHeaderKeeps(cfg: Config, me: nat, id: nat, payload: Bytes, s: Claim)
    requires ClaimInv(cfg, me, id, payload, s) && UnderWay(s) && s.rx.at.WaitHeader? && s.wire.read < |s.conn.sent|
    ensures ClaimInv(cfg, me, id, payload, ReadHeaderStep(cfg, s))
  {
    hide ConnInv, ConnTruth, WonInv, SpoolInv, DiscardInv, LossInv, VerdictInv, Refuse, FrameDone;
    NextOut(cfg, me, id, payload, s);
    var frame, out := s.rx.at.frame, s.conn.sent[s.wire.read];
    var s1 := s.(wire := s.wire.(read := s.wire.read + 1));
    if frame >= |s.rx.sizes| || out.size != s.rx.sizes[frame] {
      RefuseRxKeeps(cfg, me, id, payload, s, s1, TransferRefused);
    } else if out.size > 0 {
      LocalKeeps(cfg, me, id, payload, s, ReadHeaderStep(cfg, s));
    } else {
      FilesGrow(s.rx.hasText, s.rx.frames, []);
      var staged := if s.rx.hasText && frame == 0 then s1 else s1.(spool := s.spool.(done := s.spool.done + [[]]));
      FrameDoneKeeps(cfg, me, id, payload, s, staged, frame, []);
    }
  }

  lemma ReadChunkKeeps(cfg: Config, me: nat, id: nat, payload: Bytes, s: Claim, chunk: Bytes, onDisk: Bytes)
    requires DigestsName(cfg) && ClaimInv(cfg, me, id, payload, s) && UnderWay(s) && s.rx.at.InBody? && s.wire.read < |s.conn.sent|
    requires 0 < |chunk| && |s.rx.at.got| + |chunk| <= s.rx.at.size
    ensures ClaimInv(cfg, me, id, payload, ReadChunkStep(cfg, s, chunk, onDisk))
  {
    hide ConnInv, ConnTruth, WonInv, SpoolInv, DiscardInv, LossInv, VerdictInv, Refuse, FrameDone;
    NextOut(cfg, me, id, payload, s);
    var frame, got := s.rx.at.frame, s.rx.at.got + chunk;
    if |got| < s.rx.at.size {
      LocalKeeps(cfg, me, id, payload, s, ReadChunkStep(cfg, s, chunk, onDisk));
    } else {
      var s1 := s.(wire := s.wire.(read := s.wire.read + 1), spool := s.spool.(part := None));
      FilesGrow(s.rx.hasText, s.rx.frames, got);
      if s.rx.hasText && frame == 0 {
        FrameDoneKeeps(cfg, me, id, payload, s, s1, frame, got);
      } else if |onDisk| != |got| || cfg.digest(onDisk) != cfg.digest(got) {
        RefuseRxKeeps(cfg, me, id, payload, s, s1, SpoolWriteFailed);
      } else {
        FrameDoneKeeps(cfg, me, id, payload, s, s1.(spool := s1.spool.(done := s.spool.done + [onDisk])), frame, got);
      }
    }
  }

  // ------------------------------------------------------------- every event

  lemma ConnectKeeps(cfg: Config, me: nat, id: nat, payload: Bytes, s: Claim, ok: bool)
    requires ClaimInv(cfg, me, id, payload, s) && UnderWay(s) && s.rx.at == Connecting
    ensures ClaimInv(cfg, me, id, payload, ReceiverStep(cfg, id, s, Connect(ok)))
  {
    hide ConnInv, ConnTruth, WonInv, SpoolInv, DiscardInv, LossInv, VerdictInv, Refuse;
    if ok {
      LocalKeeps(cfg, me, id, payload, s, ReceiverStep(cfg, id, s, Connect(ok)));
    } else {
      RefuseRxKeeps(cfg, me, id, payload, s, s, BrokerUnavailable);
    }
  }

  /** The faults that end in a refusal, each with the code its handler chooses. */
  lemma FaultKeeps(cfg: Config, me: nat, id: nat, payload: Bytes, s: Claim, e: ReceiverEvent)
    requires ClaimInv(cfg, me, id, payload, s) && UnderWay(s)
    requires e.Eof? || e.Timeout? || e.TransportError? || e.Unreadable? || e.LocalRefusal? || e.StagingError?
    ensures ClaimInv(cfg, me, id, payload, ReceiverStep(cfg, id, s, e))
  {
    hide ConnInv, WonInv, SpoolInv, DiscardInv, LossInv, VerdictInv, Refuse;
    var after := s.rx.commitWritten;
    var code := match e
      case Eof => if s.rx.at == WaitCommit then Indeterminate else TransferRefused
      case Timeout => if after then Indeterminate else TransferRefused
      case TransportError => if after then Indeterminate else BrokerUnavailable
      case StagingError => SpoolWriteFailed
      case Unreadable => BrokerUnavailable
      case _ => TransferRefused;
    if Entitled(s, id, code) {
      RefuseRxKeeps(cfg, me, id, payload, s, s, code);
    }
  }

  lemma UnexpectedKeeps(cfg: Config, me: nat, id: nat, payload: Bytes, s: Claim)
    requires ClaimInv(cfg, me, id, payload, s) && UnderWay(s)
    ensures ClaimInv(cfg, me, id, payload, ReceiverStep(cfg, id, s, UnexpectedError))
  {
    hide ConnInv, LinesInv, RxInv, AlignInv, StagedInv, WonInv, SpoolInv, DiscardInv, LossInv, VerdictInv;
    StoppedRx(cfg, id, payload, s, s.rx.(at := RxDone), s.spool);
    UnexpectedTask(cfg, id, s);
  }

  lemma UnexpectedTask(cfg: Config, id: nat, s: Claim)
    requires id < |s.conn.sys.core.recs| && UnderWay(s)
    requires SpoolInv(s.spool, s.task) && DiscardInv(s.spool, s.task, s.notes) && LossInv(s.conn, s.rx, s.spool, s.task, s.notes) && VerdictInv(cfg, id, s.conn, s.rx, s.task, s.notes)
    ensures var s' := ReceiverStep(cfg, id, s, UnexpectedError);
      && s' == s.(rx := s.rx.(at := RxDone), task := s'.task, notes := s.notes.(faulted := true))
      && SpoolInv(s'.spool, s'.task) && DiscardInv(s'.spool, s'.task, s'.notes) && LossInv(s'.conn, s'.rx, s'.spool, s'.task, s'.notes) && VerdictInv(cfg, id, s'.conn, s'.rx, s'.task, s'.notes)
  {
  }

  lemma ReceiverKeeps(cfg: Config, me: nat, id: nat, payload: Bytes, s: Claim, e: ReceiverEvent)
    requires DigestsName(cfg) && ClaimInv(cfg, me, id, payload, s)
    ensures ClaimInv(cfg, me, id, payload, ReceiverStep(cfg, id, s, e))
  {
    hide ClaimInv, ReadLineStep, ReadHeaderStep, ReadChunkStep;
    if UnderWay(s) {
      match e
      case Connect(ok) => if s.rx.at == Connecting { ConnectKeeps(cfg, me, id, payload, s, ok); }
      case ReadLine => ReadLineKeeps(cfg, me, id, payload, s);
      case ReadHeader =>
        if s.rx.at.WaitHeader? && s.wire.read < |s.conn.sent| { ReadHeaderKeeps(cfg, me, id, payload, s); } else { ReadNothing(cfg, id, s, [], []); }
      case ReadChunk(chunk, onDisk) =>
        if s.rx.at.InBody? && s.wire.read < |s.conn.sent| && 0 < |chunk| && |s.rx.at.got| + |chunk| <= s.rx.at.size {
          ReadChunkKeeps(cfg, me, id, payload, s, chunk, onDisk);
        } else {
          ReadNothing(cfg, id, s, chunk, onDisk);
        }
      case UnexpectedError => UnexpectedKeeps(cfg, me, id, payload, s);
      case _ => FaultKeeps(cfg, me, id, payload, s, e);
    }
  }

  lemma ReadLineKeeps(cfg: Config, me: nat, id: nat, payload: Bytes, s: Claim)
    requires ClaimInv(cfg, me, id, payload, s) && UnderWay(s)
    ensures ClaimInv(cfg, me, id, payload, ReadLineStep(cfg, id, s))
  {
    hide ClaimInv;
    if s.wire.read < |s.conn.sent| {
      if s.rx.at == WaitMeta {
        ReadMetaKeeps(cfg, me, id, payload, s);
      } else if s.rx.at.WaitAck? {
        ReadAckKeeps(cfg, me, id, payload, s);
      } else if s.rx.at == WaitCommit {
        ReadAnswerKeeps(cfg, me, id, payload, s);
      }
    }
  }

  lemma ReadNothing(cfg: Config, id: nat, s: Claim, chunk: Bytes, onDisk: Bytes)
    ensures !(s.rx.at.WaitHeader? && s.wire.read < |s.conn.sent|) ==> ReadHeaderStep(cfg, s) == s
    ensures !(s.rx.at.InBody? && s.wire.read < |s.conn.sent| && 0 < |chunk| && |s.rx.at.got| + |chunk| <= s.rx.at.size) ==> ReadChunkStep(cfg, s, chunk, onDisk) == s
  {
  }

  // ----------------------------------------------------------- the connection

  lemma EvolvedDrop(cfg: Config, id: nat, payload: Bytes, recs: seq<Rec>, recs': seq<Rec>)
    requires DropInv(cfg, id, payload, recs) && AllEvolve(recs, recs')
    ensures DropInv(cfg, id, payload, recs') && (recs[id].plaintext.None? ==> recs'[id].plaintext.None?)
  {
    assert Evolves(recs[id], recs'[id]);
  }

  lemma HeldOrNot(cfg: Config, c: Conn, me: nat, id: nat)
    requires ConnInv(cfg, me, c) && id < |c.sys.core.recs|
    ensures c.sys.core.recs[id].plaintext.Some? <==> HoldsPayload(c.sys.core.recs[id])
  {
    assert RecInv(cfg, c.sys.core.recs[id]);
  }

  /** A refusal that was written stays the last thing written. */
  lemma RefusingStays(cfg: Config, me: nat, c: Conn, c': Conn)
    requires ConnInv(cfg, me, c') && Grows(c, c')
    ensures Refusing(c.sent) ==> c'.sent == c.sent
  {
    hide SysInv, AllEvolve, LeaseAgreed, Suspended, Coupled, Shape;
    OnlyTheLastIsFinal(c'.sent);
    if Refusing(c.sent) {
      assert c'.sent[|c.sent| - 1] == c'.sent[..|c.sent|][|c.sent| - 1];
    }
  }

  lemma TruthMoves(cfg: Config, me: nat, id: nat, payload: Bytes, c: Conn, e: SessionEvent, c': Conn)
    requires ConnInv(cfg, me, c) && ConnInv(cfg, me, c') && ConnTruth(cfg, id, payload, c)
    requires Grows(c, c') && StepSaid(cfg, c, e, c') && (e.Hear? && e.line.BeginLine? ==> e.line.id == id)
    ensures ConnTruth(cfg, id, payload, c')
  {
    EvolvedDrop(cfg, id, payload, c.sys.core.recs, c'.sys.core.recs);
    HeldOrNot(cfg, c', me, id);
    RefusingStays(cfg, me, c, c');
    ManifestMoves(cfg, id, payload, c, c');
    hide ConnInv, AllEvolve, WellFormed;
  }

  lemma ManifestMoves(cfg: Config, id: nat, payload: Bytes, c: Conn, c': Conn)
    requires DropInv(cfg, id, payload, c.sys.core.recs) && ManifestTrue(cfg, payload, c.sent) && Grows(c, c') && |c'.sent| <= |c.sent| + 1
    requires |c'.sent| == |c.sent| + 1 && c'.sent[|c.sent|].Meta? ==> MetaOf(cfg, c.sys.core.recs[id], c'.sent[|c.sent|])
    ensures ManifestTrue(cfg, payload, c'.sent)
  {
    if c.sent != [] {
      assert c'.sent[0] == c'.sent[..|c.sent|][0];
    }
  }

  lemma AlignMoves(sent: seq<Out>, sent': seq<Out>, read: nat, rx: Receiver)
    requires AlignInv(sent, read, rx) && |sent| <= |sent'| && sent'[..|sent|] == sent
    ensures AlignInv(sent', read, rx)
  {
    if read > 0 {
      assert sent'[read - 1] == sent'[..|sent|][read - 1];
    }
    if sent != [] {
      assert sent'[0] == sent'[..|sent|][0];
    }
  }

  /** An accepted commit carried the digests of the container's own frames, so those are the frames that arrived. */
  lemma WonMoves(cfg: Config, me: nat, id: nat, payload: Bytes, s: Claim, e: SessionEvent, c': Conn)
    requires DigestsName(cfg) && ConnInv(cfg, me, s.conn) && ConnTruth(cfg, id, payload, s.conn) && StepSaid(cfg, s.conn, e, c')
    requires RxInv(cfg, s.rx) && AlignInv(s.conn.sent, s.wire.read, s.rx) && WonInv(cfg, payload, s.conn, s.rx)
    requires e.Hear? && e.line.CommitLine? ==> s.rx.commitWritten && e.line.digests == s.rx.digests
    ensures WonInv(cfg, payload, c', s.rx)
  {
    if c'.won && !s.conn.won {
      LeaseIsOfDrop(cfg, me, id, payload, s.conn);
      SameFrames(cfg, s.rx.frames, Frames(Contents(cfg, payload)));
    }
  }

  lemma LeaseIsOfDrop(cfg: Config, me: nat, id: nat, payload: Bytes, c: Conn)
    requires ConnInv(cfg, me, c) && ConnTruth(cfg, id, payload, c) && c.s.lease.Some? && c.s.named == Some(c.s.lease.value.id)
    ensures c.s.lease.value.id == id && c.sys.core.recs[id].transfer.Some?
    ensures c.sys.core.recs[id].transfer.value.digests == Digests(cfg, Frames(Contents(cfg, payload)))
  {
    assert RecInv(cfg, c.sys.core.recs[id]);
  }

  lemma SameFrames(cfg: Config, a: seq<Bytes>, b: seq<Bytes>)
    requires DigestsName(cfg)
    ensures Digests(cfg, a) == Digests(cfg, b) ==> a == b
  {
    if Digests(cfg, a) == Digests(cfg, b) {
      assert |a| == |Digests(cfg, a)| == |b|;
      forall i | 0 <= i < |a|
        ensures a[i] == b[i]
      {
        assert Digests(cfg, a)[i] == Digests(cfg, b)[i];
        assert cfg.digest(a[i]) == cfg.digest(b[i]);
      }
    }
  }

  lemma NotesMove(cfg: Config, id: nat, s: Claim, c': Conn, notes: Notes)
    requires id < |s.conn.sys.core.recs| <= |c'.sys.core.recs|
    requires s.conn.won ==> c'.won
    requires Refusing(s.conn.sent) ==> c'.sent == s.conn.sent
    requires s.conn.sys.core.recs[id].plaintext.None? ==> c'.sys.core.recs[id].plaintext.None?
    requires notes == s.notes.(takenByOthers := notes.takenByOthers)
    requires DiscardInv(s.spool, s.task, s.notes) && LossInv(s.conn, s.rx, s.spool, s.task, s.notes) && VerdictInv(cfg, id, s.conn, s.rx, s.task, s.notes)
    ensures DiscardInv(s.spool, s.task, notes) && LossInv(c', s.rx, s.spool, s.task, notes) && VerdictInv(cfg, id, c', s.rx, s.task, notes)
  {
  }

  lemma PayloadMoves(cfg: Config, me: nat, id: nat, s: Claim, e: SessionEvent)
    requires ConnInv(cfg, me, s.conn) && id < |s.conn.sys.core.recs| && PayloadAccounted(id, s.conn, s.notes)
    ensures var s' := SessionMove(cfg, me, id, s, e); id < |s'.conn.sys.core.recs| && PayloadAccounted(id, s'.conn, s'.notes)
  {
    hide ConnInv, SessionStep;
    SessionKeeps(cfg, me, s.conn, e);
    if !e.World? {
      SessionKeepsPayloads(cfg, me, s.conn, e);
    }
    assert Evolves(s.conn.sys.core.recs[id], SessionStep(cfg, me, s.conn, e).sys.core.recs[id]);
  }

  /** One step of the connection or of the world. A line it hears is one this receiver wrote. */
  lemma SessionMoveKeeps(cfg: Config, me: nat, id: nat, payload: Bytes, s: Claim, e: SessionEvent)
    requires DigestsName(cfg) && ClaimInv(cfg, me, id, payload, s)
    requires e.Hear? ==> e.line in s.wire.lines
    ensures ClaimInv(cfg, me, id, payload, SessionMove(cfg, me, id, s, e))
  {
    hide ConnInv, RxInv, AlignInv, StagedInv, WonInv, SpoolInv, DiscardInv, LossInv, VerdictInv, SessionStep, StepSaid, PayloadAccounted, AllEvolve, ManifestTrue, Refusing;
    var c' := SessionStep(cfg, me, s.conn, e);
    SessionKeeps(cfg, me, s.conn, e);
    TruthMoves(cfg, me, id, payload, s.conn, e, c');
    RefusingStays(cfg, me, s.conn, c');
    EvolvedDrop(cfg, id, payload, s.conn.sys.core.recs, c'.sys.core.recs);
    AlignMoves(s.conn.sent, c'.sent, s.wire.read, s.rx);
    WonMoves(cfg, me, id, payload, s, e, c');
    GrowsLength(s.conn, c');
    NotesMove(cfg, id, s, c', SessionMove(cfg, me, id, s, e).notes);
    PayloadMoves(cfg, me, id, s, e);
  }

  /** Every step of everything keeps the invariant. */
  lemma ClaimStepKeeps(cfg: Config, me: nat, id: nat, payload: Bytes, s: Claim, e: ClaimEvent)
    requires DigestsName(cfg) && ClaimInv(cfg, me, id, payload, s)
    ensures ClaimInv(cfg, me, id, payload, ClaimStep(cfg, me, id, s, e))
  {
    hide ClaimInv, SessionStep, ReceiverStep, ThreadStep, TaskStep;
    match e
    case OfSession(session) => if !session.Hear? { SessionMoveKeeps(cfg, me, id, payload, s, session); }
    case Deliver(now) =>
      if s.conn.s.work == Rest && s.wire.taken < |s.wire.lines| {
        SessionMoveKeeps(cfg, me, id, payload, s, Hear(s.wire.lines[s.wire.taken], now));
        TakenKeeps(cfg, me, id, payload, SessionMove(cfg, me, id, s, Hear(s.wire.lines[s.wire.taken], now)), s.wire);
      }
    case OfReceiver(receiver) => ReceiverKeeps(cfg, me, id, payload, s, receiver);
    case OfThread(thread) => ThreadKeeps(cfg, me, id, payload, s, thread);
    case OfTask(task) => TaskKeeps(cfg, me, id, payload, s, task);
  }

  lemma TakenKeeps(cfg: Config, me: nat, id: nat, payload: Bytes, s: Claim, wire: Wire)
    requires ClaimInv(cfg, me, id, payload, s)
    ensures ClaimInv(cfg, me, id, payload, s.(wire := s.wire.(taken := wire.taken + 1)))
  {
    hide ConnInv, ConnTruth, LinesInv, RxInv, AlignInv, StagedInv, WonInv, SpoolInv, DiscardInv, LossInv, VerdictInv, PayloadAccounted;
  }
}