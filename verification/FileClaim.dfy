/**
 * One file claim, end to end: the receiver of drop/file_claim.py, the staging
 * directory of drop/spool.py and the policy of drop/materialize.py, talking to
 * a connection of the control server while the broker serves everybody else.
 * Every await, worker thread and directory operation is a step of its own.
 */
module FileClaim {
  import opened Basics
  import opened HpkeInfo
  import opened BrokerCore
  import opened BrokerSystem
  import opened FileSession

  // ------------------------------------------------------------------ verdicts

  datatype Code =
    | SpoolUnavailable | SpoolBusy | SpoolWriteFailed | SpoolPublishFailed
    | TransferRefused | Indeterminate | DropUnavailable | BrokerUnavailable | BadRequest

  /** `Raised`: the cancellation that propagates instead of an answer. */
  datatype Verdict = Ok | Refused(code: Code) | Raised

  /** The policy table: may the same claim be attempted again? */
  predicate RetrySafe(v: Verdict) {
    v.Refused? && v.code in {SpoolUnavailable, SpoolBusy, SpoolWriteFailed, TransferRefused, BrokerUnavailable}
  }

  /** The policy table: should the durable record show the drop as used? */
  predicate MarkSpent(v: Verdict) {
    v.Refused? && v.code in {SpoolPublishFailed, DropUnavailable}
  }

  function CodeOf(a: Answer): Code {
    match a
    case Unavailable => DropUnavailable
    case TransferFailed(_) => TransferRefused
    case _ => BadRequest
  }

  // --------------------------------------------------------------------- state

  datatype Reading =
    | Connecting
    | WaitMeta
    | WaitHeader(frame: nat)
    | InBody(frame: nat, got: Bytes, size: nat)
    | WaitAck(frame: nat)
    | WaitCommit
    | RxDone

  /** The receiver's own variables. `frames` is what arrived, whole frames only. */
  datatype Receiver = Receiver(
    at: Reading, transferId: nat, sizes: seq<nat>, hasText: bool,
    frames: seq<Bytes>, received: nat, digests: seq<Digest>, commitWritten: bool)

  /** Where the claim's bytes are on disk. */
  datatype Node = NoDirectory | Staged | Published | Quarantined | Removed

  /**
   * The staging claim: the files that were re-read from disk and verified, which
   * of them have been unlinked since, wherever their directory is, and three flags.
   */
  datatype Spool = Spool(done: seq<Bytes>, part: Option<Bytes>, node: Node, missing: set<nat>, published: bool, quarantined: bool, released: bool)

  datatype Thread = Unstarted | Running | Renamed | Succeeded | Failed

  /** The worker thread of a discard: `left` is what it has listed and not yet unlinked. */
  datatype Removal = Unasked | Asked | Emptying(left: set<nat>) | Through

  /** Which hold is being waited for; only the last is inside the publish's own cancellation handler. */
  datatype Hold = OnRefusal | OnFault | OnPublish

  /** What the cancellation found on its way out. */
  datatype Exit = BeforeCommit | HoldTried | InHold

  /** What follows once a discard that is waited for is through. */
  datatype Onward = ThenRefuse(hold: Hold, code: Code) | ThenReturn(verdict: Verdict)

  datatype Pc =
    | Entering
    | Receiving
    | Holding(hold: Hold, code: Code)
    | Publishing
    | CancelCheck
    | CancelRename
    | CancelExit(exit: Exit)
    | CancelDiscard(exit: Exit)
    | CancelEmptying(exit: Exit, left: set<nat>)
    | Clearing(after: Onward)
    | Leaving(verdict: Verdict)
    | Returned(verdict: Verdict)

  datatype Task = Task(pc: Pc, publish: Thread, hold: Thread, discard: Removal)

  /** Facts of the run that no variable of the program keeps; `listed`: a discard found the directory in its place. */
  datatype Notes = Notes(holdFailed: bool, holdCancelled: bool, listed: bool, faulted: bool, takenByOthers: bool)

  datatype Wire = Wire(lines: seq<Line>, taken: nat, read: nat)

  datatype Claim = Claim(conn: Conn, wire: Wire, rx: Receiver, spool: Spool, task: Task, notes: Notes)

  datatype ReceiverEvent =
    | Connect(ok: bool)
    | ReadLine
    | ReadHeader
    | ReadChunk(chunk: Bytes, onDisk: Bytes)
    | Eof
    | Timeout
    | TransportError
    | Unreadable
    | LocalRefusal
    | StagingError
    | UnexpectedError

  datatype ThreadEvent =
    | PublishRename(ok: bool)
    | PublishFlag
    | PublishReturn
    | HoldRename(ok: bool)
    | HoldFlag
    | HoldReturn
    | ClearLook
    | ClearUnlink(file: nat)
    | ClearRmdir
    | ClearReturn

  datatype TaskEvent =
    | Enter(code: Option<Code>)
    | Cancel
    | Check
    | CancelHold(ok: bool)
    | Exiting
    | Discarding
    | ExitUnlink(file: nat)
    | ExitRmdir
    | Leave
    | LeaveFails

  datatype ClaimEvent =
    | OfSession(session: SessionEvent)
    | Deliver(now: int)
    | OfReceiver(receiver: ReceiverEvent)
    | OfThread(thread: ThreadEvent)
    | OfTask(task: TaskEvent)

  function Start(sys: Sys): Claim {
    Claim(Conn(sys, FreshSession, [], false), Wire([], 0, 0), Receiver(Connecting, 0, [], false, [], 0, [], false),
          Spool([], None, NoDirectory, {}, false, false, false), Task(Entering, Unstarted, Unstarted, Unasked), Notes(false, false, false, false, false))
  }

  // --------------------------------------------------------------- the receiver

  /** What the policy does with a receiver that stopped: an unknown outcome is held, any other refusal is discarded. */
  function Refuse(s: Claim, code: Code): Claim {
    var s1 := s.(rx := s.rx.(at := RxDone));
    if code == Indeterminate
    then s1.(task := s.task.(pc := Holding(OnRefusal, Indeterminate), hold := Running))
    else s1.(task := s.task.(pc := Leaving(Refused(code))))
  }

  /** The frames that are files: private text is never staged. */
  function FilesOf(hasText: bool, frames: seq<Bytes>): seq<Bytes> {
    if hasText && frames != [] then frames[1..] else frames
  }

  /** The spool's digests against the ones the receiver committed, file by file. */
  predicate CrossCheck(cfg: Config, s: Claim) {
    var theirs := FilesOf(s.rx.hasText, s.rx.frames);
    && |theirs| == |s.spool.done|
    && forall i :: 0 <= i < |theirs| ==> |theirs[i]| == |s.spool.done[i]| && cfg.digest(theirs[i]) == cfg.digest(s.spool.done[i])
  }

  /** `commit → ok`: the publish begins, unless the two accounts of the transfer disagree. */
  function Accepted(cfg: Config, s: Claim): Claim {
    var s1 := s.(rx := s.rx.(at := RxDone));
    if CrossCheck(cfg, s) then s1.(task := s.task.(pc := Publishing, publish := Running))
    else s1.(task := s.task.(pc := Holding(OnPublish, SpoolPublishFailed), hold := Running))
  }

  function Send(s: Claim, line: Line, at: Reading): Claim {
    s.(wire := s.wire.(lines := s.wire.lines + [line]), rx := s.rx.(at := at))
  }

  /** Every frame is in: the flag is raised before the commit is written. */
  function SendCommit(s: Claim, id: nat): Claim {
    Send(s.(rx := s.rx.(commitWritten := true)), CommitLine(id, s.rx.transferId, s.rx.received, s.rx.digests), WaitCommit)
  }

  /** A whole frame arrived: it is acknowledged with its own length and digest. */
  function FrameDone(cfg: Config, s: Claim, frame: nat, bytes: Bytes): Claim {
    var digest := cfg.digest(bytes);
    Send(s.(rx := s.rx.(frames := s.rx.frames + [bytes], received := s.rx.received + |bytes|, digests := s.rx.digests + [digest])),
         AckLine(s.rx.transferId, frame, |bytes|, digest), WaitAck(frame))
  }

  /** `readline`, wherever the receiver waits for one; `ok` is all it looks at before the fields it needs. */
  function ReadLineStep(cfg: Config, id: nat, s: Claim): Claim {
    if s.wire.read >= |s.conn.sent| then s
    else
      var out := s.conn.sent[s.wire.read];
      var s1 := s.(wire := s.wire.(read := s.wire.read + 1));
      match s.rx.at
      case WaitMeta =>
        if out.Meta? then s1.(rx := s.rx.(at := WaitHeader(0), transferId := out.transferId, sizes := out.sizes, hasText := out.hasText))
        else Refuse(s1, if out.Refusal? then CodeOf(out.answer) else TransferRefused)
      case WaitAck(frame) =>
        if out.AckOk? && out.next.Some? then s1.(rx := s.rx.(at := WaitHeader(out.next.value)))
        else if out.AckOk? || out.Meta? || out.CommitOk? then SendCommit(s1, id)
        else Refuse(s1, if out.Refusal? then CodeOf(out.answer) else TransferRefused)
      case WaitCommit =>
        if out.AckOk? || out.Meta? || out.CommitOk? then Accepted(cfg, s1)
        else Refuse(s1, if out.Refusal? then CodeOf(out.answer) else Indeterminate)
      case _ => s
  }

  function ReadHeaderStep(cfg: Config, s: Claim): Claim {
    if !s.rx.at.WaitHeader? || s.wire.read >= |s.conn.sent| then s
    else
      var frame, out := s.rx.at.frame, s.conn.sent[s.wire.read];
      var s1 := s.(wire := s.wire.(read := s.wire.read + 1));
      if !out.Header? || frame >= |s.rx.sizes| || out.size != s.rx.sizes[frame] then Refuse(s1, TransferRefused)
      else if out.size > 0 then s1.(rx := s.rx.(at := InBody(frame, [], out.size)), spool := s.spool.(part := Some([])))
      else
        var staged := if s.rx.hasText && frame == 0 then s1 else s1.(spool := s.spool.(done := s.spool.done + [[]]));
        FrameDone(cfg, staged, frame, [])
  }

  /**
   * One chunk, whatever its bytes are. At the end of a file, what landed on the
   * disk is read back, and only a matching digest lets the frame be acknowledged.
   */
  function ReadChunkStep(cfg: Config, s: Claim, chunk: Bytes, onDisk: Bytes): Claim {
    if !s.rx.at.InBody? || s.wire.read >= |s.conn.sent| || |chunk| == 0 || |s.rx.at.got| + |chunk| > s.rx.at.size then s
    else
      var frame, got := s.rx.at.frame, s.rx.at.got + chunk;
      if |got| < s.rx.at.size then s.(rx := s.rx.(at := InBody(frame, got, s.rx.at.size)), spool := s.spool.(part := Some(got)))
      else
        var s1 := s.(wire := s.wire.(read := s.wire.read + 1), spool := s.spool.(part := None));
        if s.rx.hasText && frame == 0 then FrameDone(cfg, s1, frame, got)
        else if |onDisk| != |got| || cfg.digest(onDisk) != cfg.digest(got) then Refuse(s1, SpoolWriteFailed)
        else FrameDone(cfg, s1.(spool := s1.spool.(done := s.spool.done + [onDisk])), frame, got)
  }

  function ReceiverStep(cfg: Config, id: nat, s: Claim, e: ReceiverEvent): Claim {
    if s.task.pc != Receiving || s.rx.at == RxDone then s
    else
      match e
      case Connect(ok) =>
        if s.rx.at != Connecting then s else if ok then Send(s, BeginLine(id, None), WaitMeta) else Refuse(s, BrokerUnavailable)
      case ReadLine => ReadLineStep(cfg, id, s)
      case ReadHeader => ReadHeaderStep(cfg, s)
      case ReadChunk(chunk, onDisk) => ReadChunkStep(cfg, s, chunk, onDisk)
      case Eof => if s.rx.at == Connecting then s else Refuse(s, if s.rx.at == WaitCommit then Indeterminate else TransferRefused)
      case Timeout => Refuse(s, if s.rx.commitWritten then Indeterminate else TransferRefused)
      case TransportError => Refuse(s, if s.rx.commitWritten then Indeterminate else BrokerUnavailable)
      case Unreadable => if s.rx.commitWritten then s else Refuse(s, BrokerUnavailable)
      case LocalRefusal => if s.rx.commitWritten then s else Refuse(s, TransferRefused)
      case StagingError => if s.rx.at.InBody? || s.rx.at.WaitHeader? then Refuse(s, SpoolWriteFailed) else s
      case UnexpectedError =>
        s.(rx := s.rx.(at := RxDone), task := s.task.(pc := Holding(OnFault, Indeterminate), hold := Running), notes := s.notes.(faulted := true))
  }

  // -------------------------------------------------------------- worker threads

  /** `_quarantine` from its checks to its rename; it holds nothing when the claim is already somewhere safe. */
  function TryHold(s: Claim, ok: bool): Claim {
    if s.spool.published || s.spool.quarantined || s.spool.released then s
    else if s.spool.node == Staged && ok then s.(spool := s.spool.(node := Quarantined))
    else s.(notes := s.notes.(holdFailed := s.notes.holdFailed || s.spool.node == Staged))
  }

  function Held(s: Claim): Claim {
    s.(spool := s.spool.(quarantined := true, released := true))
  }

  function FilesLeft(spool: Spool): set<nat> {
    set i: nat | i < |spool.done| && i !in spool.missing
  }

  /**
   * `_discard` up to its listing: never past a publishing rename that is known
   * of. What it lists it goes on to unlink, even if a rename moves the directory.
   */
  function Look(s: Claim): (Claim, Option<set<nat>>) {
    if s.spool.published then (s, None)
    else if s.spool.node == Staged then (s.(notes := s.notes.(listed := true)), Some(FilesLeft(s.spool)))
    else (s.(spool := s.spool.(released := true)), None)
  }

  function Unlink(s: Claim, file: nat): Claim {
    s.(spool := s.spool.(missing := s.spool.missing + {file}))
  }

  /** The last of `_discard`: the empty directory goes, if it is still in its place. */
  function Rmdir(s: Claim): Claim {
    s.(spool := s.spool.(node := if s.spool.node == Staged then Removed else s.spool.node, released := true))
  }

  function ThreadStep(s: Claim, e: ThreadEvent): Claim {
    match e
    case PublishRename(ok) =>
      if s.task.publish != Running then s
      else if s.spool.done != [] && s.spool.part.None? && s.spool.node == Staged && ok
      then s.(spool := s.spool.(node := Published), task := s.task.(publish := Renamed))
      else s.(task := s.task.(publish := Failed))
    case PublishFlag =>
      if s.task.publish != Renamed then s
      else s.(spool := s.spool.(published := true, released := true), task := s.task.(publish := Succeeded))
    case PublishReturn =>
      if s.task.pc != Publishing then s
      else if s.task.publish == Succeeded then s.(task := s.task.(pc := Leaving(Ok)))
      else if s.task.publish == Failed then s.(task := s.task.(pc := Holding(OnPublish, SpoolPublishFailed), hold := Running))
      else s
    case HoldRename(ok) =>
      if s.task.hold != Running then s
      else
        var s1 := TryHold(s, ok);
        if s1.spool.node == Quarantined && s.spool.node == Staged then s1.(task := s.task.(hold := Renamed))
        else if s.spool.published || s.spool.quarantined || s.spool.released then s1.(task := s.task.(hold := Succeeded))
        else s1.(task := s.task.(hold := Failed))
    case HoldFlag => if s.task.hold != Renamed then s else Held(s).(task := s.task.(hold := Succeeded))
    case HoldReturn =>
      if !s.task.pc.Holding? then s
      else if s.task.hold == Succeeded then s.(task := s.task.(pc := Leaving(Refused(s.task.pc.code))))
      else if s.task.hold == Failed then s.(task := s.task.(pc := Clearing(ThenRefuse(s.task.pc.hold, s.task.pc.code)), discard := Asked))
      else s
    case ClearLook =>
      if s.task.discard != Asked then s
      else
        var (s1, listed) := Look(s);
        s1.(task := s.task.(discard := if listed.Some? then Emptying(listed.value) else Through))
    case ClearUnlink(file) =>
      if !s.task.discard.Emptying? || file !in s.task.discard.left then s
      else Unlink(s, file).(task := s.task.(discard := Emptying(s.task.discard.left - {file})))
    case ClearRmdir => if s.task.discard != Emptying({}) then s else Rmdir(s).(task := s.task.(discard := Through))
    case ClearReturn =>
      if !s.task.pc.Clearing? || s.task.discard != Through then s
      else s.(task := s.task.(pc := if s.task.pc.after.ThenRefuse? then Leaving(Refused(s.task.pc.after.code)) else Returned(s.task.pc.after.verdict)))
  }

  // ----------------------------------------------------------------- the policy

  function TaskStep(s: Claim, e: TaskEvent): Claim {
    match e
    case Enter(code) =>
      if s.task.pc != Entering then s
      else if code == Some(SpoolBusy) || code == Some(SpoolUnavailable) then s.(rx := s.rx.(at := RxDone), task := s.task.(pc := Returned(Refused(code.value))))
      else s.(task := s.task.(pc := Receiving), spool := s.spool.(node := Staged))
    case Cancel =>
      (match s.task.pc
       case Receiving => s.(rx := s.rx.(at := RxDone), task := s.task.(pc := if s.rx.commitWritten then CancelCheck else CancelExit(BeforeCommit)))
       case Publishing => s.(task := s.task.(pc := CancelCheck))
       case Holding(hold, _) => s.(task := s.task.(pc := if hold == OnPublish then CancelCheck else CancelExit(InHold)))
       case Clearing(ThenRefuse(hold, _)) => s.(task := s.task.(pc := if hold == OnPublish then CancelCheck else CancelExit(HoldTried)))
       case Clearing(ThenReturn(_)) => s.(task := s.task.(pc := Returned(Raised)))
       case _ => s)
    case Check =>
      if s.task.pc != CancelCheck then s
      else s.(task := s.task.(pc := if s.spool.published then CancelExit(HoldTried) else CancelRename))
    case CancelHold(ok) =>
      if s.task.pc != CancelRename then s
      else
        var s1 := TryHold(s, ok).(task := s.task.(pc := CancelExit(HoldTried)));
        if s1.spool.node == Quarantined && s.spool.node == Staged then Held(s1) else s1
    case Exiting =>
      if !s.task.pc.CancelExit? then s
      else s.(task := s.task.(pc := if s.spool.published || s.spool.quarantined then Returned(Raised) else CancelDiscard(s.task.pc.exit)))
    case Discarding =>
      if !s.task.pc.CancelDiscard? then s
      else
        var (s1, listed) := Look(s);
        var cut := s.task.pc.exit == InHold && listed.Some?;
        s1.(task := s.task.(pc := if listed.Some? then CancelEmptying(s.task.pc.exit, listed.value) else Returned(Raised)),
            notes := s1.notes.(holdCancelled := s.notes.holdCancelled || cut))
    case ExitUnlink(file) =>
      if !s.task.pc.CancelEmptying? || file !in s.task.pc.left then s
      else Unlink(s, file).(task := s.task.(pc := s.task.pc.(left := s.task.pc.left - {file})))
    case ExitRmdir => if !s.task.pc.CancelEmptying? || s.task.pc.left != {} then s else Rmdir(s).(task := s.task.(pc := Returned(Raised)))
    case Leave =>
      if !s.task.pc.Leaving? then s
      else if s.spool.published || s.spool.quarantined then s.(task := s.task.(pc := Returned(s.task.pc.verdict)))
      else s.(task := s.task.(pc := Clearing(ThenReturn(s.task.pc.verdict)), discard := Asked))
    case LeaveFails =>
      if !s.task.pc.Leaving? || s.spool.published || s.spool.quarantined then s
      else s.(task := s.task.(pc := Returned(Refused(Indeterminate))), notes := s.notes.(faulted := true))
  }

  // ------------------------------------------------------------------- the whole

  /** A step of the connection, noting when somebody else's call is what ended the payload. */
  function SessionMove(cfg: Config, me: nat, id: nat, s: Claim, e: SessionEvent): Claim {
    var conn := SessionStep(cfg, me, s.conn, e);
    s.(conn := conn, notes := s.notes.(takenByOthers := s.notes.takenByOthers || (e.World? && Ended(s.conn, conn, id))))
  }

  predicate Ended(c: Conn, c': Conn, id: nat) {
    id < |c.sys.core.recs| && id < |c'.sys.core.recs| && c.sys.core.recs[id].plaintext.Some? && c'.sys.core.recs[id].plaintext.None?
  }

  /** One step of anything. Lines reach the connection in order, one at a time, when its chain is at rest. */
  function ClaimStep(cfg: Config, me: nat, id: nat, s: Claim, e: ClaimEvent): Claim {
    match e
    case OfSession(session) => if session.Hear? then s else SessionMove(cfg, me, id, s, session)
    case Deliver(now) =>
      if s.conn.s.work != Rest || s.wire.taken >= |s.wire.lines| then s
      else SessionMove(cfg, me, id, s, Hear(s.wire.lines[s.wire.taken], now)).(wire := s.wire.(taken := s.wire.taken + 1))
    case OfReceiver(receiver) => ReceiverStep(cfg, id, s, receiver)
    case OfThread(thread) => ThreadStep(s, thread)
    case OfTask(task) => TaskStep(s, task)
  }

  function ClaimRun(cfg: Config, me: nat, id: nat, sys: Sys, es: seq<ClaimEvent>): Claim {
    if es == [] then Start(sys)
    else ClaimStep(cfg, me, id, ClaimRun(cfg, me, id, sys, es[..|es| - 1]), es[|es| - 1])
  }
}
