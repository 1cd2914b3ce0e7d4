/**
 * One connection of src/control-server.js holding a framed file claim: the phase
 * machine of `serveConnection`, suspended at every await, against the broker and
 * whatever else the broker is being asked meanwhile.
 */
module FileSession {
  import opened Basics
  import opened BrokerCore
  import opened BrokerSystem

  datatype SessionPhase = Idle | Beginning | Streaming | AwaitingFrameAck | AwaitingCommit | Closed

  /** The lease a connection believes it holds. */
  datatype Held = Held(id: nat, transferId: nat)

  /** What the conversation does once the write it is waiting for has completed. */
  datatype Next = SendHeader(frame: nat) | SendBody(frame: nat) | AwaitAck(frame: nat) | AwaitCommit

  /** Where the connection's one promise chain is suspended. */
  datatype Work = Rest | ManifestWork(begin: nat) | Writing(next: Next)

  /** A request line, well typed or not. */
  datatype Line =
    | BeginLine(id: nat, leaseMs: Option<int>)
    | AckLine(transferId: nat, index: nat, size: nat, digest: Digest)
    | CommitLine(id: nat, transferId: nat, received: nat, digests: seq<Digest>)
    | OtherLine

  /** What the connection writes: lines, and one header and body per frame. */
  datatype Out =
    | Meta(transferId: nat, sizes: seq<nat>, hasText: bool)
    | Header(frame: nat, size: nat)
    | Body(frame: nat, bytes: Bytes)
    | AckOk(frame: nat, next: Option<nat>)
    | CommitOk(files: int, total: nat)
    | Refusal(answer: Answer)

  datatype Session = Session(
    phase: SessionPhase, named: Option<nat>, lease: Option<Held>, frames: seq<Bytes>, outstanding: Option<nat>,
    work: Work, open: bool, flooded: bool)

  /** `won`: a commit of this connection retired a payload. */
  datatype Conn = Conn(sys: Sys, s: Session, sent: seq<Out>, won: bool)

  datatype SessionEvent =
    | Hear(line: Line, now: int)
    | ManifestDone(now: int)
    | WriteDone(ok: bool)
    | PeerClosed
    | HalfClosed
    | Flood
    | World(event: Event)

  const FreshSession: Session := Session(Idle, None, None, [], None, Rest, true, false)

  predicate Owned(r: Rec, me: nat) {
    r.transfer.Some? && r.transfer.value.owner == me
  }

  /** The broker still has the lease this connection believes it holds. */
  predicate StillHeld(sys: Sys, h: Held, me: nat) {
    h.id < |sys.core.recs| && Owned(sys.core.recs[h.id], me) && sys.core.recs[h.id].transfer.value.transferId == h.transferId
  }

  /** Everybody else: the session object never leaves its connection, and an abandon names the caller's own lease. */
  predicate Foreign(sys: Sys, e: Event, me: nat) {
    match e
    case BeginClaim(_, owner, _, _) => owner != me
    case BeginStep(begin, _) => begin < |sys.begins| ==> sys.begins[begin].owner != me
    case AckFrame(_, _, owner, _, _, _, _) => owner != me
    case CommitClaim(_, _, owner, _, _, _) => owner != me
    case Abandon(id, transferId) => !StillHeld(sys, Held(id, transferId), me)
    case _ => true
  }

  /** `releaseLease`: idempotent, because the pointer is cleared first. */
  function ReleaseLease(cfg: Config, c: Conn): Conn {
    match c.s.lease
    case None => c
    case Some(h) => c.(sys := Step(cfg, c.sys, Abandon(h.id, h.transferId)).0, s := c.s.(lease := None))
  }

  /** `answerAndClose`: the last line of a connection; a lease that survived to here was not committed. */
  function AnswerAndClose(cfg: Config, c: Conn, out: Out): Conn {
    if c.s.phase == Closed then c
    else
      var c1 := ReleaseLease(cfg, c.(s := c.s.(phase := Closed)));
      if c.s.open then c1.(sent := c1.sent + [out], s := c1.s.(open := false)) else c1
  }

  /** A write that failed, or a handler that threw. */
  function Fail(cfg: Config, c: Conn): Conn {
    var c1 := ReleaseLease(cfg, c.(s := c.s.(phase := Closed)));
    c1.(s := c1.s.(open := false, work := Rest))
  }

  /** `onLeaseLost`: the broker has taken the lease back already. */
  function Lost(c: Conn): Conn {
    c.(s := c.s.(lease := None, phase := Closed, open := false))
  }

  function WriteStep(cfg: Config, c: Conn, out: Out, next: Next): Conn {
    if c.s.phase == Closed then c.(s := c.s.(work := Rest))
    else if !c.s.open then Fail(cfg, c)
    else c.(sent := c.sent + [out], s := c.s.(work := Writing(next)))
  }

  /** The continuation after a completed write: the next write, or the phase the conversation waits in. */
  function Perform(cfg: Config, c: Conn, next: Next): Conn {
    match next
    case SendHeader(i) =>
      if i >= |c.s.frames| then Fail(cfg, c)
      else
        var size := |c.s.frames[i]|;
        WriteStep(cfg, c.(s := c.s.(phase := Streaming)), Header(i, size), if size > 0 then SendBody(i) else AwaitAck(i))
    case SendBody(i) => if i >= |c.s.frames| then Fail(cfg, c) else WriteStep(cfg, c, Body(i, c.s.frames[i]), AwaitAck(i))
    case AwaitAck(i) => c.(s := c.s.(phase := AwaitingFrameAck, outstanding := Some(i), work := Rest))
    case AwaitCommit => c.(s := c.s.(phase := AwaitingCommit, outstanding := None, work := Rest))
  }

  function HearBegin(cfg: Config, me: nat, c: Conn, id: nat, leaseMs: Option<int>, now: int): Conn {
    if c.s.phase != Idle then AnswerAndClose(cfg, c, Refusal(InvalidRequest))
    else
      var c1 := c.(s := c.s.(phase := Beginning, named := Some(id)));
      if leaseMs.Some? && leaseMs.value < 1 then AnswerAndClose(cfg, c1, Refusal(InvalidRequest))
      else if id >= |c.sys.core.recs| then AnswerAndClose(cfg, c1, Refusal(Unavailable))
      else
        var asked := if leaseMs.Some? then Some(leaseMs.value as nat) else None;
        var (sys, said) := Step(cfg, c.sys, BeginClaim(id, me, asked, now));
        if said.Said? then AnswerAndClose(cfg, c1.(sys := sys), Refusal(said.answer))
        else c1.(sys := sys, s := c1.s.(work := ManifestWork(|c.sys.begins|)))
  }

  function HearAck(cfg: Config, me: nat, c: Conn, line: Line, now: int): Conn
    requires line.AckLine?
  {
    if c.s.phase != AwaitingFrameAck || c.s.lease.None? then AnswerAndClose(cfg, c, Refusal(InvalidRequest))
    else
      var h := c.s.lease.value;
      var (sys, said) := Step(cfg, c.sys, AckFrame(h.id, line.transferId, me, line.index, line.size, line.digest, now));
      var c1 := c.(sys := sys);
      if said.Quiet? || RecordGone(sys, h.id) then Lost(c1)
      else if !said.answer.FrameAcked? then AnswerAndClose(cfg, c1, Refusal(said.answer))
      else WriteStep(cfg, c1, AckOk(line.index, said.answer.next),
                     if said.answer.next.None? then AwaitCommit else SendHeader(said.answer.next.value))
  }

  /** Touching an expired record destroys it, which reaches the holder before the call is answered. */
  predicate RecordGone(sys: Sys, id: nat) {
    id < |sys.core.recs| && sys.core.recs[id].state == Destroyed
  }

  function HearCommit(cfg: Config, me: nat, c: Conn, line: Line, now: int): Conn
    requires line.CommitLine?
  {
    if c.s.phase != AwaitingCommit || c.s.lease.None? || line.id != c.s.lease.value.id
    then AnswerAndClose(cfg, c, Refusal(InvalidRequest))
    else
      var h := c.s.lease.value;
      var (sys, said) := Step(cfg, c.sys, CommitClaim(h.id, line.transferId, me, line.received, line.digests, now));
      var c1 := c.(sys := sys);
      if said.Quiet? || RecordGone(sys, h.id) then Lost(c1)
      else if !said.answer.Committed? then AnswerAndClose(cfg, c1, Refusal(said.answer))
      else AnswerAndClose(cfg, c1.(won := true), CommitOk(said.answer.files, said.answer.bytes))
  }

  /** One line, dispatched only when the chain is at rest. */
  function HearLine(cfg: Config, me: nat, c: Conn, line: Line, now: int): Conn {
    if c.s.work != Rest || c.s.phase == Closed then c
    else
      match line
      case BeginLine(id, leaseMs) => HearBegin(cfg, me, c, id, leaseMs, now)
      case AckLine(_, _, _, _) => HearAck(cfg, me, c, line, now)
      case CommitLine(_, _, _, _) => HearCommit(cfg, me, c, line, now)
      case OtherLine => AnswerAndClose(cfg, c, Refusal(InvalidRequest))
  }

  /** The manifest pass is over: the broker decides again, and a granted lease is written out. */
  function FinishBegin(cfg: Config, c: Conn, now: int): Conn
    requires c.s.work.ManifestWork?
  {
    var (sys, said) := Step(cfg, c.sys, BeginStep(c.s.work.begin, now));
    var c1 := c.(sys := sys, s := c.s.(work := Rest));
    if said.Quiet? then c1
    else if !said.answer.Began? then AnswerAndClose(cfg, c1, Refusal(said.answer))
    else
      var lease := said.answer.lease;
      var c2 := c1.(s := c1.s.(lease := Some(Held(said.id, lease.transferId)), frames := said.answer.frames));
      WriteStep(cfg, c2, Meta(lease.transferId, lease.sizes, lease.hasPrivateText), SendHeader(0))
  }

  /** One step of the connection, or of the world around it. */
  function SessionStep(cfg: Config, me: nat, c: Conn, e: SessionEvent): Conn {
    match e
    case Hear(line, now) => HearLine(cfg, me, c, line, now)
    case ManifestDone(now) => if c.s.work.ManifestWork? then FinishBegin(cfg, c, now) else c
    case WriteDone(ok) =>
      if !c.s.work.Writing? then c
      else if !ok then Fail(cfg, c)
      else if c.s.phase == Closed then c.(s := c.s.(work := Rest))
      else Perform(cfg, c, c.s.work.next)
    case PeerClosed =>
      var c1 := ReleaseLease(cfg, c);
      c1.(s := c1.s.(open := false))
    case HalfClosed =>
      if c.s.work != Rest || c.s.lease.None? then c
      else
        var c1 := ReleaseLease(cfg, c.(s := c.s.(phase := Closed)));
        c1.(s := c1.s.(open := false))
    case Flood =>
      if c.s.phase != Streaming && c.s.phase != Beginning then c
      else
        var c1 := ReleaseLease(cfg, c.(s := c.s.(phase := Closed, flooded := true)));
        c1.(s := c1.s.(open := false))
    case World(event) =>
      if !Foreign(c.sys, event, me) then c
      else
        var c1 := c.(sys := Step(cfg, c.sys, event).0);
        if c.s.lease.Some? && !StillHeld(c1.sys, c.s.lease.value, me) then Lost(c1) else c1
  }
}
