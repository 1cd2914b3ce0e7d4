/**
 * Every interleaving of the broker's atomic stretches. A `create`, an upload
 * slot, a submission and a `beginFileClaim` each leave a continuation behind at
 * an `await`; the continuations, timers, sweeps and new calls run in any order.
 */
module BrokerSystem {
  import opened Basics
  import opened HpkeInfo
  import opened BrokerCore

  /** A `create` suspended in key generation, and the bytes it reserved before that. */
  datatype Creation = Creation(kind: Kind, bytes: nat, running: bool)

  /** A widened upload slot: its record, the lease it borrowed, and whether `release` ran. */
  datatype Slot = Slot(id: nat, lease: Option<nat>, released: bool)

  /** Where one submission is suspended. */
  datatype Stage =
    | Fingerprint(publicKey: Key)
    | Opening(result: Option<Bytes>)
    | Validating(plaintext: Bytes)
    | Settled(answer: Answer)
    | Finished(answer: Answer)

  datatype Submission = Submission(id: nat, key: EnvelopeKey, stage: Stage)

  /** A duplicate that arrived mid-flight, waiting for the outcome of the attempt it joined. */
  datatype Join = Join(task: nat, key: EnvelopeKey, waiting: bool)

  /** A `beginFileClaim` suspended in its manifest pass. */
  datatype Begin = Begin(id: nat, owner: nat, plaintext: Bytes, leaseMs: int, running: bool)

  datatype Sys = Sys(
    core: Core,
    creates: seq<Creation>,
    slots: seq<Slot>,
    submissions: seq<Submission>,
    joins: seq<Join>,
    begins: seq<Begin>,
    transfers: nat)

  datatype Event =
    | CreateBegin(kind: Kind)
    | CreateFinish(create: nat, handoffId: Bytes, capHash: Bytes, expiresAt: int, key: Key)
    | CreateFail(create: nat)
    | Acquire(id: nat, declaration: Declaration, now: int)
    | Release(slot: nat)
    | Submit(id: nat, envelope: Envelope, declaration: Declaration, now: int)
    | SubmitStep(task: nat)
    | AnswerJoin(join: nat)
    | ClaimText(id: nat, capacity: Option<nat>, now: int)
    | BeginClaim(id: nat, owner: nat, asked: Option<nat>, now: int)
    | BeginStep(begin: nat, now: int)
    | AckFrame(id: nat, transferId: nat, owner: nat, index: nat, size: nat, digest: Digest, now: int)
    | CommitClaim(id: nat, transferId: nat, owner: nat, received: nat, digests: seq<Digest>, now: int)
    | Abandon(id: nat, transferId: nat)
    | LeaseTimer(id: nat, transferId: nat)
    | SweepAll(now: int)
    | DestroyAll

  /** What one step says about one record, if it answers anybody. */
  datatype Said = Quiet | Said(id: nat, answer: Answer)

  const Init: Sys := Sys(Core(0, []), [], [], [], [], [], 0)

  function AddSubmission(s: Sys, c: Core, t: Submission): Sys {
    s.(core := c, submissions := s.submissions + [t])
  }

  function SetStage(s: Sys, c: Core, task: nat, stage: Stage): Sys
    requires task < |s.submissions|
  {
    s.(core := c, submissions := s.submissions[task := s.submissions[task].(stage := stage)])
  }

  /** An id and a capability are drawn at random; a draw that repeats an earlier one is not modelled. */
  predicate FreshDraw(s: Sys, handoffId: Bytes, capHash: Bytes) {
    && |handoffId| == ID_BYTES && |capHash| == HASH_BYTES
    && forall r :: r in s.core.recs ==> r.handoffId != handoffId && r.capHash != capHash
  }

  /** The creation stops holding its bytes: they are the record's, or given back. */
  function EndCreate(s: Sys, create: nat): seq<Creation>
    requires create < |s.creates|
  {
    s.creates[create := s.creates[create].(bytes := 0, running := false)]
  }

  function StepCreateBegin(cfg: Config, s: Sys, kind: Kind): Sys {
    if kind != Files then s.(creates := s.creates + [Creation(kind, 0, true)])
    else if !Fits(cfg, s.core, Ceiling(cfg)) then s
    else s.(core := s.core.(reserved := s.core.reserved + Ceiling(cfg)),
            creates := s.creates + [Creation(kind, Ceiling(cfg), true)])
  }

  function StepCreateFinish(s: Sys, e: Event): Sys
    requires e.CreateFinish? && e.create < |s.creates| && s.creates[e.create].running
  {
    var n := s.creates[e.create];
    if FreshDraw(s, e.handoffId, e.capHash)
    then s.(core := s.core.(recs := s.core.recs + [Minted(e.handoffId, e.capHash, n.kind, n.bytes, e.expiresAt, e.key)]),
            creates := EndCreate(s, e.create))
    else s
  }

  function StepCreateFail(s: Sys, create: nat): Sys
    requires create < |s.creates| && s.creates[create].running
  {
    s.(core := s.core.(reserved := s.core.reserved - s.creates[create].bytes), creates := EndCreate(s, create))
  }

  function StepAcquire(cfg: Config, s: Sys, e: Event): Sys
    requires e.Acquire? && e.id < |s.core.recs|
  {
    var (c, g) := AcquireSlot(cfg, s.core, e.id, e.declaration, e.now, |s.slots|);
    s.(core := c, slots := if g.held then s.slots + [Slot(e.id, g.lease, false)] else s.slots)
  }

  function StepRelease(s: Sys, e: Event): Sys
    requires e.Release?
  {
    if e.slot < |s.slots| && !s.slots[e.slot].released && s.slots[e.slot].id < |s.core.recs|
    then s.(core := ReleaseSlot(s.core, s.slots[e.slot].id, s.slots[e.slot].lease),
            slots := s.slots[e.slot := s.slots[e.slot].(released := true)])
    else s
  }

  function StepSubmit(cfg: Config, s: Sys, e: Event): (Sys, Said)
    requires e.Submit? && e.id < |s.core.recs|
  {
    var (c, o) := SubmitStart(cfg, s.core, e.id, e.envelope, e.declaration, e.now, |s.submissions|);
    match o
    case Answered(a) => (s.(core := c), Said(e.id, a))
    case Joined(task, key) => (s.(core := c, joins := s.joins + [Join(task, key, true)]), Quiet)
    case Accepting(key, early) =>
      var r := c.recs[e.id];
      (AddSubmission(s, c, Submission(e.id, key, if early && r.key.Some? then Fingerprint(r.key.value) else Settled(Unavailable))), Quiet)
  }

  /** One continuation of `acceptEnvelope`: what it does to the store, and where the submission is then. */
  function Advance(cfg: Config, c: Core, t: Submission): (Core, Stage)
    requires t.id < |c.recs|
  {
    match t.stage
    case Fingerprint(publicKey) =>
      (c, if t.key.envelope.pkfp != publicKey then Settled(Unavailable) else Opening(OpenEnvelope(c.recs[t.id], t.key)))
    case Opening(None) => (AeadFailed(cfg, c, t.id), Settled(Unavailable))
    case Opening(Some(plaintext)) =>
      if |plaintext| > MaxPayload(cfg, t.key.kind) then (c, Settled(Unavailable))
      else if t.key.kind == Files then (c, Validating(plaintext))
      else
        var (c', a) := SubmitGate(cfg, c, t.id, t.key, plaintext);
        (c', Settled(a))
    case Validating(plaintext) =>
      if cfg.decode(plaintext).None? then (ContainerFailed(cfg, c, t.id), Settled(Unavailable))
      else
        var (c', a) := SubmitGate(cfg, c, t.id, t.key, plaintext);
        (c', Settled(a))
    case _ => (c, t.stage)
  }

  /** A suspended submission goes on; once settled, the `finally` clears the attempt and answers it. */
  function StepSubmission(cfg: Config, s: Sys, task: nat): (Sys, Said)
    requires task < |s.submissions| && s.submissions[task].id < |s.core.recs|
  {
    var t := s.submissions[task];
    match t.stage
    case Settled(a) => (SetStage(s, SubmitSettle(s.core, t.id, task), task, Finished(a)), Said(t.id, a))
    case Finished(_) => (s, Quiet)
    case _ =>
      var (c, stage) := Advance(cfg, s.core, t);
      (SetStage(s, c, task, stage), Quiet)
  }

  /** Once the attempt has settled, a duplicate is answered what the attempt was. */
  function StepJoin(s: Sys, join: nat): (Sys, Said)
    requires join < |s.joins| && s.joins[join].task < |s.submissions|
  {
    var j := s.joins[join];
    var t := s.submissions[j.task];
    if !j.waiting || !t.stage.Finished? then (s, Quiet)
    else (s.(joins := s.joins[join := j.(waiting := false)]), Said(t.id, t.stage.answer))
  }

  function StepBegin(cfg: Config, s: Sys, e: Event): (Sys, Said)
    requires e.BeginClaim? && e.id < |s.core.recs|
  {
    var (c, o) := BeginStart(cfg, s.core, e.id, e.asked, e.now);
    match o
    case BeginRefused(a) => (s.(core := c), Said(e.id, a))
    case ManifestPass(plaintext, leaseMs) =>
      (s.(core := c, begins := s.begins + [Begin(e.id, e.owner, plaintext, leaseMs, true)]), Quiet)
  }

  function StepBegun(cfg: Config, s: Sys, e: Event): (Sys, Said)
    requires e.BeginStep? && e.begin < |s.begins| && s.begins[e.begin].id < |s.core.recs|
  {
    var b := s.begins[e.begin];
    var (c, a) := BeginFinish(cfg, s.core, b.id, b.plaintext, b.leaseMs, b.owner, s.transfers, e.now);
    (s.(core := c, begins := s.begins[e.begin := b.(running := false)], transfers := s.transfers + 1), Said(b.id, a))
  }

  /** One atomic step. An event that nothing is waiting for changes nothing. */
  function Step(cfg: Config, s: Sys, e: Event): (Sys, Said) {
    match e
    case CreateBegin(kind) => (StepCreateBegin(cfg, s, kind), Quiet)
    case CreateFinish(create, _, _, _, _) =>
      (if create < |s.creates| && s.creates[create].running then StepCreateFinish(s, e) else s, Quiet)
    case CreateFail(create) =>
      (if create < |s.creates| && s.creates[create].running then StepCreateFail(s, create) else s, Quiet)
    case Acquire(id, _, _) => if id < |s.core.recs| then (StepAcquire(cfg, s, e), Quiet) else (s, Quiet)
    case Release(_) => (StepRelease(s, e), Quiet)
    case Submit(id, _, _, _) => if id < |s.core.recs| then StepSubmit(cfg, s, e) else (s, Quiet)
    case SubmitStep(task) =>
      if task < |s.submissions| && s.submissions[task].id < |s.core.recs| then StepSubmission(cfg, s, task) else (s, Quiet)
    case AnswerJoin(join) =>
      if join < |s.joins| && s.joins[join].task < |s.submissions| then StepJoin(s, join) else (s, Quiet)
    case ClaimText(id, capacity, now) =>
      if id < |s.core.recs| then
        var (c, a) := Claim(s.core, id, capacity, now);
        (s.(core := c), Said(id, a))
      else (s, Quiet)
    case BeginClaim(id, _, _, _) => if id < |s.core.recs| then StepBegin(cfg, s, e) else (s, Quiet)
    case BeginStep(begin, _) =>
      if begin < |s.begins| && s.begins[begin].running && s.begins[begin].id < |s.core.recs| then StepBegun(cfg, s, e) else (s, Quiet)
    case AckFrame(id, transferId, owner, index, size, digest, now) =>
      if id < |s.core.recs| then
        var (c, a) := Ack(s.core, id, transferId, owner, index, size, digest, now);
        (s.(core := c), Said(id, a))
      else (s, Quiet)
    case CommitClaim(id, transferId, owner, received, digests, now) =>
      if id < |s.core.recs| then
        var (c, a) := Commit(s.core, id, transferId, owner, received, digests, now);
        (s.(core := c), Said(id, a))
      else (s, Quiet)
    case Abandon(id, transferId) => (if id < |s.core.recs| then s.(core := EndLease(s.core, id, transferId)) else s, Quiet)
    case LeaseTimer(id, transferId) => (if id < |s.core.recs| then s.(core := EndLease(s.core, id, transferId)) else s, Quiet)
    case SweepAll(now) => (s.(core := Sweep(s.core, now, |s.core.recs|)), Quiet)
    case DestroyAll => (s.(core := DestroyFirst(s.core, |s.core.recs|)), Quiet)
  }

  /** The state after a run of events. */
  function Run(cfg: Config, es: seq<Event>): Sys {
    if es == [] then Init else Step(cfg, Run(cfg, es[..|es| - 1]), es[|es| - 1]).0
  }

  /** What the `n`-th event of a run answered. */
  function SaidAt(cfg: Config, es: seq<Event>, n: nat): Said
    requires n < |es|
  {
    Step(cfg, Run(cfg, es[..n]), es[n]).1
  }
}
