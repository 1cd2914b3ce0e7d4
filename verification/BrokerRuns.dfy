/** The broker's guarantees over every run: any events, in any order, from an empty store. */
module BrokerRuns {
  import opened Basics
  import opened HpkeInfo
  import opened BrokerCore
  import opened BrokerSystem
  import opened BrokerInvariants

  function CreateBytes(creates: seq<Creation>): seq<nat> {
    seq(|creates|, i requires 0 <= i < |creates| => creates[i].bytes)
  }

  predicate CreatesInv(cfg: Config, creates: seq<Creation>) {
    forall i :: 0 <= i < |creates| ==>
      creates[i].bytes == if creates[i].running && creates[i].kind == Files then Ceiling(cfg) else 0
  }

  /** The counter is the sum of the records' reservations and of the creations still in flight, and stays within the limit. */
  predicate BudgetInv(cfg: Config, c: Core, creates: seq<Creation>) {
    Slack(c) == Sum(CreateBytes(creates)) && c.reserved <= cfg.maxLiveFileBytes
  }

  predicate DistinctDraws(recs: seq<Rec>) {
    forall i, j :: 0 <= i < j < |recs| ==> recs[i].handoffId != recs[j].handoffId && recs[i].capHash != recs[j].capHash
  }

  /** While an attempt is being opened its record can only wait or die: no other submission can win. */
  predicate AwaitingGate(r: Rec, key: EnvelopeKey) {
    && (r.state == Pending || r.state == Destroyed) && LaneOpen(r, key.kind)
    && CiphertextBytes(key.envelope.box) > AEAD_TAG_BYTES
  }

  /** The record has been decided for this envelope and lane. */
  predicate Fixed(r: Rec, key: EnvelopeKey) {
    r.state != Pending && r.envelopeKey == Some(key)
  }

  predicate StageInv(cfg: Config, r: Rec, t: Submission) {
    match t.stage
    case Fingerprint(_) => AwaitingGate(r, t.key)
    case Opening(None) => AwaitingGate(r, t.key)
    case Opening(Some(p)) => AwaitingGate(r, t.key) && SealedFor(r.handoffId, r.capHash, t.key) && t.key.envelope.box.plaintext == p
    case Validating(p) =>
      && AwaitingGate(r, t.key) && t.key.kind == Files
      && SealedFor(r.handoffId, r.capHash, t.key) && t.key.envelope.box.plaintext == p && |p| <= MaxPayload(cfg, Files)
    case Settled(a) => a == Unavailable || (a == Receipt(t.key) && Fixed(r, t.key))
    case Finished(a) => a == Unavailable || (a == Receipt(t.key) && Fixed(r, t.key))
  }

  /** An unfinished attempt is the one its record names. */
  predicate SubmissionInv(cfg: Config, recs: seq<Rec>, t: Submission, task: nat) {
    && t.id < |recs|
    && StageInv(cfg, recs[t.id], t)
    && (!t.stage.Finished? ==> recs[t.id].inFlight == Some(InFlight(t.key, task)))
  }

  predicate InFlightInv(subs: seq<Submission>, r: Rec, id: nat) {
    r.inFlight.Some? ==>
      var task := r.inFlight.value.task;
      task < |subs| && subs[task].id == id && !subs[task].stage.Finished?
  }

  /** At most one attempt per record is unfinished, and the record names it. */
  predicate SubmissionsInv(cfg: Config, recs: seq<Rec>, subs: seq<Submission>) {
    && (forall t :: 0 <= t < |subs| ==> SubmissionInv(cfg, recs, subs[t], t))
    && (forall id :: 0 <= id < |recs| ==> InFlightInv(subs, recs[id], id))
  }

  /** A borrowed reservation always belongs to an upload slot that has not been released yet. */
  predicate LeaseHeld(slots: seq<Slot>, r: Rec, id: nat) {
    r.submitLease.Some? ==>
      var token := r.submitLease.value;
      token < |slots| && slots[token] == Slot(id, Some(token), false)
  }

  predicate SlotsInv(recs: seq<Rec>, slots: seq<Slot>) {
    && (forall k :: 0 <= k < |slots| ==> slots[k].id < |recs|)
    && (forall k :: 0 <= k < |slots| && !slots[k].released ==> recs[slots[k].id].bodySlotBusy)
    && (forall j, k :: 0 <= j < k < |slots| && !slots[j].released && !slots[k].released ==> slots[j].id != slots[k].id)
    && (forall k :: 0 <= k < |slots| ==> slots[k].lease.None? || slots[k].lease.value == k)
    && (forall id :: 0 <= id < |recs| ==> LeaseHeld(slots, recs[id], id))
  }

  predicate BeginInv(r: Rec, b: Begin) {
    r.state != Pending && r.payloadKind == Files && (r.plaintext.Some? ==> r.plaintext.value == b.plaintext)
  }

  predicate BeginsInv(recs: seq<Rec>, begins: seq<Begin>) {
    forall b :: 0 <= b < |begins| ==> begins[b].id < |recs| && BeginInv(recs[begins[b].id], begins[b])
  }

  predicate SysInv(cfg: Config, s: Sys) {
    && CoreInv(cfg, s.core) && BudgetInv(cfg, s.core, s.creates) && CreatesInv(cfg, s.creates) && DistinctDraws(s.core.recs)
    && SubmissionsInv(cfg, s.core.recs, s.submissions) && SlotsInv(s.core.recs, s.slots) && BeginsInv(s.core.recs, s.begins)
  }

  /** Between two states of a run, every record that existed has evolved lawfully. */
  predicate AllEvolve(recs: seq<Rec>, recs': seq<Rec>) {
    |recs| <= |recs'| && forall i :: 0 <= i < |recs| ==> Evolves(recs[i], recs'[i])
  }

  /** What an answer says about the record it answers for, before and after the step. */
  predicate SaidInv(s: Sys, e: Event, s': Sys, said: Said) {
    said.Said? ==>
      && said.id < |s.core.recs| <= |s'.core.recs|
      && var r, r' := s.core.recs[said.id], s'.core.recs[said.id];
      && (said.answer.Receipt? ==> Fixed(r', said.answer.key))
      && (said.answer.Delivered? ==> r.plaintext == Some(said.answer.payload) && r'.state == Claimed)
      && (said.answer.Committed? ==> r.state == Transferring && r'.state == Claimed && e.CommitClaim? && e.id == said.id)
      && said.answer != TransferFailed(IncompleteTransfer)
  }

  ghost predicate StepOk(cfg: Config, s: Sys, s': Sys) {
    SysInv(cfg, s') && AllEvolve(s.core.recs, s'.core.recs)
  }

  // -------------------------------------------- one record changes, the rest stay

  predicate Moved(recs: seq<Rec>, recs': seq<Rec>, id: nat) {
    id < |recs| == |recs'| && recs' == recs[id := recs'[id]]
  }

  /** Everything except the suspended calls follows from what one atomic stretch keeps. */
  lemma CoreChange(cfg: Config, c: Core, c': Core, id: nat, creates: seq<Creation>, begins: seq<Begin>)
    requires Keeps(cfg, c, c', id)
    requires CoreInv(cfg, c) && BudgetInv(cfg, c, creates) && DistinctDraws(c.recs) && BeginsInv(c.recs, begins)
    ensures CoreInv(cfg, c') && BudgetInv(cfg, c', creates) && DistinctDraws(c'.recs) && BeginsInv(c'.recs, begins)
    ensures AllEvolve(c.recs, c'.recs)
  {
    hide RecInv, Slack;
    assert forall i :: 0 <= i < |c.recs| && i != id ==> c'.recs[i] == c.recs[i];
  }

  lemma SubmissionsChange(cfg: Config, recs: seq<Rec>, recs': seq<Rec>, subs: seq<Submission>, id: nat)
    requires SubmissionsInv(cfg, recs, subs)
    requires Moved(recs, recs', id)
    requires Evolves(recs[id], recs'[id]) && recs'[id].inFlight == recs[id].inFlight
    requires recs[id].state == Pending ==> recs'[id].state == Pending || recs'[id].state == Destroyed
    ensures SubmissionsInv(cfg, recs', subs)
  {
    forall t | 0 <= t < |subs|
      ensures SubmissionInv(cfg, recs', subs[t], t)
    {
      assert SubmissionInv(cfg, recs, subs[t], t);
    }
    forall i | 0 <= i < |recs'|
      ensures InFlightInv(subs, recs'[i], i)
    {
      assert InFlightInv(subs, recs[i], i);
    }
  }

  lemma SlotsChange(recs: seq<Rec>, recs': seq<Rec>, slots: seq<Slot>, id: nat)
    requires SlotsInv(recs, slots)
    requires Moved(recs, recs', id)
    requires recs'[id].bodySlotBusy == recs[id].bodySlotBusy
    requires recs'[id].submitLease == recs[id].submitLease || recs'[id].submitLease.None?
    ensures SlotsInv(recs', slots)
  {
    forall i | 0 <= i < |recs'|
      ensures LeaseHeld(slots, recs'[i], i)
    {
      assert LeaseHeld(slots, recs[i], i);
    }
  }

  /** The suspended calls survive a quiet change of one record. */
  lemma QuietChange(cfg: Config, s: Sys, c: Core, id: nat)
    requires SysInv(cfg, s) && KeepsQuietly(cfg, s.core, c, id)
    ensures StepOk(cfg, s, s.(core := c))
  {
    CoreChange(cfg, s.core, c, id, s.creates, s.begins);
    SubmissionsChange(cfg, s.core.recs, c.recs, s.submissions, id);
    SlotsChange(s.core.recs, c.recs, s.slots, id);
  }

  lemma EvolveThen(a: seq<Rec>, b: seq<Rec>, c: seq<Rec>)
    requires AllEvolve(a, b) && AllEvolve(b, c)
    ensures AllEvolve(a, c)
  {
    forall i | 0 <= i < |a|
      ensures Evolves(a[i], c[i])
    {
      assert Evolves(a[i], b[i]) && Evolves(b[i], c[i]);
    }
  }

  function Touched(s: Sys, id: nat, now: int): Sys
    requires id < |s.core.recs|
  {
    s.(core := Touch(s.core, id, now))
  }

  lemma TouchFirst(cfg: Config, s: Sys, id: nat, now: int)
    requires SysInv(cfg, s) && id < |s.core.recs|
    ensures var s1 := Touched(s, id, now);
      && StepOk(cfg, s, s1) && |s1.core.recs| == |s.core.recs|
      && (s1 == s || (s1.core.recs[id].state == Destroyed && RecInv(cfg, s1.core.recs[id])))
  {
    TouchKeeps(cfg, s.core, id, now);
    QuietChange(cfg, s, Touch(s.core, id, now), id);
  }

  /** A call that first touches its record may be judged from the touched state. */
  lemma AfterTouch(cfg: Config, s: Sys, e: Event, s': Sys, said: Said, id: nat, now: int)
    requires id < |s.core.recs| && (said.Said? ==> said.id == id)
    requires var s1 := Touched(s, id, now);
      && StepOk(cfg, s, s1) && StepOk(cfg, s1, s') && SaidInv(s1, e, s', said)
      && (s1 == s || (s1.core.recs[id].state == Destroyed && RecInv(cfg, s1.core.recs[id])))
    ensures StepOk(cfg, s, s') && SaidInv(s, e, s', said)
  {
    EvolveThen(s.core.recs, Touched(s, id, now).core.recs, s'.core.recs);
    hide SysInv, AllEvolve, Evolves, Touch;
  }

  lemma SweepKeeps(cfg: Config, s: Sys, now: int, n: nat)
    requires SysInv(cfg, s) && n <= |s.core.recs|
    ensures StepOk(cfg, s, s.(core := Sweep(s.core, now, n)))
  {
    hide SysInv, Evolves;
    if n > 0 {
      SweepKeeps(cfg, s, now, n - 1);
      var s1 := s.(core := Sweep(s.core, now, n - 1));
      TouchKeeps(cfg, s1.core, n - 1, now);
      var c := Touch(s1.core, n - 1, now);
      QuietChange(cfg, s1, c, n - 1);
      EvolveThen(s.core.recs, s1.core.recs, c.recs);
      assert s1.(core := c) == s.(core := Sweep(s.core, now, n));
    } else {
      AllEvolveRefl(s.core.recs);
    }
  }

  lemma AllEvolveRefl(recs: seq<Rec>)
    ensures AllEvolve(recs, recs)
  {
  }

  lemma DestroyAllKeeps(cfg: Config, s: Sys, n: nat)
    requires SysInv(cfg, s) && n <= |s.core.recs|
    ensures StepOk(cfg, s, s.(core := DestroyFirst(s.core, n)))
  {
    hide SysInv, Evolves;
    if n > 0 {
      DestroyAllKeeps(cfg, s, n - 1);
      var s1 := s.(core := DestroyFirst(s.core, n - 1));
      DestroyKeeps(cfg, s1.core, n - 1);
      var c := Destroy(s1.core, n - 1);
      QuietChange(cfg, s1, c, n - 1);
      EvolveThen(s.core.recs, s1.core.recs, c.recs);
      assert s1.(core := c) == s.(core := DestroyFirst(s.core, n));
    } else {
      AllEvolveRefl(s.core.recs);
    }
  }

  // ------------------------------------------------------------------- creation

  lemma CreateBytesUpdate(creates: seq<Creation>, i: nat, n: Creation)
    requires i < |creates|
    ensures Sum(CreateBytes(creates[i := n])) == Sum(CreateBytes(creates)) - creates[i].bytes + n.bytes
  {
    assert CreateBytes(creates[i := n]) == CreateBytes(creates)[i := n.bytes];
    SumUpdate(CreateBytes(creates), i, n.bytes);
  }

  lemma CreateBeginKeeps(cfg: Config, s: Sys, kind: Kind)
    requires SysInv(cfg, s)
    ensures StepOk(cfg, s, StepCreateBegin(cfg, s, kind))
  {
    var s' := StepCreateBegin(cfg, s, kind);
    if s' != s {
      var n := s'.creates[|s.creates|];
      assert CreateBytes(s'.creates) == CreateBytes(s.creates) + [n.bytes];
      assert CreateBytes(s'.creates)[..|s.creates|] == CreateBytes(s.creates);
    }
  }

  /** A new record is appended: nothing that is suspended refers to it yet. */
  lemma AppendKeeps(cfg: Config, s: Sys, r: Rec)
    requires SubmissionsInv(cfg, s.core.recs, s.submissions) && SlotsInv(s.core.recs, s.slots) && BeginsInv(s.core.recs, s.begins)
    requires r.inFlight.None? && r.submitLease.None?
    ensures var recs := s.core.recs + [r];
      SubmissionsInv(cfg, recs, s.submissions) && SlotsInv(recs, s.slots) && BeginsInv(recs, s.begins)
  {
    var recs := s.core.recs + [r];
    forall t | 0 <= t < |s.submissions|
      ensures SubmissionInv(cfg, recs, s.submissions[t], t)
    {
      assert SubmissionInv(cfg, s.core.recs, s.submissions[t], t);
    }
    forall i | 0 <= i < |recs|
      ensures InFlightInv(s.submissions, recs[i], i) && LeaseHeld(s.slots, recs[i], i)
    {
      if i < |s.core.recs| {
        assert InFlightInv(s.submissions, s.core.recs[i], i) && LeaseHeld(s.slots, s.core.recs[i], i);
      }
    }
  }

  lemma AppendBudget(cfg: Config, c: Core, creates: seq<Creation>, i: nat, r: Rec)
    requires BudgetInv(cfg, c, creates) && i < |creates| && r.reservedBytes == creates[i].bytes
    ensures BudgetInv(cfg, c.(recs := c.recs + [r]), creates[i := creates[i].(bytes := 0, running := false)])
  {
    CreateBytesUpdate(creates, i, creates[i].(bytes := 0, running := false));
    assert ReservedOf(c.recs + [r]) == ReservedOf(c.recs) + [r.reservedBytes];
    assert ReservedOf(c.recs + [r])[..|c.recs|] == ReservedOf(c.recs);
  }

  lemma CreateFinishKeeps(cfg: Config, s: Sys, e: Event)
    requires SysInv(cfg, s) && e.CreateFinish? && e.create < |s.creates| && s.creates[e.create].running
    ensures StepOk(cfg, s, StepCreateFinish(s, e))
  {
    if FreshDraw(s, e.handoffId, e.capHash) {
      var n := s.creates[e.create];
      var r := Minted(e.handoffId, e.capHash, n.kind, n.bytes, e.expiresAt, e.key);
      assert RecInv(cfg, r);
      AppendKeeps(cfg, s, r);
      AppendBudget(cfg, s.core, s.creates, e.create, r);
      MintedIsDistinct(s, r);
      hide RecInv, BudgetInv, SubmissionsInv, SlotsInv, BeginsInv;
      var recs := s.core.recs + [r];
      assert forall i :: 0 <= i < |s.core.recs| ==> recs[i] == s.core.recs[i];
      assert CoreInv(cfg, s.core.(recs := recs));
    }
  }

  lemma MintedIsDistinct(s: Sys, r: Rec)
    requires DistinctDraws(s.core.recs) && FreshDraw(s, r.handoffId, r.capHash)
    ensures DistinctDraws(s.core.recs + [r])
  {
    assert forall i :: 0 <= i < |s.core.recs| ==> s.core.recs[i] in s.core.recs;
  }

  lemma CreateFailKeeps(cfg: Config, s: Sys, create: nat)
    requires SysInv(cfg, s) && create < |s.creates| && s.creates[create].running
    ensures StepOk(cfg, s, StepCreateFail(s, create))
  {
    CreateBytesUpdate(s.creates, create, s.creates[create].(bytes := 0, running := false));
  }

  // --------------------------------------------------------------- upload slots

  lemma AcquireStepKeeps(cfg: Config, s: Sys, e: Event)
    requires SysInv(cfg, s) && e.Acquire? && e.id < |s.core.recs|
    ensures StepOk(cfg, s, StepAcquire(cfg, s, e))
  {
    TouchFirst(cfg, s, e.id, e.now);
    var s1 := Touched(s, e.id, e.now);
    AcquireKeeps(cfg, s1.core, e.id, e.declaration, |s.slots|);
    var (c, g) := AcquireSlotLive(cfg, s1.core, e.id, e.declaration, |s.slots|);
    hide Touch, AcquireSlotLive, RecInv, Evolves;
    if g.held {
      CoreChange(cfg, s1.core, c, e.id, s.creates, s.begins);
      SubmissionsChange(cfg, s1.core.recs, c.recs, s.submissions, e.id);
      SlotAdded(s1.core.recs, c.recs, s.slots, e.id, g.lease);
      EvolveThen(s.core.recs, s1.core.recs, c.recs);
    }
  }

  lemma SlotAdded(recs: seq<Rec>, recs': seq<Rec>, slots: seq<Slot>, id: nat, lease: Option<nat>)
    requires SlotsInv(recs, slots) && Moved(recs, recs', id)
    requires !recs[id].bodySlotBusy && recs'[id].bodySlotBusy
    requires if lease.Some? then lease.value == |slots| && recs'[id].submitLease == lease
             else recs'[id].submitLease == recs[id].submitLease || recs'[id].submitLease.None?
    ensures SlotsInv(recs', slots + [Slot(id, lease, false)])
  {
    forall i | 0 <= i < |recs'|
      ensures LeaseHeld(slots + [Slot(id, lease, false)], recs'[i], i)
    {
      assert LeaseHeld(slots, recs[i], i);
    }
  }

  lemma SlotReleased(recs: seq<Rec>, recs': seq<Rec>, slots: seq<Slot>, k: nat)
    requires SlotsInv(recs, slots) && k < |slots| && !slots[k].released
    requires var id := slots[k].id;
      && Moved(recs, recs', id)
      && (recs'[id].submitLease == recs[id].submitLease || recs'[id].submitLease.None?)
      && (slots[k].lease.Some? ==> recs'[id].submitLease != slots[k].lease)
    ensures SlotsInv(recs', slots[k := slots[k].(released := true)])
  {
    forall i | 0 <= i < |recs'|
      ensures LeaseHeld(slots[k := slots[k].(released := true)], recs'[i], i)
    {
      assert LeaseHeld(slots, recs[i], i);
    }
  }

  lemma ReleaseStepKeeps(cfg: Config, s: Sys, e: Event)
    requires SysInv(cfg, s) && e.Release?
    ensures StepOk(cfg, s, StepRelease(s, e))
  {
    if e.slot < |s.slots| && !s.slots[e.slot].released {
      var slot := s.slots[e.slot];
      ReleaseSlotKeeps(cfg, s.core, slot.id, slot.lease);
      var c := ReleaseSlot(s.core, slot.id, slot.lease);
      hide ReleaseSlot, RecInv, Evolves, Slack;
      CoreChange(cfg, s.core, c, slot.id, s.creates, s.begins);
      SubmissionsChange(cfg, s.core.recs, c.recs, s.submissions, slot.id);
      SlotReleased(s.core.recs, c.recs, s.slots, e.slot);
    }
  }

  // ---------------------------------------------------------------- submissions

  lemma SubmissionAdded(cfg: Config, recs: seq<Rec>, recs': seq<Rec>, subs: seq<Submission>, t: Submission)
    requires SubmissionsInv(cfg, recs, subs) && Moved(recs, recs', t.id)
    requires recs[t.id].inFlight.None? && SubmissionInv(cfg, recs', t, |subs|) && !t.stage.Finished? && Evolves(recs[t.id], recs'[t.id])
    ensures SubmissionsInv(cfg, recs', subs + [t])
  {
    forall u | 0 <= u < |subs|
      ensures SubmissionInv(cfg, recs', subs[u], u)
    {
      assert SubmissionInv(cfg, recs, subs[u], u);
    }
    forall i | 0 <= i < |recs'|
      ensures InFlightInv(subs + [t], recs'[i], i)
    {
      assert InFlightInv(subs, recs[i], i);
    }
  }

  lemma SubmitStepKeeps(cfg: Config, s: Sys, e: Event)
    requires SysInv(cfg, s) && e.Submit? && e.id < |s.core.recs|
    ensures var (s', said) := StepSubmit(cfg, s, e); StepOk(cfg, s, s') && SaidInv(s, e, s', said)
  {
    TouchFirst(cfg, s, e.id, e.now);
    var s1 := Touched(s, e.id, e.now);
    var (s', said) := StepSubmit(cfg, s, e);
    SubmitStartKeeps(cfg, s1.core, e.id, e.envelope, e.declaration, |s.submissions|);
    var (c, o) := SubmitStartLive(cfg, s1.core, e.id, e.envelope, e.declaration, |s.submissions|);
    AllEvolveRefl(s1.core.recs);
    hide Touch, SubmitStartLive, RecInv, Evolves, BudgetInv, DistinctDraws, CreatesInv, BeginsInv, Slack;
    if o.Accepting? {
      CoreChange(cfg, s1.core, c, e.id, s.creates, s.begins);
      SlotsChange(s1.core.recs, c.recs, s.slots, e.id);
      SubmissionAdded(cfg, s1.core.recs, c.recs, s.submissions, s'.submissions[|s.submissions|]);
    }
    AfterTouch(cfg, s, e, s', said, e.id, e.now);
  }

  lemma SubmissionAdvanced(cfg: Config, recs: seq<Rec>, recs': seq<Rec>, subs: seq<Submission>, task: nat, t: Submission)
    requires SubmissionsInv(cfg, recs, subs) && task < |subs| && !subs[task].stage.Finished?
    requires t.id == subs[task].id && Moved(recs, recs', t.id)
    requires SubmissionInv(cfg, recs', t, task)
    requires t.stage.Finished? <==> recs'[t.id].inFlight.None?
    requires Evolves(recs[t.id], recs'[t.id])
    requires !t.stage.Finished? ==> recs'[t.id].inFlight == recs[t.id].inFlight
    ensures SubmissionsInv(cfg, recs', subs[task := t])
  {
    assert SubmissionInv(cfg, recs, subs[task], task);
    forall u | 0 <= u < |subs| && u != task
      ensures SubmissionInv(cfg, recs', subs[u], u)
    {
      assert SubmissionInv(cfg, recs, subs[u], u);
    }
    forall i | 0 <= i < |recs'|
      ensures InFlightInv(subs[task := t], recs'[i], i)
    {
      assert InFlightInv(subs, recs[i], i);
    }
  }

  /** A continuation moves its own submission to the next stage and changes its record quietly. */
  lemma StageChange(cfg: Config, s: Sys, c: Core, task: nat, stage: Stage)
    requires SysInv(cfg, s) && task < |s.submissions| && !s.submissions[task].stage.Finished? && !stage.Finished?
    requires var id := s.submissions[task].id;
      && Keeps(cfg, s.core, c, id)
      && LeavesCallers(s.core.recs[id], c.recs[id].(state := s.core.recs[id].state))
      && StageInv(cfg, c.recs[id], s.submissions[task].(stage := stage))
    ensures StepOk(cfg, s, SetStage(s, c, task, stage))
  {
    var t := s.submissions[task];
    assert SubmissionInv(cfg, s.core.recs, t, task);
    CoreChange(cfg, s.core, c, t.id, s.creates, s.begins);
    SlotsChange(s.core.recs, c.recs, s.slots, t.id);
    SubmissionAdvanced(cfg, s.core.recs, c.recs, s.submissions, task, t.(stage := stage));
  }

  lemma FinishKeeps(cfg: Config, s: Sys, task: nat, e: Event)
    requires SysInv(cfg, s) && task < |s.submissions| && s.submissions[task].stage.Settled?
    ensures var (s', said) := StepSubmission(cfg, s, task); StepOk(cfg, s, s') && SaidInv(s, e, s', said)
  {
    var t := s.submissions[task];
    assert SubmissionInv(cfg, s.core.recs, t, task);
    SettleKeeps(cfg, s.core, t.id, task);
    var c := SubmitSettle(s.core, t.id, task);
    CoreChange(cfg, s.core, c, t.id, s.creates, s.begins);
    SlotsChange(s.core.recs, c.recs, s.slots, t.id);
    SubmissionAdvanced(cfg, s.core.recs, c.recs, s.submissions, task, t.(stage := Finished(t.stage.answer)));
  }

  lemma StageOf(cfg: Config, s: Sys, task: nat)
    requires SysInv(cfg, s) && task < |s.submissions|
    ensures SubmissionInv(cfg, s.core.recs, s.submissions[task], task)
    ensures CoreInv(cfg, s.core) && AllEvolve(s.core.recs, s.core.recs)
  {
  }

  /** Each continuation leaves its submission in a lawful stage and the store in a lawful state. */
  lemma AdvanceKeeps(cfg: Config, c: Core, t: Submission)
    requires CoreInv(cfg, c) && t.id < |c.recs| && StageInv(cfg, c.recs[t.id], t) && !t.stage.Settled? && !t.stage.Finished?
    ensures var (c', stage) := Advance(cfg, c, t);
      && !stage.Finished?
      && Keeps(cfg, c, c', t.id)
      && LeavesCallers(c.recs[t.id], c'.recs[t.id].(state := c.recs[t.id].state))
      && StageInv(cfg, c'.recs[t.id], t.(stage := stage))
  {
    KeepsRefl(cfg, c, t.id);
    OpenedIsSealed(c.recs[t.id], t.key);
    hide RecInv, Evolves, Slack, SubmitGate, AeadFailed, ContainerFailed, SealedFor, OpenEnvelope;
    match t.stage
    case Fingerprint(_) =>
    case Opening(None) => AeadFailedKeeps(cfg, c, t.id);
    case Opening(Some(p)) =>
      if |p| <= MaxPayload(cfg, t.key.kind) && t.key.kind != Files { SubmitGateKeeps(cfg, c, t.id, t.key, p); }
    case Validating(p) =>
      if cfg.decode(p).None? { ContainerFailedKeeps(cfg, c, t.id); } else { SubmitGateKeeps(cfg, c, t.id, t.key, p); }
  }

  lemma SubmissionStepKeeps(cfg: Config, s: Sys, task: nat, e: Event)
    requires SysInv(cfg, s) && task < |s.submissions|
    ensures var (s', said) := StepSubmission(cfg, s, task); StepOk(cfg, s, s') && SaidInv(s, e, s', said)
  {
    var t := s.submissions[task];
    StageOf(cfg, s, task);
    if t.stage.Settled? {
      FinishKeeps(cfg, s, task, e);
    } else if !t.stage.Finished? {
      AdvanceKeeps(cfg, s.core, t);
      var (c, stage) := Advance(cfg, s.core, t);
      StageChange(cfg, s, c, task, stage);
    }
  }

  /** A duplicate hears what is true of the record its attempt was for. */
  lemma JoinStepKeeps(cfg: Config, s: Sys, join: nat, e: Event)
    requires SysInv(cfg, s)
    ensures join < |s.joins| && s.joins[join].task < |s.submissions| ==>
      var (s', said) := StepJoin(s, join); StepOk(cfg, s, s') && SaidInv(s, e, s', said)
  {
    AllEvolveRefl(s.core.recs);
    if join < |s.joins| && s.joins[join].task < |s.submissions| {
      assert SubmissionInv(cfg, s.core.recs, s.submissions[s.joins[join].task], s.joins[join].task);
    }
    hide RecInv, Evolves, Slack;
  }

  lemma OpenedIsSealed(r: Rec, key: EnvelopeKey)
    ensures OpenEnvelope(r, key).Some? ==>
      SealedFor(r.handoffId, r.capHash, key) && key.envelope.box.plaintext == OpenEnvelope(r, key).value
  {
  }

  // ---------------------------------------------------------------- file claims

  lemma BeginStepKeeps(cfg: Config, s: Sys, e: Event)
    requires SysInv(cfg, s) && e.BeginClaim? && e.id < |s.core.recs|
    ensures var (s', said) := StepBegin(cfg, s, e); StepOk(cfg, s, s') && SaidInv(s, e, s', said)
  {
    TouchFirst(cfg, s, e.id, e.now);
    var s1 := Touched(s, e.id, e.now);
    var (s', said) := StepBegin(cfg, s, e);
    BeginStartKeeps(cfg, s1.core, e.id, e.asked, e.now);
    var (c, o) := BeginStartLive(cfg, s1.core, e.id, e.asked, e.now);
    AllEvolveRefl(s1.core.recs);
    hide Touch, BeginStartLive, RecInv, Evolves, SubmissionsInv, SlotsInv, BudgetInv, DistinctDraws, CreatesInv;
    if o.ManifestPass? {
      assert BeginInv(c.recs[e.id], Begin(e.id, e.owner, o.plaintext, o.leaseMs, true));
    }
    AfterTouch(cfg, s, e, s', said, e.id, e.now);
  }

  lemma BegunStepKeeps(cfg: Config, s: Sys, e: Event)
    requires SysInv(cfg, s) && e.BeginStep? && e.begin < |s.begins| && s.begins[e.begin].running
    ensures var (s', said) := StepBegun(cfg, s, e); StepOk(cfg, s, s') && SaidInv(s, e, s', said)
  {
    var b := s.begins[e.begin];
    assert BeginInv(s.core.recs[b.id], b);
    BeginFinishKeeps(cfg, s.core, b.id, b.plaintext, b.leaseMs, b.owner, s.transfers, e.now);
    var (c, _) := BeginFinish(cfg, s.core, b.id, b.plaintext, b.leaseMs, b.owner, s.transfers, e.now);
    QuietChange(cfg, s, c, b.id);
    assert BeginInv(c.recs[b.id], b.(running := false));
  }

  /** A call that ends in a quiet change of its touched record. */
  lemma QuietCall(cfg: Config, s: Sys, e: Event, c: Core, a: Answer, id: nat, now: int)
    requires SysInv(cfg, s) && id < |s.core.recs|
    requires var s1 := Touched(s, id, now);
      && StepOk(cfg, s, s1)
      && (s1 == s || (s1.core.recs[id].state == Destroyed && RecInv(cfg, s1.core.recs[id])))
      && KeepsQuietly(cfg, s1.core, c, id) && SaidInv(s1, e, s1.(core := c), Said(id, a))
    ensures StepOk(cfg, s, s.(core := c)) && SaidInv(s, e, s.(core := c), Said(id, a))
  {
    QuietChange(cfg, Touched(s, id, now), c, id);
    AfterTouch(cfg, s, e, s.(core := c), Said(id, a), id, now);
  }

  lemma ClaimCallKeeps(cfg: Config, s: Sys, e: Event)
    requires SysInv(cfg, s) && e.ClaimText? && e.id < |s.core.recs|
    ensures var (c, a) := Claim(s.core, e.id, e.capacity, e.now);
      StepOk(cfg, s, s.(core := c)) && SaidInv(s, e, s.(core := c), Said(e.id, a))
  {
    TouchFirst(cfg, s, e.id, e.now);
    CoreOf(cfg, Touched(s, e.id, e.now));
    hide RecInv, Evolves, SysInv, AllEvolve, Touch, ClaimLive, Slack;
    ClaimKeeps(cfg, Touch(s.core, e.id, e.now), e.id, e.capacity);
    var (c, a) := Claim(s.core, e.id, e.capacity, e.now);
    QuietCall(cfg, s, e, c, a, e.id, e.now);
  }

  lemma AckCallKeeps(cfg: Config, s: Sys, e: Event)
    requires SysInv(cfg, s) && e.AckFrame? && e.id < |s.core.recs|
    ensures var (c, a) := Ack(s.core, e.id, e.transferId, e.owner, e.index, e.size, e.digest, e.now);
      StepOk(cfg, s, s.(core := c)) && SaidInv(s, e, s.(core := c), Said(e.id, a))
  {
    TouchFirst(cfg, s, e.id, e.now);
    CoreOf(cfg, Touched(s, e.id, e.now));
    hide RecInv, Evolves, SysInv, AllEvolve, Touch, AckLive, Slack;
    AckKeeps(cfg, Touch(s.core, e.id, e.now), e.id, e.transferId, e.owner, e.index, e.size, e.digest);
    var (c, a) := Ack(s.core, e.id, e.transferId, e.owner, e.index, e.size, e.digest, e.now);
    QuietCall(cfg, s, e, c, a, e.id, e.now);
  }

  lemma CommitCallKeeps(cfg: Config, s: Sys, e: Event)
    requires SysInv(cfg, s) && e.CommitClaim? && e.id < |s.core.recs|
    ensures var (c, a) := Commit(s.core, e.id, e.transferId, e.owner, e.received, e.digests, e.now);
      StepOk(cfg, s, s.(core := c)) && SaidInv(s, e, s.(core := c), Said(e.id, a))
  {
    TouchFirst(cfg, s, e.id, e.now);
    CoreOf(cfg, Touched(s, e.id, e.now));
    hide RecInv, Evolves, SysInv, AllEvolve, Touch, CommitLive, Slack;
    CommitKeeps(cfg, Touch(s.core, e.id, e.now), e.id, e.transferId, e.owner, e.received, e.digests);
    var (c, a) := Commit(s.core, e.id, e.transferId, e.owner, e.received, e.digests, e.now);
    QuietCall(cfg, s, e, c, a, e.id, e.now);
  }

  lemma CoreOf(cfg: Config, s: Sys)
    requires SysInv(cfg, s)
    ensures CoreInv(cfg, s.core)
  {
  }

  lemma NothingSaid(s: Sys, e: Event, s': Sys)
    ensures SaidInv(s, e, s', Quiet)
  {
  }

  predicate Arriving(e: Event) {
    e.CreateBegin? || e.CreateFinish? || e.CreateFail? || e.Acquire? || e.Release? || e.Submit? || e.SubmitStep? || e.AnswerJoin?
  }

  lemma ArrivingStepKeeps(cfg: Config, s: Sys, e: Event)
    requires SysInv(cfg, s) && Arriving(e)
    ensures var (s', said) := Step(cfg, s, e); StepOk(cfg, s, s') && SaidInv(s, e, s', said)
  {
    AllEvolveRefl(s.core.recs);
    SubmissionsExist(cfg, s);
    NothingSaid(s, e, Step(cfg, s, e).0);
    hide SysInv, AllEvolve, SaidInv, StepSubmit, StepSubmission, StepJoin, StepAcquire, StepRelease, StepCreateBegin, StepCreateFinish, StepCreateFail;
    match e
    case CreateBegin(kind) => CreateBeginKeeps(cfg, s, kind);
    case CreateFinish(create, _, _, _, _) =>
      if create < |s.creates| && s.creates[create].running { CreateFinishKeeps(cfg, s, e); }
    case CreateFail(create) =>
      if create < |s.creates| && s.creates[create].running { CreateFailKeeps(cfg, s, create); }
    case Acquire(id, _, _) => if id < |s.core.recs| { AcquireStepKeeps(cfg, s, e); }
    case Release(_) => ReleaseStepKeeps(cfg, s, e);
    case Submit(id, _, _, _) => if id < |s.core.recs| { SubmitStepKeeps(cfg, s, e); }
    case SubmitStep(task) => if task < |s.submissions| { SubmissionStepKeeps(cfg, s, task, e); }
    case AnswerJoin(join) => JoinStepKeeps(cfg, s, join, e);
  }

  lemma LeavingStepKeeps(cfg: Config, s: Sys, e: Event)
    requires SysInv(cfg, s) && !Arriving(e)
    ensures var (s', said) := Step(cfg, s, e); StepOk(cfg, s, s') && SaidInv(s, e, s', said)
  {
    AllEvolveRefl(s.core.recs);
    SubmissionsExist(cfg, s);
    NothingSaid(s, e, Step(cfg, s, e).0);
    hide SysInv, AllEvolve, SaidInv, StepBegin, StepBegun, Sweep, DestroyFirst, Claim, Ack, Commit, EndLease;
    match e
    case ClaimText(id, _, _) => if id < |s.core.recs| { ClaimCallKeeps(cfg, s, e); }
    case BeginClaim(id, _, _, _) => if id < |s.core.recs| { BeginStepKeeps(cfg, s, e); }
    case BeginStep(begin, _) => if begin < |s.begins| && s.begins[begin].running { BegunStepKeeps(cfg, s, e); }
    case AckFrame(id, _, _, _, _, _, _) => if id < |s.core.recs| { AckCallKeeps(cfg, s, e); }
    case CommitClaim(id, _, _, _, _, _) => if id < |s.core.recs| { CommitCallKeeps(cfg, s, e); }
    case Abandon(id, transferId) => if id < |s.core.recs| { EndLeaseStepKeeps(cfg, s, id, transferId); }
    case LeaseTimer(id, transferId) => if id < |s.core.recs| { EndLeaseStepKeeps(cfg, s, id, transferId); }
    case SweepAll(now) => SweepKeeps(cfg, s, now, |s.core.recs|);
    case DestroyAll => DestroyAllKeeps(cfg, s, |s.core.recs|);
  }

  /** Every step keeps the invariant, evolves the records lawfully and answers truthfully. */
  lemma StepKeeps(cfg: Config, s: Sys, e: Event)
    requires SysInv(cfg, s)
    ensures var (s', said) := Step(cfg, s, e); StepOk(cfg, s, s') && SaidInv(s, e, s', said)
  {
    hide SysInv, SaidInv, Step, StepOk;
    if Arriving(e) {
      ArrivingStepKeeps(cfg, s, e);
    } else {
      LeavingStepKeeps(cfg, s, e);
    }
  }

  lemma EndLeaseStepKeeps(cfg: Config, s: Sys, id: nat, transferId: nat)
    requires SysInv(cfg, s) && id < |s.core.recs|
    ensures StepOk(cfg, s, s.(core := EndLease(s.core, id, transferId)))
  {
    EndLeaseKeeps(cfg, s.core, id, transferId);
    hide SysInv, EndLease, RecInv, Evolves;
    QuietChange(cfg, s, EndLease(s.core, id, transferId), id);
  }

  lemma SubmissionsExist(cfg: Config, s: Sys)
    requires SysInv(cfg, s)
    ensures forall t :: 0 <= t < |s.submissions| ==> s.submissions[t].id < |s.core.recs|
    ensures forall b :: 0 <= b < |s.begins| ==> s.begins[b].id < |s.core.recs|
  {
    forall t | 0 <= t < |s.submissions|
      ensures s.submissions[t].id < |s.core.recs|
    {
      assert SubmissionInv(cfg, s.core.recs, s.submissions[t], t);
    }
  }
}
