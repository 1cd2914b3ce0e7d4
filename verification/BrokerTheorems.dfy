/** The main results about the broker. Each holds of every run `es`, so of every interleaving. */
module BrokerTheorems {
  import opened Basics
  import opened HpkeInfo
  import opened BrokerCore
  import opened BrokerSystem
  import opened BrokerInvariants
  import opened BrokerRuns

  lemma {:induction false} RunKeeps(cfg: Config, es: seq<Event>)
    ensures SysInv(cfg, Run(cfg, es))
  {
    if es != [] {
      RunKeeps(cfg, es[..|es| - 1]);
      StepKeeps(cfg, Run(cfg, es[..|es| - 1]), es[|es| - 1]);
    }
  }

  lemma {:induction false} RunEvolves(cfg: Config, es: seq<Event>, n: nat)
    requires n <= |es|
    ensures AllEvolve(Run(cfg, es[..n]).core.recs, Run(cfg, es).core.recs)
    decreases |es|
  {
    hide SysInv, Evolves, Step;
    if n == |es| {
      assert es[..n] == es;
      AllEvolveRefl(Run(cfg, es).core.recs);
    } else {
      var front := es[..|es| - 1];
      assert front[..n] == es[..n];
      RunEvolves(cfg, front, n);
      RunKeeps(cfg, front);
      StepKeeps(cfg, Run(cfg, front), es[|es| - 1]);
      EvolveThen(Run(cfg, es[..n]).core.recs, Run(cfg, front).core.recs, Run(cfg, es).core.recs);
    }
  }

  /** What the `n`-th answer says is still true of the record at the end of the run. */
  lemma SaidLasts(cfg: Config, es: seq<Event>, n: nat)
    requires n < |es| && SaidAt(cfg, es, n).Said?
    ensures var said := SaidAt(cfg, es, n);
      var before, after, end := Run(cfg, es[..n]).core.recs, Run(cfg, es[..n + 1]).core.recs, Run(cfg, es).core.recs;
      && said.id < |before| <= |after| <= |end|
      && SaidInv(Run(cfg, es[..n]), es[n], Run(cfg, es[..n + 1]), said)
      && Evolves(before[said.id], after[said.id]) && Evolves(after[said.id], end[said.id])
  {
    hide SysInv, Step, Evolves;
    RunKeeps(cfg, es[..n]);
    assert es[..n + 1][..n] == es[..n];
    StepKeeps(cfg, Run(cfg, es[..n]), es[n]);
    RunEvolves(cfg, es, n + 1);
  }

  // ------------------------------------------------------------------ the budget

  /** Bytes of file payload the broker is holding for one record. */
  function ResidentFileBytes(r: Rec): nat {
    if r.payloadKind == Files && r.plaintext.Some? then |r.plaintext.value| else 0
  }

  function Resident(recs: seq<Rec>): seq<nat> {
    seq(|recs|, i requires 0 <= i < |recs| => ResidentFileBytes(recs[i]))
  }

  lemma {:induction false} SumMonotone(a: seq<nat>, b: seq<nat>)
    requires |a| == |b| && forall i :: 0 <= i < |a| ==> a[i] <= b[i]
    ensures Sum(a) <= Sum(b)
  {
    if a != [] {
      SumMonotone(a[..|a| - 1], b[..|b| - 1]);
    }
  }

  /**
   * Conservation: the counter is exactly the records' reservations plus what
   * unfinished creations hold, never negative and never over the limit, and it
   * bounds the file payload actually resident.
   */
  lemma BudgetConserved(cfg: Config, es: seq<Event>)
    ensures var s := Run(cfg, es);
      && s.core.reserved == Sum(ReservedOf(s.core.recs)) + Sum(CreateBytes(s.creates))
      && 0 <= Sum(Resident(s.core.recs)) <= s.core.reserved <= cfg.maxLiveFileBytes
  {
    RunKeeps(cfg, es);
    var recs := Run(cfg, es).core.recs;
    forall i | 0 <= i < |recs|
      ensures Resident(recs)[i] <= ReservedOf(recs)[i]
    {
      assert RecInv(cfg, recs[i]);
    }
    SumMonotone(Resident(recs), ReservedOf(recs));
  }

  /** A reservation has a reason: an unclaimed `files` drop, or an upload that has not been released. */
  predicate ReservationExplained(s: Sys, id: nat)
    requires id < |s.core.recs|
  {
    var r := s.core.recs[id];
    || (r.state == Pending && r.mintedKind == Files)
    || (HoldsPayload(r) && r.payloadKind == Files)
    || exists k :: 0 <= k < |s.slots| && s.slots[k].id == id && !s.slots[k].released
  }

  /** No reservation leaks: once a record's uploads are released, only an unclaimed `files` drop still holds one. */
  lemma NoLeakedReservation(cfg: Config, es: seq<Event>, id: nat)
    requires id < |Run(cfg, es).core.recs|
    ensures var s := Run(cfg, es);
      s.core.recs[id].reservedBytes == 0 || (s.core.recs[id].reservedBytes == Ceiling(cfg) && ReservationExplained(s, id))
  {
    RunKeeps(cfg, es);
    var s := Run(cfg, es);
    assert RecInv(cfg, s.core.recs[id]) && LeaseHeld(s.slots, s.core.recs[id], id);
  }

  // -------------------------------------------------------------- one submission

  /** Two receipts for one handoff are for the same envelope in the same lane, and it was sealed for that handoff. */
  lemma OneWinningSubmission(cfg: Config, es: seq<Event>, m: nat, n: nat)
    requires m < |es| && n < |es|
    requires SaidAt(cfg, es, m).Said? && SaidAt(cfg, es, n).Said?
    requires SaidAt(cfg, es, m).answer.Receipt? && SaidAt(cfg, es, n).answer.Receipt?
    ensures SaidAt(cfg, es, m).id < |Run(cfg, es).core.recs|
    ensures SaidAt(cfg, es, m).id == SaidAt(cfg, es, n).id <==> SaidAt(cfg, es, m).answer == SaidAt(cfg, es, n).answer
    ensures var r, key := Run(cfg, es).core.recs[SaidAt(cfg, es, m).id], SaidAt(cfg, es, m).answer.key;
      Fixed(r, key) && SealedFor(r.handoffId, r.capHash, key) && r.payloadKind == key.kind
  {
    SaidLasts(cfg, es, m);
    SaidLasts(cfg, es, n);
    RunKeeps(cfg, es);
    var i, j := SaidAt(cfg, es, m).id, SaidAt(cfg, es, n).id;
    var s := Run(cfg, es);
    assert RecInv(cfg, s.core.recs[i]) && RecInv(cfg, s.core.recs[j]);
    if SaidAt(cfg, es, m).answer.key == SaidAt(cfg, es, n).answer.key {
      OneBoxOneRecord(cfg, s, i, j, SaidAt(cfg, es, m).answer.key);
    }
  }

  /** Every duplicate waits for the attempt on its own envelope in its own lane. */
  predicate JoinsInv(subs: seq<Submission>, joins: seq<Join>) {
    forall j :: 0 <= j < |joins| ==> joins[j].task < |subs| && subs[joins[j].task].key == joins[j].key
  }

  /** Attempts keep their key, and a duplicate that joins has the key of what it joins. */
  predicate JoinsMove(s: Sys, s': Sys, e: Event) {
    && |s.submissions| <= |s'.submissions| && |s.joins| <= |s'.joins| <= |s.joins| + 1
    && (forall t :: 0 <= t < |s.submissions| ==> s'.submissions[t].key == s.submissions[t].key)
    && (forall j :: 0 <= j < |s.joins| ==> s'.joins[j].task == s.joins[j].task && s'.joins[j].key == s.joins[j].key)
    && (|s'.joins| > |s.joins| ==>
          var j := s'.joins[|s.joins|];
          && e.Submit? && j.key.envelope == e.envelope
          && j.task < |s.submissions| && s.submissions[j.task].key == j.key)
  }

  lemma StepMovesJoins(cfg: Config, s: Sys, e: Event)
    requires SysInv(cfg, s)
    ensures JoinsMove(s, Step(cfg, s, e).0, e)
  {
    hide SysInv, StepSubmit, StepSubmission, StepAcquire, StepRelease, StepCreateBegin, StepCreateFinish, StepCreateFail, StepBegin, StepBegun, Sweep, DestroyFirst, Claim, Ack, Commit, EndLease, JoinsMove;
    if e.Submit? && e.id < |s.core.recs| {
      SubmitMovesJoins(cfg, s, e);
    } else {
      OthersMoveJoins(cfg, s, e);
    }
  }

  lemma OthersMoveJoins(cfg: Config, s: Sys, e: Event)
    requires !e.Submit? || e.id >= |s.core.recs|
    ensures JoinsMove(s, Step(cfg, s, e).0, e)
  {
    hide SysInv, StepSubmit, Advance, SubmitSettle, Touch, Sweep, DestroyFirst, Claim, Ack, Commit, AcquireSlot, BeginStart, BeginFinish, ReleaseSlot, EndLease;
  }

  lemma SubmitMovesJoins(cfg: Config, s: Sys, e: Event)
    requires SysInv(cfg, s) && e.Submit? && e.id < |s.core.recs|
    ensures JoinsMove(s, StepSubmit(cfg, s, e).0, e)
  {
    var r := Touch(s.core, e.id, e.now).recs[e.id];
    assert InFlightInv(s.submissions, s.core.recs[e.id], e.id);
    if s.core.recs[e.id].inFlight.Some? {
      assert SubmissionInv(cfg, s.core.recs, s.submissions[s.core.recs[e.id].inFlight.value.task], s.core.recs[e.id].inFlight.value.task);
    }
    hide SysInv, ShapeValid, ResolveKind, PassesEarlyChecks;
  }

  /** The envelope was submitted in some call of the run. */
  predicate Sent(es: seq<Event>, envelope: Envelope) {
    exists m :: 0 <= m < |es| && es[m].Submit? && es[m].envelope == envelope
  }

  predicate AllSent(es: seq<Event>, joins: seq<Join>) {
    forall j :: 0 <= j < |joins| ==> Sent(es, joins[j].key.envelope)
  }

  lemma SentLater(es: seq<Event>, envelope: Envelope)
    requires es != []
    ensures Sent(es[..|es| - 1], envelope) || (es[|es| - 1].Submit? && es[|es| - 1].envelope == envelope) ==> Sent(es, envelope)
  {
    if Sent(es[..|es| - 1], envelope) {
      var m :| 0 <= m < |es| - 1 && es[..|es| - 1][m].Submit? && es[..|es| - 1][m].envelope == envelope;
      assert es[m].Submit? && es[m].envelope == envelope;
    }
  }

  lemma {:induction false} JoinsHold(cfg: Config, es: seq<Event>)
    ensures JoinsInv(Run(cfg, es).submissions, Run(cfg, es).joins) && AllSent(es, Run(cfg, es).joins)
  {
    hide SysInv, Step, Sent;
    if es != [] {
      var front, e := es[..|es| - 1], es[|es| - 1];
      JoinsHold(cfg, front);
      RunKeeps(cfg, front);
      StepMovesJoins(cfg, Run(cfg, front), e);
      forall j | 0 <= j < |Run(cfg, es).joins|
        ensures Sent(es, Run(cfg, es).joins[j].key.envelope)
      {
        SentLater(es, Run(cfg, es).joins[j].key.envelope);
      }
    }
  }

  /** A duplicate that waited for the winner hears a receipt only for the envelope it was sent with. */
  lemma DuplicatesHearTheirOwn(cfg: Config, es: seq<Event>, n: nat)
    requires n < |es| && es[n].AnswerJoin? && SaidAt(cfg, es, n).Said? && SaidAt(cfg, es, n).answer.Receipt?
    ensures var joins := Run(cfg, es[..n]).joins;
      && es[n].join < |joins| && SaidAt(cfg, es, n).answer.key == joins[es[n].join].key
      && Sent(es[..n], SaidAt(cfg, es, n).answer.key.envelope)
  {
    hide SysInv, RecInv, Sent;
    var s := Run(cfg, es[..n]);
    RunKeeps(cfg, es[..n]);
    JoinsHold(cfg, es[..n]);
    AttemptIsTrue(cfg, s, s.joins[es[n].join].task);
  }

  lemma AttemptIsTrue(cfg: Config, s: Sys, t: nat)
    requires SysInv(cfg, s) && t < |s.submissions| && s.submissions[t].stage.Finished? && s.submissions[t].stage.answer.Receipt?
    ensures s.submissions[t].stage.answer.key == s.submissions[t].key
  {
    assert SubmissionInv(cfg, s.core.recs, s.submissions[t], t);
  }

  /** One box has one `info`, and `info` determines the handoff it was sealed for. */
  lemma OneBoxOneRecord(cfg: Config, s: Sys, i: nat, j: nat, key: EnvelopeKey)
    requires SysInv(cfg, s) && i < |s.core.recs| && j < |s.core.recs|
    requires SealedFor(s.core.recs[i].handoffId, s.core.recs[i].capHash, key) && SealedFor(s.core.recs[j].handoffId, s.core.recs[j].capHash, key)
    ensures i == j
  {
    var r, q := s.core.recs[i], s.core.recs[j];
    assert RecInv(cfg, r) && RecInv(cfg, q);
    InfoInjective(r.handoffId, r.capHash, VersionOf(key.kind), q.handoffId, q.capHash, VersionOf(key.kind));
  }

  /** At most one submission per record is being opened at any moment. */
  lemma OneAttemptInFlight(cfg: Config, es: seq<Event>, t: nat, u: nat)
    requires var subs := Run(cfg, es).submissions;
      && t < |subs| && u < |subs| && subs[t].id == subs[u].id
      && !subs[t].stage.Finished? && !subs[u].stage.Finished?
    ensures t == u
  {
    RunKeeps(cfg, es);
    var s := Run(cfg, es);
    assert SubmissionInv(cfg, s.core.recs, s.submissions[t], t) && SubmissionInv(cfg, s.core.recs, s.submissions[u], u);
  }

  /** Once a record leaves `pending` its kind and its envelope never change again. */
  lemma KindIsFixed(cfg: Config, es: seq<Event>, n: nat, id: nat)
    requires n <= |es| && id < |Run(cfg, es[..n]).core.recs| && Run(cfg, es[..n]).core.recs[id].state != Pending
    ensures id < |Run(cfg, es).core.recs|
    ensures var r, r' := Run(cfg, es[..n]).core.recs[id], Run(cfg, es).core.recs[id];
      r'.state != Pending && r'.payloadKind == r.payloadKind && r'.envelopeKey == r.envelopeKey
      && (r'.plaintext.Some? ==> r'.plaintext == r.plaintext)
  {
    RunEvolves(cfg, es, n);
    assert Evolves(Run(cfg, es[..n]).core.recs[id], Run(cfg, es).core.recs[id]);
  }

  // ---------------------------------------------------------------- one delivery

  predicate HandsOver(said: Said) {
    said.Said? && (said.answer.Delivered? || said.answer.Committed?)
  }

  lemma StaysSpent(cfg: Config, es: seq<Event>, m: nat, n: nat)
    requires m < n <= |es| && HandsOver(SaidAt(cfg, es, m))
    ensures var id, recs := SaidAt(cfg, es, m).id, Run(cfg, es[..n]).core.recs;
      id < |recs| && recs[id].plaintext.None? && (recs[id].state == Claimed || recs[id].state == Destroyed)
  {
    SaidLasts(cfg, es, m);
    assert es[..n][..m + 1] == es[..m + 1];
    RunEvolves(cfg, es[..n], m + 1);
    RunKeeps(cfg, es[..n]);
    var id, later := SaidAt(cfg, es, m).id, Run(cfg, es[..n]).core.recs;
    assert Evolves(Run(cfg, es[..m + 1]).core.recs[id], later[id]) && RecInv(cfg, later[id]);
  }

  /** A text claim and a file commit together succeed at most once per handoff. */
  lemma OneDelivery(cfg: Config, es: seq<Event>, m: nat, n: nat)
    requires m <= n < |es|
    requires HandsOver(SaidAt(cfg, es, m)) && HandsOver(SaidAt(cfg, es, n))
    requires SaidAt(cfg, es, m).id == SaidAt(cfg, es, n).id
    ensures m == n
  {
    SaidLasts(cfg, es, n);
    if m < n {
      StaysSpent(cfg, es, m, n);
    }
  }

  /** What a text claim delivers is what the receipted envelope was sealed with. */
  lemma DeliversWhatWasSealed(cfg: Config, es: seq<Event>, m: nat, n: nat)
    requires m < |es| && n < |es|
    requires SaidAt(cfg, es, m).Said? && SaidAt(cfg, es, m).answer.Receipt?
    requires SaidAt(cfg, es, n).Said? && SaidAt(cfg, es, n).answer.Delivered?
    requires SaidAt(cfg, es, m).id == SaidAt(cfg, es, n).id
    ensures var box := SaidAt(cfg, es, m).answer.key.envelope.box;
      box.Box? && SaidAt(cfg, es, n).answer.payload == box.plaintext
  {
    SaidLasts(cfg, es, m);
    SaidLasts(cfg, es, n);
    RunKeeps(cfg, es[..n]);
    RunKeeps(cfg, es);
    var id := SaidAt(cfg, es, n).id;
    var r := Run(cfg, es[..n]).core.recs[id];
    assert RecInv(cfg, r) && PayloadInv(cfg, r.payloadKind, r.envelopeKey, r.plaintext.value);
    // The record was no longer pending when it delivered, so its envelope is the one at the end of the run.
    assert Evolves(r, Run(cfg, es[..n + 1]).core.recs[id]);
  }

  /** Plaintext is held exactly in `submitted` and `transferring`, and a lease exists exactly in `transferring`. */
  lemma PayloadExactlyWhenHeld(cfg: Config, es: seq<Event>, id: nat)
    requires id < |Run(cfg, es).core.recs|
    ensures var r := Run(cfg, es).core.recs[id];
      && (r.plaintext.Some? <==> r.state == Submitted || r.state == Transferring)
      && (r.transfer.Some? <==> r.state == Transferring)
      && (r.key.Some? <==> r.state == Pending)
  {
    RunKeeps(cfg, es);
    assert RecInv(cfg, Run(cfg, es).core.recs[id]);
  }

  /** A text claim's answer in terms of the state before the call: a refusal for size leaves everything as it was. */
  lemma ClaimAnswers(cfg: Config, s: Sys, e: Event)
    requires SysInv(cfg, s) && e.ClaimText? && e.id < |s.core.recs|
    ensures var (s', said) := Step(cfg, s, e);
      && said.Said?
      && (said.answer.Delivered? ==> |said.answer.payload| > 0 && (e.capacity.Some? ==> |said.answer.payload| <= e.capacity.value))
      && (said.answer.ResponseTooLarge? ==> s' == s && e.capacity.Some? && said.answer.payloadBytes > e.capacity.value && said.answer.payloadBytes > 0)
  {
    TouchFirst(cfg, s, e.id, e.now);
    CoreOf(cfg, Touched(s, e.id, e.now));
    var c := Touch(s.core, e.id, e.now);
    assert RecInv(cfg, c.recs[e.id]);
    ClaimKeeps(cfg, c, e.id, e.capacity);
  }

  // ---------------------------------------------------------- evidence of receipt

  /** Some earlier event acknowledged this frame, under this lease, with its exact size and digest. */
  ghost predicate Acked(cfg: Config, es: seq<Event>, id: nat, lease: Lease, frame: nat)
    requires frame < |lease.sizes| == |lease.digests|
  {
    exists k, now :: 0 <= k < |es|
      && es[k] == AckFrame(id, lease.transferId, lease.owner, frame, lease.sizes[frame], lease.digests[frame], now)
      && SaidAt(cfg, es, k).Said? && SaidAt(cfg, es, k).answer.FrameAcked?
  }

  lemma SaidEarlier(cfg: Config, es: seq<Event>, n: nat, k: nat)
    requires k < n <= |es|
    ensures SaidAt(cfg, es[..n], k) == SaidAt(cfg, es, k)
  {
    assert es[..n][..k] == es[..k];
  }

  lemma AckedLater(cfg: Config, es: seq<Event>, n: nat, id: nat, lease: Lease, frame: nat)
    requires n <= |es| && frame < |lease.sizes| == |lease.digests|
    requires Acked(cfg, es[..n], id, lease, frame)
    ensures Acked(cfg, es, id, lease, frame)
  {
    hide SaidAt;
    var k, now :| 0 <= k < n
      && es[..n][k] == AckFrame(id, lease.transferId, lease.owner, frame, lease.sizes[frame], lease.digests[frame], now)
      && SaidAt(cfg, es[..n], k).Said? && SaidAt(cfg, es[..n], k).answer.FrameAcked?;
    SaidEarlier(cfg, es, n, k);
    assert es[k] == AckFrame(id, lease.transferId, lease.owner, frame, lease.sizes[frame], lease.digests[frame], now)
      && SaidAt(cfg, es, k).Said? && SaidAt(cfg, es, k).answer.FrameAcked?;
  }

  /** Leases are changed by acks and granted by begins; every other step leaves a lease alone or ends it. */
  predicate LeasesKept(recs: seq<Rec>, recs': seq<Rec>) {
    && |recs| <= |recs'|
    && (forall i :: 0 <= i < |recs| ==> recs'[i].transfer.None? || recs'[i].transfer == recs[i].transfer)
    && (forall i :: |recs| <= i < |recs'| ==> recs'[i].transfer.None?)
  }

  lemma DestroyEndsLease(c: Core, id: nat, now: int)
    requires id < |c.recs|
    ensures LeasesKept(c.recs, Destroy(c, id).recs) && LeasesKept(c.recs, Touch(c, id, now).recs)
  {
  }

  lemma {:induction false} SweepEndsLeases(c: Core, now: int, n: nat)
    requires n <= |c.recs|
    ensures LeasesKept(c.recs, Sweep(c, now, n).recs) && LeasesKept(c.recs, DestroyFirst(c, n).recs)
  {
    hide Destroy, Touch;
    if n > 0 {
      SweepEndsLeases(c, now, n - 1);
      DestroyEndsLease(Sweep(c, now, n - 1), n - 1, now);
      DestroyEndsLease(DestroyFirst(c, n - 1), n - 1, now);
    }
  }

  lemma SubmitKeepsLeases(cfg: Config, s: Sys, e: Event)
    requires e.Submit? && e.id < |s.core.recs|
    ensures LeasesKept(s.core.recs, StepSubmit(cfg, s, e).0.core.recs)
  {
    DestroyEndsLease(s.core, e.id, e.now);
    hide Destroy, Touch;
  }

  lemma GateKeepsLeases(cfg: Config, c: Core, id: nat, key: EnvelopeKey, p: Bytes, task: nat)
    requires id < |c.recs|
    ensures LeasesKept(c.recs, SubmitGate(cfg, c, id, key, p).0.recs) && LeasesKept(c.recs, SubmitSettle(c, id, task).recs)
  {
  }

  lemma FailureKeepsLeases(cfg: Config, c: Core, id: nat)
    requires id < |c.recs|
    ensures LeasesKept(c.recs, AeadFailed(cfg, c, id).recs) && LeasesKept(c.recs, ContainerFailed(cfg, c, id).recs)
  {
  }

  lemma AdvanceKeepsLeases(cfg: Config, c: Core, t: Submission)
    requires t.id < |c.recs|
    ensures LeasesKept(c.recs, Advance(cfg, c, t).0.recs)
  {
    FailureKeepsLeases(cfg, c, t.id);
    var p := if t.stage.Opening? && t.stage.result.Some? then t.stage.result.value else if t.stage.Validating? then t.stage.plaintext else [];
    GateKeepsLeases(cfg, c, t.id, t.key, p, 0);
    hide SubmitGate, AeadFailed, ContainerFailed;
  }

  lemma SubmissionKeepsLeases(cfg: Config, s: Sys, task: nat)
    requires task < |s.submissions| && s.submissions[task].id < |s.core.recs|
    ensures LeasesKept(s.core.recs, StepSubmission(cfg, s, task).0.core.recs)
  {
    var t := s.submissions[task];
    AdvanceKeepsLeases(cfg, s.core, t);
    GateKeepsLeases(cfg, s.core, t.id, t.key, [], task);
    hide Advance, SubmitSettle, SubmitGate;
  }

  lemma SlotsKeepLeases(cfg: Config, s: Sys, e: Event)
    ensures e.Acquire? && e.id < |s.core.recs| ==> LeasesKept(s.core.recs, StepAcquire(cfg, s, e).core.recs)
    ensures e.Release? ==> LeasesKept(s.core.recs, StepRelease(s, e).core.recs)
  {
    if e.Acquire? && e.id < |s.core.recs| {
      DestroyEndsLease(s.core, e.id, e.now);
    }
    hide Destroy, Touch;
  }

  lemma ClaimKeepsLeases(c: Core, id: nat, capacity: Option<nat>, now: int)
    requires id < |c.recs|
    ensures LeasesKept(c.recs, Claim(c, id, capacity, now).0.recs)
  {
    DestroyEndsLease(c, id, now);
    hide Destroy, Touch;
  }

  lemma CommitKeepsLeases(c: Core, id: nat, transferId: nat, owner: nat, received: nat, digests: seq<Digest>, now: int)
    requires id < |c.recs|
    ensures LeasesKept(c.recs, Commit(c, id, transferId, owner, received, digests, now).0.recs)
  {
    DestroyEndsLease(c, id, now);
    hide Destroy, Touch;
  }

  lemma CreationsKeepLeases(cfg: Config, s: Sys, e: Event)
    requires e.CreateBegin? || e.CreateFinish? || e.CreateFail?
    ensures LeasesKept(s.core.recs, Step(cfg, s, e).0.core.recs)
  {
  }

  lemma OtherStepsKeepLeases(cfg: Config, s: Sys, e: Event)
    requires !e.AckFrame? && !e.BeginStep?
    ensures LeasesKept(s.core.recs, Step(cfg, s, e).0.core.recs)
  {
    hide StepSubmit, StepSubmission, StepAcquire, StepRelease, StepCreateBegin, StepCreateFinish, StepCreateFail, Sweep, DestroyFirst, Claim, Commit, Touch;
    match e
    case Submit(id, _, _, _) => if id < |s.core.recs| { SubmitKeepsLeases(cfg, s, e); }
    case SubmitStep(task) =>
      if task < |s.submissions| && s.submissions[task].id < |s.core.recs| { SubmissionKeepsLeases(cfg, s, task); }
    case ClaimText(id, capacity, now) => if id < |s.core.recs| { ClaimKeepsLeases(s.core, id, capacity, now); }
    case CommitClaim(id, transferId, owner, received, digests, now) =>
      if id < |s.core.recs| { CommitKeepsLeases(s.core, id, transferId, owner, received, digests, now); }
    case BeginClaim(id, _, _, now) => if id < |s.core.recs| { DestroyEndsLease(s.core, id, now); }
    case SweepAll(now) => SweepEndsLeases(s.core, now, |s.core.recs|);
    case DestroyAll => SweepEndsLeases(s.core, 0, |s.core.recs|);
    case CreateBegin(_) => CreationsKeepLeases(cfg, s, e);
    case CreateFinish(_, _, _, _, _) => CreationsKeepLeases(cfg, s, e);
    case CreateFail(_) => CreationsKeepLeases(cfg, s, e);
    case _ => SlotsKeepLeases(cfg, s, e);
  }

  /** Every frame a lease counts as acknowledged was acknowledged by an event of the run. */
  lemma {:induction false} ProgressIsAcked(cfg: Config, es: seq<Event>, id: nat, frame: nat)
    requires id < |Run(cfg, es).core.recs| && Run(cfg, es).core.recs[id].transfer.Some?
    requires frame < Run(cfg, es).core.recs[id].transfer.value.nextFrame
    ensures var lease := Run(cfg, es).core.recs[id].transfer.value;
      frame < |lease.sizes| == |lease.digests| && Acked(cfg, es, id, lease, frame)
    decreases |es|
  {
    hide SysInv;
    RunKeeps(cfg, es);
    CoreOf(cfg, Run(cfg, es));
    LeaseShape(cfg, Run(cfg, es).core, id);
    hide RecInv;
    var last := |es| - 1;
    var front, e := es[..last], es[last];
    var s := Run(cfg, front);
    var lease := Run(cfg, es).core.recs[id].transfer.value;
    RunKeeps(cfg, front);
    CoreOf(cfg, s);
    if e.AckFrame? && e.id == id && id < |s.core.recs| && SaidAt(cfg, es, last).Said? && SaidAt(cfg, es, last).answer.FrameAcked? {
      AckedWhileLive(cfg, s.core, id, e.transferId, e.owner, e.index, e.size, e.digest, e.now);
      if frame == e.index {
        assert es[last] == AckFrame(id, lease.transferId, lease.owner, frame, lease.sizes[frame], lease.digests[frame], e.now);
      } else {
        ProgressIsAcked(cfg, front, id, frame);
        var before := s.core.recs[id].transfer.value;
        var k, now :| 0 <= k < last
          && front[k] == AckFrame(id, before.transferId, before.owner, frame, before.sizes[frame], before.digests[frame], now)
          && SaidAt(cfg, front, k).Said? && SaidAt(cfg, front, k).answer.FrameAcked?;
        AckedAt(cfg, es, last, k, now, id, lease, frame);
      }
    } else {
      UnackedStepKeepsLease(cfg, s, e, id);
      ProgressIsAcked(cfg, front, id, frame);
      AckedLater(cfg, es, last, id, lease, frame);
    }
  }

  /** An accepted ack or commit found its record unexpired, so it moved the lease that was there before the call. */
  lemma AckedWhileLive(cfg: Config, c: Core, id: nat, transferId: nat, owner: nat, index: nat, size: nat, digest: Digest, now: int)
    requires CoreInv(cfg, c) && id < |c.recs| && Ack(c, id, transferId, owner, index, size, digest, now).1.FrameAcked?
    ensures c.recs[id].transfer.Some?
    ensures var c', before := Ack(c, id, transferId, owner, index, size, digest, now).0, c.recs[id].transfer.value;
      && before.transferId == transferId && before.owner == owner
      && index == before.nextFrame < |before.sizes| == |before.digests| && size == before.sizes[index] && digest == before.digests[index]
      && c'.recs[id].transfer == Some(before.(nextFrame := index + 1, ackedBytes := before.ackedBytes + size))
  {
    TouchKeeps(cfg, c, id, now);
    assert Touch(c, id, now) == c;
    AckKeeps(cfg, c, id, transferId, owner, index, size, digest);
  }

  lemma CommittedWhileLive(cfg: Config, c: Core, id: nat, transferId: nat, owner: nat, received: nat, digests: seq<Digest>, now: int)
    requires CoreInv(cfg, c) && id < |c.recs| && Commit(c, id, transferId, owner, received, digests, now).1.Committed?
    ensures c.recs[id].transfer.Some? && c.recs[id].plaintext.Some?
    ensures var lease := c.recs[id].transfer.value;
      && lease.transferId == transferId && lease.owner == owner && lease.nextFrame == |lease.sizes|
      && received == lease.totalBytes && digests == lease.digests
  {
    TouchKeeps(cfg, c, id, now);
    assert Touch(c, id, now) == c;
    CommitKeeps(cfg, c, id, transferId, owner, received, digests);
    assert RecInv(cfg, c.recs[id]);
  }

  lemma AckedAt(cfg: Config, es: seq<Event>, n: nat, k: nat, now: int, id: nat, lease: Lease, frame: nat)
    requires k < n <= |es| && frame < |lease.sizes| == |lease.digests|
    requires es[..n][k] == AckFrame(id, lease.transferId, lease.owner, frame, lease.sizes[frame], lease.digests[frame], now)
    requires SaidAt(cfg, es[..n], k).Said? && SaidAt(cfg, es[..n], k).answer.FrameAcked?
    ensures Acked(cfg, es, id, lease, frame)
  {
    AckedLater(cfg, es, n, id, lease, frame);
  }

  lemma LeaseDescribes(cfg: Config, c: Core, id: nat)
    requires CoreInv(cfg, c) && id < |c.recs| && c.recs[id].transfer.Some?
    ensures c.recs[id].plaintext.Some? && cfg.decode(c.recs[id].plaintext.value).Some?
    ensures var lease, frames := c.recs[id].transfer.value, Frames(cfg.decode(c.recs[id].plaintext.value).value);
      lease.sizes == Sizes(frames) && lease.digests == Digests(cfg, frames)
  {
    assert RecInv(cfg, c.recs[id]);
  }

  lemma LeaseShape(cfg: Config, c: Core, id: nat)
    requires CoreInv(cfg, c) && id < |c.recs| && c.recs[id].transfer.Some?
    ensures var lease := c.recs[id].transfer.value;
      lease.nextFrame <= |lease.sizes| == |lease.digests|
  {
    assert RecInv(cfg, c.recs[id]);
  }

  /** Without an accepted ack for it, a lease that has made progress is the lease it was. */
  lemma UnackedStepKeepsLease(cfg: Config, s: Sys, e: Event, id: nat)
    requires SysInv(cfg, s)
    requires var s' := Step(cfg, s, e).0; id < |s'.core.recs| && s'.core.recs[id].transfer.Some? && s'.core.recs[id].transfer.value.nextFrame > 0
    requires !(e.AckFrame? && e.id == id && Step(cfg, s, e).1.Said? && Step(cfg, s, e).1.answer.FrameAcked?)
    ensures id < |s.core.recs| && Step(cfg, s, e).0.core.recs[id].transfer == s.core.recs[id].transfer
  {
    if e.AckFrame? || e.BeginStep? {
      GrantsAndRefusals(cfg, s, e, id);
    } else {
      OtherStepsKeepLeases(cfg, s, e);
    }
  }

  lemma GrantsAndRefusals(cfg: Config, s: Sys, e: Event, id: nat)
    requires e.AckFrame? || e.BeginStep?
    requires id < |s.core.recs|
    requires !(e.AckFrame? && e.id == id && Step(cfg, s, e).1.Said? && Step(cfg, s, e).1.answer.FrameAcked?)
    ensures var t := Step(cfg, s, e).0.core.recs[id].transfer;
      t.None? || t.value.nextFrame == 0 || t == s.core.recs[id].transfer
  {
  }

  lemma CommittedCall(cfg: Config, s: Sys, e: Event)
    requires SysInv(cfg, s) && Step(cfg, s, e).1.Said? && Step(cfg, s, e).1.answer.Committed?
    ensures e.CommitClaim? && e.id == Step(cfg, s, e).1.id && e.id < |s.core.recs|
    ensures Commit(s.core, e.id, e.transferId, e.owner, e.received, e.digests, e.now).1.Committed?
  {
    StepKeeps(cfg, s, e);
    hide SysInv, Commit;
  }

  /** The record an accepted commit retired, as it was just before. */
  function RetiredBy(cfg: Config, es: seq<Event>, n: nat): Option<Rec>
    requires n < |es|
  {
    var recs, said := Run(cfg, es[..n]).core.recs, SaidAt(cfg, es, n);
    if said.Said? && said.answer.Committed? && said.id < |recs| then Some(recs[said.id]) else None
  }

  /**
   * A commit is evidence of receipt: for an accepted commit, every frame of the
   * container that was delivered had been acknowledged earlier in the run, by
   * the same owner under the same transfer, with that frame's length and digest.
   */
  lemma CommitIsEvidence(cfg: Config, es: seq<Event>, n: nat)
    requires n < |es| && SaidAt(cfg, es, n).Said? && SaidAt(cfg, es, n).answer.Committed?
    ensures RetiredBy(cfg, es, n).Some?
    ensures var r, e := RetiredBy(cfg, es, n).value, es[n];
      && r.plaintext.Some? && cfg.decode(r.plaintext.value).Some? && r.transfer.Some?
      && var lease, frames := r.transfer.value, Frames(cfg.decode(r.plaintext.value).value);
      && lease.sizes == Sizes(frames) && lease.digests == Digests(cfg, frames)
      && e.CommitClaim? && e.owner == lease.owner && e.transferId == lease.transferId && e.digests == lease.digests
      && forall f :: 0 <= f < |frames| ==> Acked(cfg, es[..n], SaidAt(cfg, es, n).id, lease, f)
  {
    hide Step, Run, SysInv, RecInv, CoreInv, Acked;
    var s, e := Run(cfg, es[..n]), es[n];
    RunKeeps(cfg, es[..n]);
    CoreOf(cfg, s);
    CommittedCall(cfg, s, e);
    CommittedWhileLive(cfg, s.core, e.id, e.transferId, e.owner, e.received, e.digests, e.now);
    LeaseDescribes(cfg, s.core, e.id);
    forall f | 0 <= f < |s.core.recs[e.id].transfer.value.sizes|
      ensures Acked(cfg, es[..n], e.id, s.core.recs[e.id].transfer.value, f)
    {
      ProgressIsAcked(cfg, es[..n], e.id, f);
    }
  }
}
