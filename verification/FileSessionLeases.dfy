/** When a connection that has ended leaves a lease of its own at the broker: told from the events of its run. */
module FileSessionLeases {
  import opened Basics
  import opened BrokerCore
  import opened BrokerSystem
  import opened BrokerRuns
  import opened FileSession
  import opened FileSessionRuns
  import opened FileSessionTheorems

  predicate Ended(s: Session) {
    s.phase == Closed || !s.open
  }

  /** A flood lands while the manifest pass of a begin is running. */
  predicate FloodsBegin(c: Conn, e: SessionEvent) {
    e == Flood && c.s.phase == Beginning && c.s.work.ManifestWork?
  }

  /** The manifest pass is over and the broker grants the lease. */
  predicate Grants(cfg: Config, c: Conn, e: SessionEvent) {
    e.ManifestDone? && c.s.work.ManifestWork?
    && var said := Step(cfg, c.sys, BeginStep(c.s.work.begin, e.now)).1; said.Said? && said.answer.Began?
  }

  /** The held lease is given back by the connection's own close, or ended at the broker by somebody's call, a timer or expiry. */
  predicate Takes(cfg: Config, me: nat, c: Conn, e: SessionEvent) {
    c.s.lease.Some? &&
    match e
    case PeerClosed => true
    case HalfClosed => c.s.work == Rest
    case World(event) => Foreign(c.sys, event, me) && !StillHeld(Step(cfg, c.sys, event).0, c.s.lease.value, me)
    case _ => false
  }

  /** The connection the `k`th event of a run met. */
  function Met(cfg: Config, me: nat, sys: Sys, es: seq<SessionEvent>, k: nat): Conn
    requires k < |es|
  {
    SessionRun(cfg, me, sys, es[..k])
  }

  predicate FloodedBegin(cfg: Config, me: nat, sys: Sys, es: seq<SessionEvent>, n: nat) {
    exists k :: 0 <= k < n && k < |es| && FloodsBegin(Met(cfg, me, sys, es, k), es[k])
  }

  /** A begin was flooded, its lease was granted all the same, and nothing has taken it back. */
  predicate Stranded(cfg: Config, me: nat, sys: Sys, es: seq<SessionEvent>, n: nat) {
    exists m :: 0 <= m < n && m < |es| && FloodedBegin(cfg, me, sys, es, m) && Grants(cfg, Met(cfg, me, sys, es, m), es[m])
      && forall x :: m < x < n && x < |es| ==> !Takes(cfg, me, Met(cfg, me, sys, es, x), es[x])
  }

  // ---------------------------------------------------------------- one step

  lemma OnlyFloodsFlood(cfg: Config, me: nat, c: Conn, e: SessionEvent)
    ensures SessionStep(cfg, me, c, e).s.flooded ==> c.s.flooded || e == Flood
  {
    hide Step, StillHeld, Foreign, RecordGone;
  }

  /** What can happen to a connection that a flood has closed. */
  lemma ClosedStep(cfg: Config, me: nat, c: Conn, e: SessionEvent)
    requires c.s.phase == Closed && (c.s.lease.Some? ==> c.s.work == Rest)
    ensures var c' := SessionStep(cfg, me, c, e);
      && c'.s.phase == Closed && (c'.s.lease.Some? ==> c'.s.work == Rest)
      && (c.s.lease.Some? ==> c'.s.lease == if Takes(cfg, me, c, e) then None else c.s.lease)
      && (c.s.lease.None? ==> (c'.s.lease.Some? <==> Grants(cfg, c, e)))
      && (c'.s.work.ManifestWork? ==> c.s.work.ManifestWork?)
  {
    hide Step, StillHeld, Foreign, RecordGone;
  }

  lemma FloodStep(cfg: Config, me: nat, c: Conn)
    requires Shape(c.s, c.won)
    ensures var c' := SessionStep(cfg, me, c, Flood);
      && (c'.s.lease.Some? ==> c' == c)
      && (FloodsBegin(c, Flood) ==> c'.s.phase == Closed && c'.s.lease.None?)
      && (c'.s.phase == Closed && c'.s.work.ManifestWork? ==> c' == c || FloodsBegin(c, Flood))
  {
    hide Step;
  }

  predicate Past(cfg: Config, me: nat, sys: Sys, es: seq<SessionEvent>, n: nat, s: Session) {
    && (s.phase == Closed && s.lease.Some? ==> s.work == Rest)
    && (s.phase == Closed && s.work.ManifestWork? ==> FloodedBegin(cfg, me, sys, es, n))
    && (FloodedBegin(cfg, me, sys, es, n) ==> s.phase == Closed)
    && (Ended(s) && s.lease.Some? <==> Stranded(cfg, me, sys, es, n))
  }

  lemma FloodedLater(cfg: Config, me: nat, sys: Sys, es: seq<SessionEvent>, m: nat, n: nat)
    requires m <= n
    ensures FloodedBegin(cfg, me, sys, es, m) ==> FloodedBegin(cfg, me, sys, es, n)
  {
  }

  /** From a closed connection on. */
  lemma ClosedGrows(cfg: Config, me: nat, sys: Sys, es: seq<SessionEvent>, n: nat)
    requires n < |es| && Past(cfg, me, sys, es, n, Met(cfg, me, sys, es, n).s) && Met(cfg, me, sys, es, n).s.phase == Closed
    ensures Past(cfg, me, sys, es, n + 1, SessionStep(cfg, me, Met(cfg, me, sys, es, n), es[n]).s)
  {
    hide SessionStep, Met, FloodsBegin, Takes, FloodedBegin;
    var c := Met(cfg, me, sys, es, n);
    var c' := SessionStep(cfg, me, c, es[n]);
    ClosedStep(cfg, me, c, es[n]);
    FloodedLater(cfg, me, sys, es, n, n + 1);
    if Stranded(cfg, me, sys, es, n) && !Takes(cfg, me, c, es[n]) {
      StrandedStays(cfg, me, sys, es, n);
    }
    if Stranded(cfg, me, sys, es, n + 1) {
      StrandedBefore(cfg, me, sys, es, n);
    }
  }

  lemma StrandedStays(cfg: Config, me: nat, sys: Sys, es: seq<SessionEvent>, n: nat)
    requires n < |es| && Stranded(cfg, me, sys, es, n) && !Takes(cfg, me, Met(cfg, me, sys, es, n), es[n])
    ensures Stranded(cfg, me, sys, es, n + 1)
  {
    hide Met, Takes, FloodedBegin, Grants;
    var m :| 0 <= m < n && m < |es| && FloodedBegin(cfg, me, sys, es, m) && Grants(cfg, Met(cfg, me, sys, es, m), es[m])
      && forall x :: m < x < n && x < |es| ==> !Takes(cfg, me, Met(cfg, me, sys, es, x), es[x]);
  }

  lemma StrandedBefore(cfg: Config, me: nat, sys: Sys, es: seq<SessionEvent>, n: nat)
    requires n < |es| && Stranded(cfg, me, sys, es, n + 1)
    ensures (Stranded(cfg, me, sys, es, n) && !Takes(cfg, me, Met(cfg, me, sys, es, n), es[n])) || Grants(cfg, Met(cfg, me, sys, es, n), es[n])
    ensures FloodedBegin(cfg, me, sys, es, n)
  {
    hide Met, Takes, FloodedBegin, Grants;
    var m :| 0 <= m < n + 1 && m < |es| && FloodedBegin(cfg, me, sys, es, m) && Grants(cfg, Met(cfg, me, sys, es, m), es[m])
      && forall x :: m < x < n + 1 && x < |es| ==> !Takes(cfg, me, Met(cfg, me, sys, es, x), es[x]);
    FloodedLater(cfg, me, sys, es, m, n);
  }

  /** Up to the first flood of a begin. */
  lemma OpenGrows(cfg: Config, me: nat, sys: Sys, es: seq<SessionEvent>, n: nat)
    requires n < |es| && Past(cfg, me, sys, es, n, Met(cfg, me, sys, es, n).s) && Met(cfg, me, sys, es, n).s.phase != Closed
    requires var c := Met(cfg, me, sys, es, n); Shape(c.s, c.won) && var c' := SessionStep(cfg, me, c, es[n]); Shape(c'.s, c'.won)
    ensures Past(cfg, me, sys, es, n + 1, SessionStep(cfg, me, Met(cfg, me, sys, es, n), es[n]).s)
  {
    hide SessionStep, Met, Takes, Grants, Stranded;
    var c := Met(cfg, me, sys, es, n);
    OnlyFloodsFlood(cfg, me, c, es[n]);
    if es[n] == Flood {
      FloodStep(cfg, me, c);
    }
    if Stranded(cfg, me, sys, es, n + 1) {
      StrandedBefore(cfg, me, sys, es, n);
    }
  }

  lemma LastStep(cfg: Config, me: nat, sys: Sys, es: seq<SessionEvent>, n: nat)
    requires n < |es|
    ensures SessionRun(cfg, me, sys, es[..n + 1]) == SessionStep(cfg, me, Met(cfg, me, sys, es, n), es[n])
  {
    hide SessionStep;
    assert es[..n + 1][..n] == es[..n];
  }

  lemma ShapeOf(cfg: Config, me: nat, c: Conn)
    requires ConnInv(cfg, me, c)
    ensures Shape(c.s, c.won)
  {
  }

  lemma {:induction false} PastHolds(cfg: Config, me: nat, sys: Sys, es: seq<SessionEvent>, n: nat)
    requires SysInv(cfg, sys) && Opened(sys, me) && n <= |es|
    ensures Past(cfg, me, sys, es, n, SessionRun(cfg, me, sys, es[..n]).s)
  {
    hide SysInv, Opened, ConnInv, SessionStep, Past;
    if n == 0 {
      NoPast(cfg, me, sys, es);
    } else {
      PastHolds(cfg, me, sys, es, n - 1);
      var c := Met(cfg, me, sys, es, n - 1);
      SessionRunKeeps(cfg, me, sys, es[..n - 1]);
      SessionRunKeeps(cfg, me, sys, es[..n]);
      LastStep(cfg, me, sys, es, n - 1);
      ShapeOf(cfg, me, c);
      ShapeOf(cfg, me, SessionRun(cfg, me, sys, es[..n]));
      if c.s.phase == Closed {
        ClosedGrows(cfg, me, sys, es, n - 1);
      } else {
        OpenGrows(cfg, me, sys, es, n - 1);
      }
    }
  }

  lemma NoPast(cfg: Config, me: nat, sys: Sys, es: seq<SessionEvent>)
    ensures Past(cfg, me, sys, es, 0, SessionRun(cfg, me, sys, es[..0]).s)
  {
    assert es[..0] == [];
  }

  /**
   * Once a connection has ended, a lease in its name is left at the broker exactly
   * if a flood landed during a manifest pass, the broker granted the lease after
   * it, and nothing has taken it back since.
   */
  lemma LeaseIsLeftIff(cfg: Config, me: nat, sys: Sys, es: seq<SessionEvent>)
    requires SysInv(cfg, sys) && Opened(sys, me) && Ended(SessionRun(cfg, me, sys, es).s)
    ensures var recs := SessionRun(cfg, me, sys, es).sys.core.recs;
      (exists id :: 0 <= id < |recs| && Owned(recs[id], me)) <==> Stranded(cfg, me, sys, es, |es|)
  {
    hide SysInv, Opened, SessionRun, Stranded, Shape, Coupled, Written, Suspended;
    assert es[..|es|] == es;
    PastHolds(cfg, me, sys, es, |es|);
    SessionRunKeeps(cfg, me, sys, es);
  }

  /** However else a connection ends, floods while streaming included, no lease of its own is left once its last call has returned. */
  lemma LeaseIsReturned(cfg: Config, me: nat, sys: Sys, es: seq<SessionEvent>)
    requires SysInv(cfg, sys) && Opened(sys, me) && Ended(SessionRun(cfg, me, sys, es).s) && !FloodedBegin(cfg, me, sys, es, |es|)
    ensures var recs := SessionRun(cfg, me, sys, es).sys.core.recs; forall id :: 0 <= id < |recs| ==> !Owned(recs[id], me)
  {
    hide SysInv, Opened, SessionRun, FloodsBegin, Takes, Grants, Met;
    LeaseIsLeftIff(cfg, me, sys, es);
    if Stranded(cfg, me, sys, es, |es|) {
      StrandedWasFlooded(cfg, me, sys, es, |es|);
    }
  }

  lemma StrandedWasFlooded(cfg: Config, me: nat, sys: Sys, es: seq<SessionEvent>, n: nat)
    requires n <= |es| && Stranded(cfg, me, sys, es, n)
    ensures FloodedBegin(cfg, me, sys, es, n)
  {
    hide FloodsBegin, Takes, Grants, Met;
  }
}
