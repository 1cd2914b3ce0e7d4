/**
 * The one-shot latch of drop/reconciler.py: who may start a reconcile pass, and
 * how a finished pass puts the latch back. The module's globals are fields of one
 * object here; what any history of triggers and passes can do is proved about
 * the value they make up.
 */
module ReconcileLatch {
  import opened Basics

  const MAX_FAILED_PASSES: nat := 5
  const MAX_DEFERRED_PASSES: nat := 20

  type Lane = nat

  datatype State = State(
    started: bool, failedPasses: nat, deferredPasses: nat, deferredLanes: set<Lane>, gated: bool, spent: bool)

  /** What one finished pass reports: it failed, it deferred, or it drove everything. */
  datatype Outcome = Failed(lanes: set<Lane>) | Deferred(lanes: set<Lane>, madeProgress: bool) | Clean

  const Fresh: State := State(false, 0, 0, {}, false, false)

  // ---------------------------------------------------------------- as functions

  /** The gate in front of the latch: a deferral waits until one of its lanes resolves. */
  predicate CanMakeProgress(s: State, resolvable: set<Lane>) {
    !s.spent && (!s.gated || s.deferredLanes == {} || s.deferredLanes * resolvable != {})
  }

  function NoteDeferred(s: State, lanes: set<Lane>, madeProgress: bool): State {
    var passes := (if madeProgress then 0 else s.deferredPasses) + 1;
    var s1 := s.(deferredPasses := passes, deferredLanes := lanes);
    if passes >= MAX_DEFERRED_PASSES then s1.(spent := true) else s1.(gated := true, started := false)
  }

  function NoteFailed(s: State, lanes: set<Lane>): State {
    var carried := s.deferredLanes + lanes;
    var s1 := s.(deferredLanes := carried, failedPasses := s.failedPasses + 1);
    if s1.failedPasses < MAX_FAILED_PASSES then s1.(gated := false, started := false)
    else if carried != {} then NoteDeferred(s1, carried, false)
    else s1
  }

  function NoteClean(s: State): State {
    s.(deferredLanes := {}, gated := false, spent := false, failedPasses := 0, deferredPasses := 0)
  }

  /** `_account_for_pass`: a pass that both failed and deferred is a failed one that carries its lanes. */
  function Account(s: State, o: Outcome): State {
    match o
    case Failed(lanes) => NoteFailed(s, lanes)
    case Deferred(lanes, madeProgress) => if lanes != {} then NoteDeferred(s, lanes, madeProgress) else NoteClean(s)
    case Clean => NoteClean(s)
  }

  class Latch {
    var started: bool
    var failedPasses: nat
    var deferredPasses: nat
    var deferredLanes: set<Lane>
    var gated: bool
    var spent: bool

    function View(): State
      reads this
    {
      State(started, failedPasses, deferredPasses, deferredLanes, gated, spent)
    }

    constructor ()
      ensures View() == Fresh
    {
      started, failedPasses, deferredPasses, deferredLanes, gated, spent := false, 0, 0, {}, false, false;
    }

    /** Test-and-set. */
    method ClaimTrigger() returns (won: bool)
      modifies this`started
      ensures won == !old(started) && View() == old(View()).(started := true)
    {
      if started {
        return false;
      }
      started := true;
      return true;
    }

    method NoteDeferredPass(lanes: set<Lane>, madeProgress: bool)
      modifies this
      ensures View() == NoteDeferred(old(View()), lanes, madeProgress)
    {
      if madeProgress {
        deferredPasses := 0;
      }
      deferredPasses := deferredPasses + 1;
      deferredLanes := lanes;
      if deferredPasses >= MAX_DEFERRED_PASSES {
        spent := true;
      } else {
        gated := true;
        started := false;
      }
    }

    method NoteFailedPass(lanes: set<Lane>)
      modifies this
      ensures View() == NoteFailed(old(View()), lanes)
    {
      var carried := deferredLanes + lanes;
      deferredLanes := carried;
      failedPasses := failedPasses + 1;
      if failedPasses < MAX_FAILED_PASSES {
        gated := false;
        started := false;
        return;
      }
      if carried != {} {
        NoteDeferredPass(carried, false);
      }
    }

    method NoteCleanPass()
      modifies this
      ensures View() == NoteClean(old(View()))
    {
      deferredLanes := {};
      gated := false;
      spent := false;
      failedPasses := 0;
      deferredPasses := 0;
    }
  }

  // ------------------------------------------------------------------- histories

  /** A caller the gate let through. `stale`: a pass has been accounted for since. `gone`: it has tried the latch. */
  datatype Caller = Caller(resolvable: set<Lane>, stale: bool, gone: bool)

  /** The gate and the test-and-set take the lock one after the other: other events may come between them. */
  datatype Event =
    | Look(resolvable: set<Lane>)
    | Take(caller: nat, lost: bool)
    | Finish(outcome: Outcome)
    | Vanish

  /** `running`: a pass holds the latch. `passes`: passes finished since the last clean or progressing one. */
  datatype History = History(latch: State, running: bool, passes: nat, callers: seq<Caller>)

  function Aged(callers: seq<Caller>): seq<Caller> {
    seq(|callers|, i requires 0 <= i < |callers| => callers[i].(stale := true))
  }

  /**
   * A caller that was let through takes the latch if it is open; one that then
   * finds no loop keeps it without a pass. A pass that is cancelled, or that ends
   * with nothing to account for, keeps it too.
   */
  function Next(h: History, e: Event): History {
    match e
    case Look(resolvable) => if CanMakeProgress(h.latch, resolvable) then h.(callers := h.callers + [Caller(resolvable, false, false)]) else h
    case Take(c, lost) =>
      if c >= |h.callers| || h.callers[c].gone then h
      else
        var h1 := h.(callers := h.callers[c := h.callers[c].(gone := true)]);
        if h.latch.started then h1 else h1.(latch := h.latch.(started := true), running := !lost)
    case Finish(o) =>
      if !h.running then h
      else History(Account(h.latch, o), false, if o.Clean? || (o.Deferred? && (o.madeProgress || o.lanes == {})) then 0 else h.passes + 1, Aged(h.callers))
    case Vanish => if !h.running then h else h.(running := false, passes := h.passes + 1)
  }

  function After(es: seq<Event>): History {
    if es == [] then History(Fresh, false, 0, []) else Next(After(es[..|es| - 1]), es[|es| - 1])
  }

  /** The latch is taken and nobody is running: no event ever starts another pass. */
  predicate Over(h: History) {
    h.latch.started && !h.running
  }

  predicate HistoryInv(h: History) {
    && (h.running ==> h.latch.started)
    && h.latch.deferredPasses <= MAX_DEFERRED_PASSES
    && (h.latch.deferredPasses == MAX_DEFERRED_PASSES ==> Over(h))
    && (h.latch.spent ==> Over(h))
    && h.passes <= Min(h.latch.failedPasses, MAX_FAILED_PASSES - 1) + h.latch.deferredPasses + (if Over(h) && h.latch.deferredPasses < MAX_DEFERRED_PASSES then 1 else 0)
  }

  lemma {:induction false} HistoryKeeps(es: seq<Event>)
    ensures HistoryInv(After(es))
  {
    if es != [] {
      HistoryKeeps(es[..|es| - 1]);
    }
  }

  /** Between passes that were clean or made progress, only so many passes run, whatever mix of failures and deferrals they are. */
  lemma PassesAreBounded(es: seq<Event>)
    ensures After(es).passes <= MAX_FAILED_PASSES - 1 + MAX_DEFERRED_PASSES
  {
    HistoryKeeps(es);
  }

  /** `n` passes one after the other, each let in by a lane that resolves and then failing. */
  function Failures(n: nat): (es: seq<Event>)
    ensures |es| == 3 * n
  {
    if n == 0 then [] else Failures(n - 1) + [Look({0}), Take(n - 1, false), Finish(Failed({0}))]
  }

  lemma ThreeMore(es: seq<Event>, a: Event, b: Event, c: Event)
    ensures After(es + [a, b, c]) == Next(Next(Next(After(es), a), b), c)
  {
    hide Next;
    OneMore(es, a);
    OneMore(es + [a], b);
    OneMore(es + [a] + [b], c);
    assert es + [a, b, c] == es + [a] + [b] + [c];
  }

  /** After so many failures in a row; the last pass the budgets allow leaves the latch taken. */
  function FailedState(n: nat): State {
    var deferred := if n < MAX_FAILED_PASSES then 0 else n - MAX_FAILED_PASSES + 1;
    var over := deferred == MAX_DEFERRED_PASSES;
    State(over, n, deferred, if n == 0 then {} else {0}, deferred > 0, over)
  }

  lemma AnotherFailure(h: History)
    requires !h.latch.started && CanMakeProgress(h.latch, {0})
    ensures var c := Caller({0}, false, false);
      Next(Next(Next(h, Look({0})), Take(|h.callers|, false)), Finish(Failed({0})))
        == History(Account(h.latch.(started := true), Failed({0})), false, h.passes + 1, Aged(h.callers + [c.(gone := true)]))
  {
    assert (h.callers + [Caller({0}, false, false)])[|h.callers| := Caller({0}, false, true)] == h.callers + [Caller({0}, false, true)];
  }

  lemma FailureMoves(n: nat)
    requires n < MAX_FAILED_PASSES - 1 + MAX_DEFERRED_PASSES
    ensures Account(FailedState(n).(started := true), Failed({0})) == FailedState(n + 1)
    ensures !FailedState(n).started && CanMakeProgress(FailedState(n), {0})
  {
    assert {0} + {0} == {0} && {} + {0} == {0};
    assert 0 in {0} * {0};
  }

  /** The bound is reached: a lane that keeps resolving for the gate and failing the pass uses all of it. */
  lemma {:induction false} BoundIsReached(n: nat)
    requires n <= MAX_FAILED_PASSES - 1 + MAX_DEFERRED_PASSES
    ensures var h := After(Failures(n)); h.passes == n && h.latch == FailedState(n) && !h.running && |h.callers| == n
  {
    hide Next, Account, CanMakeProgress;
    if n > 0 {
      BoundIsReached(n - 1);
      ThreeMore(Failures(n - 1), Look({0}), Take(n - 1, false), Finish(Failed({0})));
      FailureMoves(n - 1);
      AnotherFailure(After(Failures(n - 1)));
    } else {
      assert After([]) == History(Fresh, false, 0, []);
    }
  }

  /** Once the latch is consumed it stays consumed. */
  lemma {:induction false} OverIsOver(es: seq<Event>, n: nat)
    requires n <= |es| && Over(After(es[..n]))
    ensures After(es).latch == After(es[..n]).latch && !After(es).running && After(es).passes == After(es[..n]).passes
    decreases |es|
  {
    if n < |es| {
      assert es[..|es| - 1][..n] == es[..n];
      OverIsOver(es[..|es| - 1], n);
    } else {
      assert es[..n] == es;
    }
  }

  predicate OnlyFailures(es: seq<Event>) {
    forall i :: 0 <= i < |es| ==> es[i].Finish? ==> es[i].outcome.Failed?
  }

  /** A recorded lane is dropped only by a pass that did not fail: across any stretch of failed passes the set only grows. */
  lemma {:induction false} LanesSurviveFailures(es: seq<Event>, n: nat)
    requires n <= |es| && OnlyFailures(es[n..])
    ensures After(es[..n]).latch.deferredLanes <= After(es).latch.deferredLanes
    decreases |es|
  {
    if n < |es| {
      var front := es[..|es| - 1];
      assert front[n..] == es[n..][..|es| - n - 1] && front[..n] == es[..n];
      assert es[|es| - 1] == es[n..][|es| - n - 1];
      LanesSurviveFailures(front, n);
    } else {
      assert es[..n] == es;
    }
  }

  /** Whom the gate lets through, while the budget lasts. */
  predicate Admits(s: State, resolvable: set<Lane>) {
    !s.gated || s.deferredLanes == {} || exists lane :: lane in s.deferredLanes && lane in resolvable
  }

  lemma Overlap(a: set<Lane>, b: set<Lane>)
    ensures a * b != {} <==> exists lane :: lane in a && lane in b
  {
    if exists lane :: lane in a && lane in b {
      var lane :| lane in a && lane in b;
      assert lane in a * b;
    }
  }

  lemma OneMore(es: seq<Event>, e: Event)
    ensures After(es + [e]) == Next(After(es), e)
  {
    hide Next;
    assert (es + [e])[..|es|] == es;
  }

  /** An open latch, looked at and taken with nothing in between, starts a pass exactly when nothing is deferred on or one of its lanes is back. */
  lemma GateIsExact(es: seq<Event>, resolvable: set<Lane>)
    requires !After(es).latch.started
    ensures After(es + [Look(resolvable)] + [Take(|After(es).callers|, false)]).running <==> Admits(After(es).latch, resolvable)
  {
    HistoryKeeps(es);
    OneMore(es, Look(resolvable));
    OneMore(es + [Look(resolvable)], Take(|After(es).callers|, false));
    Overlap(After(es).latch.deferredLanes, resolvable);
  }

  /** What a caller that has not tried yet was told is still so, unless a pass was accounted for since. */
  predicate CallersInv(h: History) {
    forall c :: 0 <= c < |h.callers| && !h.callers[c].stale ==> CanMakeProgress(h.latch, h.callers[c].resolvable)
  }

  lemma {:induction false} CallersKeep(es: seq<Event>)
    ensures CallersInv(After(es))
  {
    if es != [] {
      CallersKeep(es[..|es| - 1]);
      CallersStep(After(es[..|es| - 1]), es[|es| - 1]);
    }
  }

  lemma CallersStep(h: History, e: Event)
    requires CallersInv(h)
    ensures CallersInv(Next(h, e))
  {
    hide Account;
  }

  /**
   * The window between the two locks: a caller that takes an open latch starts a
   * pass the gate would let in at that very moment, unless another pass was
   * accounted for after it looked.
   */
  lemma GateHoldsUntilAPass(es: seq<Event>, c: nat)
    requires c < |After(es).callers| && !After(es).callers[c].gone && !After(es).latch.started
    ensures After(es + [Take(c, false)]).running
    ensures !After(es).callers[c].stale ==> Admits(After(es).latch, After(es).callers[c].resolvable)
  {
    OneMore(es, Take(c, false));
    CallersKeep(es);
    Overlap(After(es).latch.deferredLanes, After(es).callers[c].resolvable);
  }

  /** And then it may: a caller that looked while a pass ran takes the latch that pass reopened gated, with none of its lanes back. */
  lemma StaleCallerSlipsIn() returns (es: seq<Event>)
    ensures var h := After(es);
      && !h.latch.started && |h.callers| == 2 && h.callers[1].stale && !h.callers[1].gone && !Admits(h.latch, h.callers[1].resolvable)
      && After(es + [Take(1, false)]).running
  {
    var a, b, c, d: Event := Look({}), Take(0, false), Look({}), Finish(Deferred({0}, false));
    es := [];
    OneMore(es, a);
    OneMore(es + [a], b);
    OneMore(es + [a] + [b], c);
    OneMore(es + [a] + [b] + [c], d);
    es := es + [a] + [b] + [c] + [d];
    OneMore(es, Take(1, false));
    assert After([]) == History(Fresh, false, 0, []);
    assert 0 in {0};
  }
}
