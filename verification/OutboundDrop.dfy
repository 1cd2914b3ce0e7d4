/**
 * The outbound drop of src/outbound-drop.js: a sealed payload behind a short
 * code, one claimant, and two deadlines. The record is updated in place; what a
 * run of calls, sweeps and timers can do is proved about the value it stands for.
 */
module OutboundDrop {
  import opened Basics

  const MAX_CODE_ATTEMPTS: nat := 3

  type Code = nat
  type ClaimId = nat

  datatype Status = Available | Reserved | Destroyed

  datatype Drop = Drop(
    code: Code, payload: Option<Bytes>, expiresAt: int,
    attemptsRemaining: int, status: Status, claimId: Option<ClaimId>, claimExpiresAt: int, timerSet: bool)

  datatype Reply =
    | Unavailable
    | CodeIncorrect(remaining: int)
    | Revealed(payload: Bytes, until: int)
    | Acknowledged
    | GateStatus(attempts: int, expiresAt: int, window: int, now: int)

  /** A code or claim id that is not shaped like one is `None`. */
  datatype Call =
    | Claim(code: Option<Code>, claimId: Option<ClaimId>, now: int)
    | Acknowledge(claimId: Option<ClaimId>, now: int)
    | Metadata(now: int)
    | Sweep(now: int)
    | ClaimTimer
    | Shutdown

  function Minted(code: Code, payload: Bytes, expiresAt: int): Drop {
    Drop(code, Some(payload), expiresAt, MAX_CODE_ATTEMPTS, Available, None, 0, false)
  }

  // -------------------------------------------------------------------- one record

  function Ruined(d: Drop): Drop {
    d.(timerSet := false, payload := None, status := Destroyed)
  }

  /** Both deadlines, enforced on touch. */
  function Live(d: Drop, now: int): Drop {
    if d.status == Destroyed then d
    else if now >= d.expiresAt then Ruined(d)
    else if d.status == Reserved && now >= d.claimExpiresAt then Ruined(d)
    else d
  }

  function Reveal(d: Drop): Reply {
    if d.payload.Some? then Revealed(d.payload.value, d.claimExpiresAt) else Unavailable
  }

  function ClaimLive(d: Drop, window: nat, code: Option<Code>, claimId: Option<ClaimId>, now: int): (Drop, Reply) {
    if d.status == Destroyed || code.None? || claimId.None? then (d, Unavailable)
    else if d.status == Reserved then
      (d, if d.claimId != claimId || d.code != code.value then Unavailable else Reveal(d))
    else if d.code != code.value then
      var d1 := d.(attemptsRemaining := d.attemptsRemaining - 1);
      if d1.attemptsRemaining <= 0 then (Ruined(d1), Unavailable) else (d1, CodeIncorrect(d1.attemptsRemaining))
    else
      var d1 := d.(status := Reserved, claimId := claimId, claimExpiresAt := Min(now + window, d.expiresAt), timerSet := true);
      (d1, Reveal(d1))
  }

  function Step(window: nat, d: Drop, c: Call): (Drop, Reply) {
    match c
    case Claim(code, claimId, now) => ClaimLive(Live(d, now), window, code, claimId, now)
    case Acknowledge(claimId, now) =>
      var d1 := Live(d, now);
      if d1.status != Reserved || claimId.None? || d1.claimId != claimId then (d1, Unavailable) else (Ruined(d1), Acknowledged)
    case Metadata(now) =>
      var d1 := Live(d, now);
      (d1, if d1.status == Available then GateStatus(d1.attemptsRemaining, d1.expiresAt, Min(window, d1.expiresAt - now), now) else Unavailable)
    case Sweep(now) => (Live(d, now), Unavailable)
    case ClaimTimer => (if d.timerSet && d.status == Reserved then Ruined(d) else d, Unavailable)
    case Shutdown => (if d.status == Destroyed then d else Ruined(d), Unavailable)
  }

  class Record {
    const code: Code
    const expiresAt: int
    var payload: Option<Bytes>
    var attemptsRemaining: int
    var status: Status
    var claimId: Option<ClaimId>
    var claimExpiresAt: int
    var timerSet: bool

    function View(): Drop
      reads this
    {
      Drop(code, payload, expiresAt, attemptsRemaining, status, claimId, claimExpiresAt, timerSet)
    }

    constructor (code: Code, payload: Bytes, expiresAt: int)
      ensures View() == Minted(code, payload, expiresAt)
    {
      this.code, this.expiresAt, this.payload := code, expiresAt, Some(payload);
      this.attemptsRemaining, this.status, this.claimId, this.claimExpiresAt, this.timerSet := MAX_CODE_ATTEMPTS, Available, None, 0, false;
    }

    method Destroy()
      modifies this
      ensures View() == Ruined(old(View()))
    {
      timerSet := false;
      payload := None;
      status := Destroyed;
    }

    method TouchLive(now: int) returns (alive: bool)
      modifies this
      ensures View() == Live(old(View()), now) && alive == (status != Destroyed)
    {
      if status == Destroyed {
        return false;
      }
      if now >= expiresAt || (status == Reserved && now >= claimExpiresAt) {
        Destroy();
        return false;
      }
      return true;
    }

    /** `claim`: the gate and the reservation, with nothing between the check and the mutation. */
    method ClaimDrop(window: nat, code: Option<Code>, claimId: Option<ClaimId>, now: int) returns (r: Reply)
      modifies this
      ensures (View(), r) == Step(window, old(View()), Claim(code, claimId, now))
    {
      var alive := TouchLive(now);
      if !alive || code.None? || claimId.None? {
        return Unavailable;
      }
      if status == Reserved {
        if this.claimId != claimId || this.code != code.value {
          return Unavailable;
        }
        return Reveal(View());
      }
      if this.code != code.value {
        attemptsRemaining := attemptsRemaining - 1;
        if attemptsRemaining <= 0 {
          Destroy();
          return Unavailable;
        }
        return CodeIncorrect(attemptsRemaining);
      }
      status := Reserved;
      this.claimId := claimId;
      claimExpiresAt := Min(now + window, expiresAt);
      timerSet := true;
      return Reveal(View());
    }

    /** `metadata`: an available drop says how long is left and how many attempts, and any other says nothing. */
    method Metadata(window: nat, now: int) returns (r: Reply)
      modifies this
      ensures (View(), r) == Step(window, old(View()), Call.Metadata(now))
    {
      var alive := TouchLive(now);
      if !alive || status != Available {
        return Unavailable;
      }
      return GateStatus(attemptsRemaining, expiresAt, Min(window, expiresAt - now), now);
    }

    method AcknowledgeDrop(window: nat, claimId: Option<ClaimId>, now: int) returns (r: Reply)
      modifies this
      ensures (View(), r) == Step(window, old(View()), Acknowledge(claimId, now))
    {
      var alive := TouchLive(now);
      if !alive || status != Reserved || claimId.None? || this.claimId != claimId {
        return Unavailable;
      }
      Destroy();
      return Acknowledged;
    }

    method TimerFires(window: nat)
      modifies this
      ensures View() == Step(window, old(View()), ClaimTimer).0
    {
      if timerSet && status == Reserved {
        Destroy();
      }
    }
  }

  // -------------------------------------------------------------------- whole runs

  function Run(window: nat, d: Drop, cs: seq<Call>): Drop {
    if cs == [] then d else Step(window, Run(window, d, cs[..|cs| - 1]), cs[|cs| - 1]).0
  }

  function ReplyAt(window: nat, d: Drop, cs: seq<Call>, n: nat): Reply
    requires n < |cs|
  {
    Step(window, Run(window, d, cs[..n]), cs[n]).1
  }

  /** A wrong code was compared while the drop was still to be had: the only thing that costs an attempt. */
  predicate WrongGuess(d: Drop, c: Call) {
    && c.Claim? && c.code.Some? && c.claimId.Some?
    && Live(d, c.now).status == Available && c.code.value != d.code
  }

  function Guesses(window: nat, d: Drop, cs: seq<Call>): nat {
    if cs == [] then 0
    else
      var front := cs[..|cs| - 1];
      Guesses(window, d, front) + if WrongGuess(Run(window, d, front), cs[|cs| - 1]) then 1 else 0
  }

  predicate DropInv(d: Drop, code: Code, payload: Bytes, expiresAt: int) {
    && d.code == code && d.expiresAt == expiresAt
    && (d.status != Destroyed ==> d.payload == Some(payload) && d.attemptsRemaining > 0)
    && (d.status == Destroyed ==> d.payload.None?)
    && (d.status == Available ==> d.claimId.None?)
    && (d.status == Reserved ==> d.claimId.Some? && d.claimExpiresAt <= d.expiresAt && d.timerSet)
  }

  lemma {:induction false} RunInv(window: nat, code: Code, payload: Bytes, expiresAt: int, cs: seq<Call>)
    ensures DropInv(Run(window, Minted(code, payload, expiresAt), cs), code, payload, expiresAt)
  {
    if cs != [] {
      RunInv(window, code, payload, expiresAt, cs[..|cs| - 1]);
    }
  }

  /** Where a drop can go: it is reserved once, by one claimant, until one deadline, and then destroyed for good. */
  predicate Onward(d: Drop, d': Drop) {
    && d'.attemptsRemaining <= d.attemptsRemaining
    && (d.status == Destroyed ==> d' == d)
    && (d.status == Reserved ==>
          (d' == d || d'.status == Destroyed) && d'.claimId == d.claimId && d'.claimExpiresAt == d.claimExpiresAt && d'.attemptsRemaining == d.attemptsRemaining)
  }

  lemma StepOnward(window: nat, d: Drop, c: Call)
    ensures Onward(d, Step(window, d, c).0)
  {
  }

  lemma {:induction false} RunOnward(window: nat, d: Drop, cs: seq<Call>, n: nat)
    requires n <= |cs|
    ensures Onward(Run(window, d, cs[..n]), Run(window, d, cs))
    decreases |cs|
  {
    hide Step;
    if n < |cs| {
      var front := cs[..|cs| - 1];
      assert front[..n] == cs[..n];
      RunOnward(window, d, front, n);
      StepOnward(window, Run(window, d, front), cs[|cs| - 1]);
    } else {
      assert cs[..n] == cs;
    }
  }

  /** Who was answered with the payload, and when. */
  lemma RevealedMeans(window: nat, code: Code, payload: Bytes, expiresAt: int, cs: seq<Call>, n: nat)
    requires n < |cs| && ReplyAt(window, Minted(code, payload, expiresAt), cs, n).Revealed?
    ensures var r, after := ReplyAt(window, Minted(code, payload, expiresAt), cs, n), Run(window, Minted(code, payload, expiresAt), cs[..n + 1]);
      && cs[n].Claim? && cs[n].code == Some(code) && cs[n].claimId.Some?
      && after.status == Reserved && after.claimId == cs[n].claimId && after.claimExpiresAt == r.until
      && r.payload == payload && r.until <= expiresAt && cs[n].now < expiresAt
  {
    RunInv(window, code, payload, expiresAt, cs[..n]);
    assert cs[..n + 1][..n] == cs[..n];
  }

  /**
   * One claimant: over any run, everybody who is ever answered with the payload
   * gave the right code and the same claim id, and got the same bytes and the
   * same deadline, which no retry extends.
   */
  lemma OneClaimant(window: nat, code: Code, payload: Bytes, expiresAt: int, cs: seq<Call>, m: nat, n: nat)
    requires m <= n < |cs|
    requires ReplyAt(window, Minted(code, payload, expiresAt), cs, m).Revealed? && ReplyAt(window, Minted(code, payload, expiresAt), cs, n).Revealed?
    ensures cs[m].Claim? && cs[n].Claim? && cs[m].claimId == cs[n].claimId && cs[m].code == cs[n].code == Some(code)
    ensures ReplyAt(window, Minted(code, payload, expiresAt), cs, m) == ReplyAt(window, Minted(code, payload, expiresAt), cs, n)
    ensures ReplyAt(window, Minted(code, payload, expiresAt), cs, n).until <= expiresAt
    ensures m < n ==> cs[n].now < ReplyAt(window, Minted(code, payload, expiresAt), cs, n).until
  {
    var d := Minted(code, payload, expiresAt);
    RevealedMeans(window, code, payload, expiresAt, cs, m);
    RevealedMeans(window, code, payload, expiresAt, cs, n);
    if m < n {
      assert cs[..n][..m + 1] == cs[..m + 1] && cs[..n + 1][..n] == cs[..n];
      RunOnward(window, d, cs[..n], m + 1);
      StepOnward(window, Run(window, d, cs[..n]), cs[n]);
    }
  }

  /** The attempts left are three less the wrong guesses made, and the third wrong guess ends the drop. */
  lemma {:induction false} ThreeGuesses(window: nat, code: Code, payload: Bytes, expiresAt: int, cs: seq<Call>)
    ensures var d := Run(window, Minted(code, payload, expiresAt), cs);
      && Guesses(window, Minted(code, payload, expiresAt), cs) == MAX_CODE_ATTEMPTS - d.attemptsRemaining <= MAX_CODE_ATTEMPTS
      && (Guesses(window, Minted(code, payload, expiresAt), cs) == MAX_CODE_ATTEMPTS ==> d.status == Destroyed)
  {
    if cs != [] {
      var front := cs[..|cs| - 1];
      ThreeGuesses(window, code, payload, expiresAt, front);
      RunInv(window, code, payload, expiresAt, front);
    }
  }

  /** A drop that has been reserved never loses an attempt again. */
  lemma {:induction false} ReservedCostsNothing(window: nat, d: Drop, cs: seq<Call>, n: nat)
    requires n <= |cs| && Run(window, d, cs[..n]).status != Available
    ensures Guesses(window, d, cs) == Guesses(window, d, cs[..n])
    decreases |cs|
  {
    if n < |cs| {
      var front := cs[..|cs| - 1];
      assert front[..n] == cs[..n];
      ReservedCostsNothing(window, d, front, n);
      RunOnward(window, d, front, n);
    } else {
      assert cs[..n] == cs;
    }
  }

  /** Nothing is answered after destruction, and an acknowledgement is one. */
  lemma SilentAfterDestruction(window: nat, d: Drop, cs: seq<Call>, n: nat, k: nat)
    requires n <= k < |cs| && Run(window, d, cs[..n]).status == Destroyed
    ensures ReplyAt(window, d, cs, k) == Unavailable
  {
    assert cs[..k][..n] == cs[..n];
    RunOnward(window, d, cs[..k], n);
  }

  /** Only the claimant that was shown the payload can acknowledge it, once, and then nobody is shown anything. */
  lemma AcknowledgedOnce(window: nat, code: Code, payload: Bytes, expiresAt: int, cs: seq<Call>, m: nat, k: nat)
    requires m < |cs| && ReplyAt(window, Minted(code, payload, expiresAt), cs, m) == Acknowledged
    ensures Run(window, Minted(code, payload, expiresAt), cs[..m]).claimId == cs[m].claimId && cs[m].claimId.Some?
    ensures m < k < |cs| ==> ReplyAt(window, Minted(code, payload, expiresAt), cs, k) == Unavailable
  {
    var d := Minted(code, payload, expiresAt);
    assert cs[..m + 1][..m] == cs[..m];
    if m < k < |cs| {
      SilentAfterDestruction(window, d, cs, m + 1, k);
    }
  }

  /**
   * What the gate is told is true: the drop is unclaimed and unexpired, the
   * attempts are three less the wrong guesses so far, nobody was ever shown the
   * payload, and a right code at that moment is granted exactly the window named.
   */
  lemma StatusIsTrue(window: nat, code: Code, payload: Bytes, expiresAt: int, cs: seq<Call>, n: nat, claimId: ClaimId)
    requires n < |cs| && ReplyAt(window, Minted(code, payload, expiresAt), cs, n).GateStatus?
    ensures var d0, r := Minted(code, payload, expiresAt), ReplyAt(window, Minted(code, payload, expiresAt), cs, n);
      && cs[n].Metadata? && r.now == cs[n].now < r.expiresAt == expiresAt
      && r.attempts == MAX_CODE_ATTEMPTS - Guesses(window, d0, cs[..n]) > 0
      && (forall k :: 0 <= k < n ==> !ReplyAt(window, d0, cs, k).Revealed?)
      && Step(window, Run(window, d0, cs[..n + 1]), Claim(Some(code), Some(claimId), r.now)).1 == Revealed(payload, r.now + r.window)
  {
    var d0 := Minted(code, payload, expiresAt);
    RunInv(window, code, payload, expiresAt, cs[..n]);
    ThreeGuesses(window, code, payload, expiresAt, cs[..n]);
    assert cs[..n + 1][..n] == cs[..n];
    forall k | 0 <= k < n
      ensures !ReplyAt(window, d0, cs, k).Revealed?
    {
      if ReplyAt(window, d0, cs, k).Revealed? {
        RevealedMeans(window, code, payload, expiresAt, cs, k);
        assert cs[..n][..k + 1] == cs[..k + 1];
        RunOnward(window, d0, cs[..n], k + 1);
      }
    }
  }
}
