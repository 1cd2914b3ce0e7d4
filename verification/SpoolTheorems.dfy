/** What the spool promises, for every run of claims and sweeps over any root. */
module SpoolTheorems {
  import opened Basics
  import opened Spool
  import opened SpoolRuns

  /** A live claim's directory is never touched, however many sweeps run and whatever they ignore. */
  lemma LiveStagingIsSafe(ttl: nat, s0: Sys, es: seq<Event>, i: nat)
    requires Initial(s0) && i < |Run(ttl, s0, es).claims| && HasDir(Run(ttl, s0, es).claims[i])
    ensures var s := Run(ttl, s0, es);
      var c := s.claims[i];
      && c.token.Some? && c.inode.Some? && At(s.disk, NameFor(c, Staging), c.inode.value)
      && Node(s.disk, c.inode.value).isDir && Node(s.disk, c.inode.value).files == c.open + c.done
  {
    hide Run, NameOf, Owner, Housed, Contiguous;
    RunKeeps(ttl, s0, es);
    assert ClaimOk(ttl, Run(ttl, s0, es), Run(ttl, s0, es).claims[i]);
  }

  // ---------------------------------------------------------------- which sweeps can matter

  /** Sweeps only come to the end of the list, and none forgets what it found. */
  lemma SweepsStay(ttl: nat, s: Sys, e: Event, k: nat)
    requires Inv(ttl, s) && k < |s.sweeps|
    ensures var t := Step(ttl, s, e); |s.sweeps| <= |t.sweeps| && t.sweeps[k].listed == s.sweeps[k].listed
  {
    hide ClaimOk, Pending, DiskOk, Acted, ActStep, RemoveStep, Holders;
    if e.Do? && e.claim < |s.claims| {
      HoldersUpdate(s.claims, e.claim, s.claims[e.claim]);
      ActKeeps(ttl, s, s.claims[e.claim], e.act);
      ActedSweeps(ttl, s, s.claims[e.claim], e.act);
    }
  }

  lemma ActedSweeps(ttl: nat, s: Sys, c: Claim, a: Act)
    requires Acted(ttl, s, c, ActStep(ttl, s, c, a).0, ActStep(ttl, s, c, a).1)
    ensures ActStep(ttl, s, c, a).0.sweeps == s.sweeps && ActStep(ttl, s, c, a).0.claims == s.claims
    ensures var c' := ActStep(ttl, s, c, a).1; (c'.phase.Given? || c'.phase.Held?) && c'.token.Some? ==> c'.token == c.token
  {
    hide ActStep, Touches, Stored, Housed;
  }

  /** A claim that gets its published or held name now, had its token before. */
  lemma NamedBefore(ttl: nat, s: Sys, e: Event, i: nat)
    requires Inv(ttl, s) && i < |Step(ttl, s, e).claims|
    ensures var c' := Step(ttl, s, e).claims[i];
      (c'.phase.Given? || c'.phase.Held?) && c'.token.Some? ==> i < |s.claims| && s.claims[i].token == c'.token
  {
    hide ClaimOk, Pending, DiskOk, Acted, ActStep, LookStep, Holders;
    if e.Do? && e.claim < |s.claims| {
      HoldersUpdate(s.claims, e.claim, s.claims[e.claim]);
      ActKeeps(ttl, s, s.claims[e.claim], e.act);
      ActedSweeps(ttl, s, s.claims[e.claim], e.act);
    }
  }

  /** The claim was not there yet, or neither published nor held. */
  predicate NotYet(s: Sys, i: nat) {
    i < |s.claims| ==> !s.claims[i].phase.Given? && !s.claims[i].phase.Held?
  }

  predicate NeverFound(sw: Sweep, c: Claim) {
    c.token.Some? ==> NameFor(c, Published) !in sw.listed && NameFor(c, Quarantine) !in sw.listed
  }

  /** A sweep that had begun before a claim was published or held never finds it under that name. */
  lemma {:induction false} EarlierSweepsMiss(ttl: nat, s0: Sys, es: seq<Event>, p: nat, n: nat, i: nat, k: nat)
    requires Initial(s0) && p <= n <= |es| && NotYet(Run(ttl, s0, es[..p]), i) && k < |Run(ttl, s0, es[..p]).sweeps|
    ensures var s := Run(ttl, s0, es[..n]); k < |s.sweeps| && (i < |s.claims| ==> NeverFound(s.sweeps[k], s.claims[i]))
  {
    hide Step, Inv, Initial, Unlisted, NeverFound;
    RunKeeps(ttl, s0, es[..n]);
    var t := Run(ttl, s0, es[..n]);
    if p == n {
      if i < |t.claims| {
        UnlistedNow(ttl, t, k, i);
        NotYetFound(t.sweeps[k], t.claims[i]);
      }
    } else {
      var s := Run(ttl, s0, es[..n - 1]);
      EarlierSweepsMiss(ttl, s0, es, p, n - 1, i, k);
      RunKeeps(ttl, s0, es[..n - 1]);
      assert es[..n][..n - 1] == es[..n - 1] && es[..n][n - 1] == es[n - 1];
      SweepsStay(ttl, s, es[n - 1], k);
      if i < |t.claims| {
        NamedBefore(ttl, s, es[n - 1], i);
        UnlistedNow(ttl, t, k, i);
        SameName(s.sweeps[k], t.sweeps[k], if i < |s.claims| then s.claims[i] else t.claims[i], t.claims[i]);
      }
    }
  }

  lemma UnlistedNow(ttl: nat, s: Sys, k: nat, i: nat)
    requires Inv(ttl, s) && k < |s.sweeps| && i < |s.claims|
    ensures Unlisted(s.sweeps[k], s.claims[i])
  {
    hide ClaimOk, Pending, DiskOk, SweepOk, Unlisted;
  }

  lemma NotYetFound(sw: Sweep, c: Claim)
    requires Unlisted(sw, c) && !c.phase.Given? && !c.phase.Held?
    ensures NeverFound(sw, c)
  {
  }

  lemma SameName(sw: Sweep, sw': Sweep, c: Claim, c': Claim)
    requires sw'.listed == sw.listed && Unlisted(sw', c')
    requires (c'.phase.Given? || c'.phase.Held?) && c'.token.Some? ==> c.token == c'.token && NeverFound(sw, c)
    ensures NeverFound(sw', c')
  {
    hide NameOf, Owner;
  }

  /** Of the sweeps that began later, none ignores times and each began before `due`. */
  predicate LaterSweepsAreEarly(s: Sys, from: nat, due: nat) {
    forall k :: from <= k < |s.sweeps| ==> !s.sweeps[k].purge && s.sweeps[k].now < due
  }

  lemma NothingThreatens(ttl: nat, s0: Sys, es: seq<Event>, p: nat, i: nat)
    requires Initial(s0) && p <= |es| && NotYet(Run(ttl, s0, es[..p]), i) && i < |Run(ttl, s0, es).claims|
    requires var s := Run(ttl, s0, es);
      var c := s.claims[i];
      && (c.phase.Given? || c.phase.Held?)
      && LaterSweepsAreEarly(s, |Run(ttl, s0, es[..p]).sweeps|, if c.phase.Given? then c.phase.expires * TICKS else c.stamp + ttl * TICKS)
    ensures Spared(ttl, Run(ttl, s0, es).sweeps, Run(ttl, s0, es).claims[i])
  {
    hide Run, NameOf, Owner, NeverFound, Threatens, Initial;
    var s := Run(ttl, s0, es);
    assert es[..|es|] == es;
    forall k | 0 <= k < |s.sweeps|
      ensures !Threatens(ttl, s.sweeps[k], s.claims[i])
    {
      if k < |Run(ttl, s0, es[..p]).sweeps| {
        EarlierSweepsMiss(ttl, s0, es, p, |es|, i, k);
        MissedIsNoThreat(ttl, s.sweeps[k], s.claims[i]);
      } else {
        EarlyIsNoThreat(ttl, s.sweeps[k], s.claims[i]);
      }
    }
  }

  lemma MissedIsNoThreat(ttl: nat, sw: Sweep, c: Claim)
    requires NeverFound(sw, c) && (c.phase.Given? || c.phase.Held?)
    ensures !Threatens(ttl, sw, c)
  {
    hide NameOf, Owner;
  }

  lemma EarlyIsNoThreat(ttl: nat, sw: Sweep, c: Claim)
    requires (c.phase.Given? || c.phase.Held?) && !sw.purge && sw.now < if c.phase.Given? then c.phase.expires * TICKS else c.stamp + ttl * TICKS
    ensures !Threatens(ttl, sw, c)
  {
    hide NameOf, Owner;
  }

  /**
   * A published claim is there, whole, with every file of a contiguous manifest
   * and the expiry its caller was told, unless a sweep that began after some
   * moment before its publication ignored times, or began at that expiry or later.
   * What earlier sweeps still do, purges included, never reaches it.
   */
  lemma PublishedIsSafe(ttl: nat, s0: Sys, es: seq<Event>, p: nat, i: nat)
    requires Initial(s0) && p <= |es| && NotYet(Run(ttl, s0, es[..p]), i)
    requires i < |Run(ttl, s0, es).claims| && Run(ttl, s0, es).claims[i].phase.Given?
    requires var s := Run(ttl, s0, es); LaterSweepsAreEarly(s, |Run(ttl, s0, es[..p]).sweeps|, s.claims[i].phase.expires * TICKS)
    ensures var s := Run(ttl, s0, es);
      var c := s.claims[i];
      && c.token.Some? && c.inode.Some? && At(s.disk, NameFor(c, Published), c.inode.value)
      && c.done != {} && (forall f :: f in c.done <==> 0 <= f < |c.done|)
      && Node(s.disk, c.inode.value).files == c.done && Node(s.disk, c.inode.value).sidecar == Expires(c.phase.expires)
  {
    hide Run, NameOf, Owner, Housed, Spared;
    RunKeeps(ttl, s0, es);
    var s := Run(ttl, s0, es);
    assert ClaimOk(ttl, s, s.claims[i]);
    ContiguousIsAll(s.claims[i].done);
    NothingThreatens(ttl, s0, es, p, i);
  }

  /** Held bytes stay for the time to live, counted from what was last written, under the same condition. */
  lemma HeldIsSafe(ttl: nat, s0: Sys, es: seq<Event>, p: nat, i: nat)
    requires Initial(s0) && p <= |es| && NotYet(Run(ttl, s0, es[..p]), i)
    requires i < |Run(ttl, s0, es).claims| && Run(ttl, s0, es).claims[i].phase.Held?
    requires var s := Run(ttl, s0, es); LaterSweepsAreEarly(s, |Run(ttl, s0, es[..p]).sweeps|, s.claims[i].stamp + ttl * TICKS)
    ensures var s := Run(ttl, s0, es);
      var c := s.claims[i];
      && c.token.Some? && c.inode.Some? && At(s.disk, NameFor(c, Quarantine), c.inode.value)
      && Node(s.disk, c.inode.value).files == c.open + c.done
  {
    hide Run, NameOf, Owner, Housed, Contiguous, Spared;
    RunKeeps(ttl, s0, es);
    var s := Run(ttl, s0, es);
    assert ClaimOk(ttl, s, s.claims[i]);
    NothingThreatens(ttl, s0, es, p, i);
  }

  lemma {:induction false} BelowIsCounted(files: set<nat>, n: nat)
    requires forall f :: f in files ==> f < n
    ensures |files| <= n && (|files| == n ==> forall f :: 0 <= f < n ==> f in files)
  {
    if n == 0 {
      assert files == {};
    } else {
      BelowIsCounted(files - {n - 1}, n - 1);
      assert n - 1 in files ==> files == (files - {n - 1}) + {n - 1};
      assert n - 1 !in files ==> files - {n - 1} == files;
    }
  }

  lemma ContiguousIsAll(files: set<nat>)
    requires Contiguous(files)
    ensures forall f :: f in files <==> 0 <= f < |files|
  {
    BelowIsCounted(files, |files|);
  }

  /** What the process has reserved is 42 MiB for each claim not yet released, and never more than four of them. */
  lemma ReservedIsExact(ttl: nat, s0: Sys, es: seq<Event>)
    requires Initial(s0)
    ensures var s := Run(ttl, s0, es); s.reserved == MAX_CLAIM_TOTAL_BYTES * Holders(s.claims) && Holders(s.claims) <= 4
  {
    hide Run, Holders;
    RunKeeps(ttl, s0, es);
  }

  // ---------------------------------------------------------------- what is not the spool's own

  /** An entry that no name rule of the spool covers. */
  predicate Alien(s0: Sys, name: Name) {
    name in s0.disk.dir && !Classify(name, Node(s0.disk, s0.disk.dir[name]).isDir).Removable?
  }

  predicate Untouched(s0: Sys, s: Sys, name: Name)
    requires name in s0.disk.dir
  {
    var n := s0.disk.dir[name];
    && At(s.disk, name, n) && n < |s0.disk.inodes| <= |s.disk.inodes| && Node(s.disk, n) == Node(s0.disk, n)
    && (forall i :: 0 <= i < |s.claims| ==> (s.claims[i].inode.Some? ==> s.claims[i].inode.value >= |s0.disk.inodes|))
    && (forall k :: 0 <= k < |s.sweeps| ==> Elsewhere(s.sweeps[k], name, n))
  }

  predicate Elsewhere(sw: Sweep, name: Name, n: nat) {
    PhaseName(sw.phase) != Some(name) && (sw.phase.Removing? && sw.phase.removal.Emptying? ==> sw.phase.removal.inode != n)
  }

  lemma DoLeavesAliens(ttl: nat, s0: Sys, s: Sys, name: Name, i: nat, a: Act)
    requires Inv(ttl, s) && Alien(s0, name) && Untouched(s0, s, name) && i < |s.claims|
    ensures Untouched(s0, Step(ttl, s, Do(i, a)), name)
  {
    hide ActStep, Pending, SweepOk, Holders, Owner, Elsewhere, Shaped, Stored, Classify;
    var c := s.claims[i];
    HoldersUpdate(s.claims, i, c);
    ActKeeps(ttl, s, c, a);
    var (s', c') := ActStep(ttl, s, c, a);
    assert Known(s.used, name);
    assert !Owned(c, name) && !Owned(c', name);
    assert SameAt(s.disk, s'.disk, name);
  }

  lemma RemovalLeavesAliens(d: Disk, clock: nat, used: set<Token>, r: Removal, inner: Inner, name: Name, n: nat)
    requires DiskOk(d, used) && At(d, name, n)
    requires !r.Finished? ==> r.name != name
    requires r.Emptying? ==> r.inode != n
    ensures var (d', r') := RemoveStep(d, clock, r, inner);
      At(d', name, n) && Node(d', n) == Node(d, n) && |d'.inodes| == |d.inodes| && (r'.Finished? || r'.name != name) && (r'.Emptying? ==> r'.inode != n)
  {
    hide Known;
  }

  lemma WalkLeavesAliens(ttl: nat, s0: Sys, s: Sys, name: Name, k: nat, look: Look)
    requires Inv(ttl, s) && Alien(s0, name) && Untouched(s0, s, name) && k < |s.sweeps|
    ensures Untouched(s0, Step(ttl, s, Walk(k, look)), name)
  {
    hide RemoveStep, DiskOk, ClaimOk, Pending, SweepOk, Holders, Expired, PublishedExpiry, Classify;
    var sw := s.sweeps[k];
    assert Elsewhere(sw, name, s0.disk.dir[name]);
    if sw.phase.Removing? && look.Remove? {
      RemovalLeavesAliens(s.disk, s.clock, s.used, sw.phase.removal, look.inner, name, s0.disk.dir[name]);
    }
  }

  /** Nothing but a directory under a generated name is ever removed or changed. */
  lemma {:induction false} AliensAreLeft(ttl: nat, s0: Sys, es: seq<Event>, name: Name)
    requires Initial(s0) && Alien(s0, name)
    ensures Untouched(s0, Run(ttl, s0, es), name)
  {
    hide Step, Classify;
    if es != [] {
      var s, e := Run(ttl, s0, es[..|es| - 1]), es[|es| - 1];
      AliensAreLeft(ttl, s0, es[..|es| - 1], name);
      RunKeeps(ttl, s0, es[..|es| - 1]);
      StepLeavesAliens(ttl, s0, s, name, e);
    }
  }

  lemma StepLeavesAliens(ttl: nat, s0: Sys, s: Sys, name: Name, e: Event)
    requires Inv(ttl, s) && Alien(s0, name) && Untouched(s0, s, name)
    ensures Untouched(s0, Step(ttl, s, e), name)
  {
    hide Inv, Alien, Classify;
    match e
    case Tick(_) =>
    case Reserve =>
    case StartSweep(_, _) =>
    case Do(i, a) => if i < |s.claims| { DoLeavesAliens(ttl, s0, s, name, i, a); }
    case Walk(k, look) => if k < |s.sweeps| { WalkLeavesAliens(ttl, s0, s, name, k, look); }
  }
}
