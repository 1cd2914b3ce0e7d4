/**
 * What a sweep does when nothing interrupts it: it removes exactly the entries
 * that are due, and so the two ways in which more goes than the spool's own
 * account of itself allows.
 */
module SpoolSweeps {
  import opened Basics
  import opened Spool
  import opened SpoolRuns

  lemma {:induction false} RunConcat(ttl: nat, s: Sys, a: seq<Event>, b: seq<Event>)
    ensures Run(ttl, s, a + b) == Run(ttl, Run(ttl, s, a), b)
  {
    hide Step;
    if b == [] {
      assert a + b == a;
    } else {
      assert (a + b)[..|a + b| - 1] == a + b[..|b| - 1];
      RunConcat(ttl, s, a, b[..|b| - 1]);
    }
  }

  lemma RunOne(ttl: nat, s: Sys, e: Event)
    ensures Run(ttl, s, [e]) == Step(ttl, s, e)
  {
    hide Step;
    assert [e][..0] == [];
    assert Run(ttl, s, []) == s;
  }

  /** What a sweep that begins now would take. */
  predicate Dies(ttl: nat, s: Sys, now: nat, purge: bool, name: Name)
    requires name in s.disk.dir
  {
    var node := Node(s.disk, s.disk.dir[name]);
    var kind := Classify(name, node.isDir);
    kind.Removable? &&
    if kind.shape == Published && !purge then PublishedExpiry(ttl, node.mtime, node.sidecar) <= now
    else Expired(s.active, now, purge, ttl, name, kind.shape, node.mtime)
  }

  /** Only the sweep and the disk moved, and on the disk only what `name` leads to. */
  predicate OnlyTook(s: Sys, t: Sys, k: nat, sw: Sweep, name: Name, gone: bool) {
    && k < |s.sweeps| && |t.disk.inodes| == |s.disk.inodes|
    && t == s.(disk := t.disk, sweeps := s.sweeps[k := sw])
    && t.disk.dir == (if gone then map other | other in s.disk.dir && other != name :: s.disk.dir[other] else s.disk.dir)
    && (!gone ==> t.disk == s.disk)
    && (forall n: nat :: n < |s.disk.inodes| && !At(s.disk, name, n) ==> t.disk.inodes[n] == s.disk.inodes[n])
  }

  /** Emptying a directory and removing it, without interruption. */
  lemma {:induction false} EmptiesAlone(ttl: nat, s: Sys, k: nat) returns (es: seq<Event>)
    requires k < |s.sweeps| && s.sweeps[k].phase.Removing? && s.sweeps[k].phase.removal.Emptying?
    requires var r := s.sweeps[k].phase.removal; At(s.disk, r.name, r.inode) && r.inode < |s.disk.inodes| && Node(s.disk, r.inode).isDir
    ensures OnlyTook(s, Run(ttl, s, es), k, Next(s.sweeps[k]), s.sweeps[k].phase.removal.name, true)
    decreases |Node(s.disk, s.sweeps[k].phase.removal.inode).files|, Node(s.disk, s.sweeps[k].phase.removal.inode).sidecar != Missing
  {
    hide Run;
    var Emptying(name, n) := s.sweeps[k].phase.removal;
    var node := Node(s.disk, n);
    if node.files != {} {
      var f :| f in node.files;
      es := EmptyOn(ttl, s, k, StoredFile(f));
    } else if node.sidecar != Missing {
      es := EmptyOn(ttl, s, k, Record);
    } else {
      es := [Walk(k, Remove(Nothing))];
      RunOne(ttl, s, es[0]);
    }
  }

  lemma {:induction false} EmptyOn(ttl: nat, s: Sys, k: nat, inner: Inner) returns (es: seq<Event>)
    requires k < |s.sweeps| && s.sweeps[k].phase.Removing? && s.sweeps[k].phase.removal.Emptying?
    requires var r := s.sweeps[k].phase.removal; At(s.disk, r.name, r.inode) && r.inode < |s.disk.inodes| && Node(s.disk, r.inode).isDir
    requires var node := Node(s.disk, s.sweeps[k].phase.removal.inode);
      (inner.StoredFile? && inner.index in node.files) || (inner.Record? && node.files == {} && node.sidecar != Missing)
    ensures OnlyTook(s, Run(ttl, s, es), k, Next(s.sweeps[k]), s.sweeps[k].phase.removal.name, true)
    decreases |Node(s.disk, s.sweeps[k].phase.removal.inode).files|, Node(s.disk, s.sweeps[k].phase.removal.inode).sidecar != Missing, 0
  {
    hide Run;
    var e := Walk(k, Remove(inner));
    var t := Step(ttl, s, e);
    RunOne(ttl, s, e);
    var rest := EmptiesAlone(ttl, t, k);
    RunConcat(ttl, s, [e], rest);
    es := [e] + rest;
  }

  /** From the decision to remove, to the entry being gone. */
  lemma RemovesAlone(ttl: nat, s: Sys, k: nat) returns (es: seq<Event>)
    requires k < |s.sweeps| && s.sweeps[k].phase.Removing? && s.sweeps[k].phase.removal.Looking? && IsDirAt(s.disk, s.sweeps[k].phase.removal.name)
    ensures OnlyTook(s, Run(ttl, s, es), k, Next(s.sweeps[k]), s.sweeps[k].phase.removal.name, true)
  {
    hide Run, Classify;
    var e := Walk(k, Remove(Nothing));
    var s1 := Step(ttl, s, e);
    var s2 := Step(ttl, s1, e);
    RunOne(ttl, s, e);
    RunOne(ttl, s1, e);
    RunConcat(ttl, s, [e], [e]);
    var rest := EmptiesAlone(ttl, s2, k);
    RunConcat(ttl, s, [e] + [e], rest);
    es := [e] + [e] + rest;
  }

  /** One name of the listing, start to finish. */
  lemma TakesItsTurn(ttl: nat, s: Sys, k: nat) returns (es: seq<Event>)
    requires k < |s.sweeps| && s.sweeps[k].phase.Idle? && s.sweeps[k].todo != []
    ensures var sw := s.sweeps[k];
      var name := sw.todo[0];
      OnlyTook(s, Run(ttl, s, es), k, Next(sw), name, name in s.disk.dir && Dies(ttl, s, sw.now, sw.purge, name))
  {
    hide Run, Classify, Expired, PublishedExpiry;
    var sw := s.sweeps[k];
    var name := sw.todo[0];
    var s1 := Step(ttl, s, Walk(k, LookUp));
    RunOne(ttl, s, Walk(k, LookUp));
    es := [Walk(k, LookUp)];
    if s1.sweeps[k].phase.Seen? {
      RemovableNames(name);
      var rest := JudgesAlone(ttl, s1, k);
      RunConcat(ttl, s, es, rest);
      es := es + rest;
    }
  }

  lemma JudgesAlone(ttl: nat, s: Sys, k: nat) returns (es: seq<Event>)
    requires k < |s.sweeps| && s.sweeps[k].phase.Seen? && IsDirAt(s.disk, s.sweeps[k].phase.name)
    requires var Seen(name, shape, mtime) := s.sweeps[k].phase;
      Classify(name, true) == Removable(shape) && mtime == Node(s.disk, s.disk.dir[name]).mtime
    ensures var sw := s.sweeps[k]; OnlyTook(s, Run(ttl, s, es), k, Next(sw), sw.phase.name, Dies(ttl, s, sw.now, sw.purge, sw.phase.name))
  {
    hide Run, Classify, Expired, PublishedExpiry;
    var sw := s.sweeps[k];
    var s1 := Step(ttl, s, Walk(k, Judge(true)));
    RunOne(ttl, s, Walk(k, Judge(true)));
    es := [Walk(k, Judge(true))];
    var s2 := s1;
    if s1.sweeps[k].phase.Reading? {
      s2 := Step(ttl, s1, Walk(k, ReadRecord(true)));
      RunOne(ttl, s1, Walk(k, ReadRecord(true)));
      RunConcat(ttl, s, es, [Walk(k, ReadRecord(true))]);
      es := es + [Walk(k, ReadRecord(true))];
    }
    assert Run(ttl, s, es) == s2;
    if s2.sweeps[k].phase.Removing? {
      var rest := RemovesAlone(ttl, s2, k);
      RunConcat(ttl, s, es, rest);
      es := es + rest;
    }
  }

  /** The entries a sweep leaves: everything it does not list, and everything that is not due. */
  ghost predicate SweptExactly(ttl: nat, s: Sys, t: Sys, sw: Sweep) {
    && (forall name :: name in t.disk.dir <==> name in s.disk.dir && !(name in sw.todo && Dies(ttl, s, sw.now, sw.purge, name)))
    && (forall name :: name in t.disk.dir ==> t.disk.dir[name] == s.disk.dir[name] && Node(t.disk, t.disk.dir[name]) == Node(s.disk, s.disk.dir[name]))
  }

  /** Left alone, a sweep removes exactly what is due among what it listed. */
  lemma {:induction false} SweepAlone(ttl: nat, s: Sys, k: nat) returns (es: seq<Event>)
    requires DiskOk(s.disk, s.used) && k < |s.sweeps| && s.sweeps[k].phase.Idle?
    ensures var t := Run(ttl, s, es); SweptExactly(ttl, s, t, s.sweeps[k]) && t.claims == s.claims && t.clock == s.clock
    decreases |s.sweeps[k].todo|
  {
    hide Run, Dies, DiskOk;
    var sw := s.sweeps[k];
    if sw.todo == [] {
      es := [];
      assert Run(ttl, s, es) == s by { RunNone(ttl, s); }
    } else {
      var first := TakesItsTurn(ttl, s, k);
      var s1 := Run(ttl, s, first);
      TurnKeepsDisk(ttl, s, s1, k, sw.todo[0]);
      var rest := SweepAlone(ttl, s1, k);
      RunConcat(ttl, s, first, rest);
      es := first + rest;
      TurnThenRest(ttl, s, s1, Run(ttl, s, es), sw);
    }
  }

  lemma TurnThenRest(ttl: nat, s: Sys, s1: Sys, t: Sys, sw: Sweep)
    requires sw.todo != [] && SweptExactly(ttl, s1, t, Next(sw))
    requires forall other :: other in s1.disk.dir ==>
      other in s.disk.dir && s1.disk.dir[other] == s.disk.dir[other] && Node(s1.disk, s1.disk.dir[other]) == Node(s.disk, s.disk.dir[other])
    requires forall other, now, purge :: other in s1.disk.dir ==> Dies(ttl, s1, now, purge, other) == Dies(ttl, s, now, purge, other)
    requires forall other :: other in s.disk.dir && other != sw.todo[0] ==> other in s1.disk.dir
    requires sw.todo[0] in s1.disk.dir <==> sw.todo[0] in s.disk.dir && !Dies(ttl, s, sw.now, sw.purge, sw.todo[0])
    ensures SweptExactly(ttl, s, t, sw)
  {
    hide Dies, Node;
    assert forall name :: name in sw.todo <==> name == sw.todo[0] || name in sw.todo[1..];
  }

  lemma RunNone(ttl: nat, s: Sys)
    ensures Run(ttl, s, []) == s
  {
  }

  /** Taking one entry leaves the others, and what will be decided about them, as they were. */
  lemma TurnKeepsDisk(ttl: nat, s: Sys, t: Sys, k: nat, name: Name)
    requires DiskOk(s.disk, s.used) && k < |s.sweeps|
    requires OnlyTook(s, t, k, Next(s.sweeps[k]), name, name in s.disk.dir && Dies(ttl, s, s.sweeps[k].now, s.sweeps[k].purge, name))
    ensures DiskOk(t.disk, t.used)
    ensures forall other :: other in s.disk.dir && other != name ==> other in t.disk.dir
    ensures forall other :: other in t.disk.dir ==>
      other in s.disk.dir && t.disk.dir[other] == s.disk.dir[other] && Node(t.disk, t.disk.dir[other]) == Node(s.disk, s.disk.dir[other])
    ensures forall other, now, purge :: other in t.disk.dir ==> Dies(ttl, t, now, purge, other) == Dies(ttl, s, now, purge, other)
    ensures name in t.disk.dir <==> name in s.disk.dir && !Dies(ttl, s, s.sweeps[k].now, s.sweeps[k].purge, name)
  {
    hide Classify, Known, Expired, PublishedExpiry, Dies, DiskOk, Node;
    var gone := name in s.disk.dir && Dies(ttl, s, s.sweeps[k].now, s.sweeps[k].purge, name);
    if gone {
      DyingIsDir(ttl, s, s.sweeps[k].now, s.sweeps[k].purge, name);
      OthersStay(s, t, name);
    }
    forall other, now: nat, purge | other in t.disk.dir
      ensures Dies(ttl, t, now, purge, other) == Dies(ttl, s, now, purge, other)
    {
      SameFate(ttl, s, t, now, purge, other);
    }
  }

  lemma DyingIsDir(ttl: nat, s: Sys, now: nat, purge: bool, name: Name)
    requires name in s.disk.dir && Dies(ttl, s, now, purge, name)
    ensures IsDirAt(s.disk, name)
  {
    hide Classify, Expired, PublishedExpiry;
    RemovableNames(name);
  }

  /** Nothing else leads to the directory that went. */
  lemma OthersStay(s: Sys, t: Sys, name: Name)
    requires DiskOk(s.disk, s.used) && IsDirAt(s.disk, name) && t == s.(disk := t.disk, sweeps := t.sweeps) && |t.disk.inodes| == |s.disk.inodes|
    requires t.disk.dir == map other | other in s.disk.dir && other != name :: s.disk.dir[other]
    requires forall n: nat :: n < |s.disk.inodes| && !At(s.disk, name, n) ==> t.disk.inodes[n] == s.disk.inodes[n]
    ensures DiskOk(t.disk, t.used)
    ensures forall other :: other in t.disk.dir ==>
      other in s.disk.dir && t.disk.dir[other] == s.disk.dir[other] && Node(t.disk, t.disk.dir[other]) == Node(s.disk, s.disk.dir[other])
  {
    hide Known;
    forall other | other in t.disk.dir
      ensures Node(t.disk, t.disk.dir[other]) == Node(s.disk, s.disk.dir[other])
    {
      assert !At(s.disk, name, s.disk.dir[other]);
    }
  }

  lemma SameFate(ttl: nat, s: Sys, t: Sys, now: nat, purge: bool, other: Name)
    requires other in t.disk.dir && other in s.disk.dir && t.disk.dir[other] == s.disk.dir[other] && t.active == s.active
    requires Node(t.disk, t.disk.dir[other]) == Node(s.disk, s.disk.dir[other])
    ensures Dies(ttl, t, now, purge, other) == Dies(ttl, s, now, purge, other)
  {
    hide Classify, Expired, PublishedExpiry, Node;
  }

  // ---------------------------------------------------------------- what goes although it should not

  const EmptyRoot: Sys := Sys(0, Disk(map[], []), [], {}, 0, {}, [])

  lemma Then(ttl: nat, s0: Sys, es: seq<Event>, e: Event)
    ensures Run(ttl, s0, es + [e]) == Step(ttl, Run(ttl, s0, es), e)
  {
    hide Step;
    assert (es + [e])[..|es|] == es;
  }

  /** A claim that has made its directory. */
  lemma ReachFilling(ttl: nat, t: Token) returns (es: seq<Event>)
    ensures var a := NameOf(Own(Staging, t));
      Run(ttl, EmptyRoot, es) == Sys(0, Disk(map[a := 0], [Inode(true, 0, {}, Missing)]), [Claim(Filling, Some(t), Some(0), {}, {}, 0, false)], {a}, MAX_CLAIM_TOTAL_BYTES, {t}, [])
  {
    hide Run, NameOf, Owner, Classify;
    RunNone(ttl, EmptyRoot);
    es := [];
    Then(ttl, EmptyRoot, es, Reserve);
    es := es + [Reserve];
    Then(ttl, EmptyRoot, es, Do(0, Draw(t)));
    es := es + [Do(0, Draw(t))];
    Then(ttl, EmptyRoot, es, Do(0, MakeDir(true)));
    es := es + [Do(0, MakeDir(true))];
    Then(ttl, EmptyRoot, es, Do(0, OpenDir(true)));
    es := es + [Do(0, OpenDir(true))];
  }

  /** A claim that has just published one file, at the very start. */
  lemma ReachPublished(ttl: nat, t: Token) returns (es: seq<Event>)
    ensures var s := Run(ttl, EmptyRoot, es);
      && s.clock == 0 && s.sweeps == [] && |s.claims| == 1 && s.claims[0].phase == Given(ttl) && s.claims[0].token == Some(t)
      && s.disk == Disk(map[NameOf(Own(Published, t)) := 0], [Inode(true, 0, {0}, Expires(ttl))])
  {
    hide Run, NameOf, Owner, Classify;
    es := ReachFilling(ttl, t);
    Then(ttl, EmptyRoot, es, Do(0, OpenFile(0)));
    es := es + [Do(0, OpenFile(0))];
    Then(ttl, EmptyRoot, es, Do(0, FinishFile(0)));
    es := es + [Do(0, FinishFile(0))];
    Then(ttl, EmptyRoot, es, Do(0, Publish));
    es := es + [Do(0, Publish)];
    Then(ttl, EmptyRoot, es, Do(0, WriteRecord(true, false)));
    es := es + [Do(0, WriteRecord(true, false))];
    Then(ttl, EmptyRoot, es, Do(0, RenamePublished(true)));
    es := es + [Do(0, RenamePublished(true))];
  }

  /** A purge that begins just after a claim was published takes it, long before its expiry. */
  lemma PurgeTakesPublished(ttl: nat, t: Token) returns (es: seq<Event>)
    requires ttl > 0
    ensures Initial(EmptyRoot)
    ensures var s := Run(ttl, EmptyRoot, es);
      && |s.claims| == 1 && s.claims[0].phase == Given(ttl) && s.claims[0].token == Some(t) && s.clock < ttl * TICKS
      && NameOf(Own(Published, t)) !in s.disk.dir
  {
    hide Run, NameOf, Owner, Classify;
    var name := NameOf(Own(Published, t));
    es := ReachPublished(ttl, t);
    Then(ttl, EmptyRoot, es, StartSweep(true, [name]));
    es := es + [StartSweep(true, [name])];
    var s := Run(ttl, EmptyRoot, es);
    RunKeeps(ttl, EmptyRoot, es);
    assert Dies(ttl, s, 0, true, name);
    var rest := SweepAlone(ttl, s, 0);
    RunConcat(ttl, EmptyRoot, es, rest);
    es := es + rest;
  }

  /** A directory the spool never names is swept too, if its name is a claim's followed by a newline. */
  lemma NewlineNameIsSwept(ttl: nat, s0: Sys, t: Token) returns (es: seq<Event>)
    requires Initial(s0) && IsDirAt(s0.disk, t + "\n")
    ensures Owner(t + "\n").None?
    ensures t + "\n" !in Run(ttl, s0, es).disk.dir
  {
    hide Run, NameOf;
    var name := t + "\n";
    NewlineName(t);
    var mtime := Node(s0.disk, s0.disk.dir[name]).mtime;
    RunNone(ttl, s0);
    Then(ttl, s0, [], Tick(mtime + ttl * TICKS));
    es := [] + [Tick(mtime + ttl * TICKS)];
    Then(ttl, s0, es, StartSweep(false, [name]));
    es := es + [StartSweep(false, [name])];
    var s := Run(ttl, s0, es);
    RunKeeps(ttl, s0, es);
    assert Dies(ttl, s, s.sweeps[0].now, false, name);
    var rest := SweepAlone(ttl, s, 0);
    RunConcat(ttl, s0, es, rest);
    es := es + rest;
  }

  lemma NewlineName(t: Token)
    ensures Owner(t + "\n").None? && Classify(t + "\n", true) == Removable(Published)
  {
    var name := t + "\n";
    assert name[..|name| - 1] == t && name[32] == '\n' && HexDigit(name[0]) && |name| == 33;
  }
}
