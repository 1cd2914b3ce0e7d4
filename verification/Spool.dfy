/**
 * The spool root of drop/spool.py: claims that stage, publish, hold and discard
 * their private directories, and sweeps that delete what has expired, taking
 * turns at every operation on the directory.
 */
module Spool {
  import opened Basics

  /** Clock ticks in a second; the sidecar counts seconds, the clock does not. */
  const TICKS: nat := 1_000_000_000
  const STAGING_GRACE_SECONDS: nat := 600
  const MAX_CLAIM_TOTAL_BYTES: nat := 42 * 1024 * 1024
  const MAX_LIVE_CLAIM_BYTES: nat := 4 * MAX_CLAIM_TOTAL_BYTES
  const MAX_CLAIM_FILES: nat := 5

  type Name = string

  // ---------------------------------------------------------------------- names

  predicate HexDigit(c: char) {
    '0' <= c <= '9' || 'a' <= c <= 'f'
  }

  predicate IsToken(s: string) {
    |s| == 32 && forall i :: 0 <= i < |s| ==> HexDigit(s[i])
  }

  const ZERO: string := "00000000000000000000000000000000"

  type Token = s: string | IsToken(s) witness ZERO

  datatype Shape = Staging | Quarantine | Published

  /** One of the three names a token gives. */
  datatype Own = Own(shape: Shape, token: Token)

  const STAGING_PREFIX: string := ".staging-"
  const QUARANTINE_PREFIX: string := ".quarantine-"

  function Prefix(shape: Shape): string {
    match shape
    case Staging => STAGING_PREFIX
    case Quarantine => QUARANTINE_PREFIX
    case Published => ""
  }

  predicate StartsWith(s: string, prefix: string) {
    |prefix| <= |s| && s[..|prefix|] == prefix
  }

  /** `_CLAIM_ID_RE.match`: the `$` of the pattern also stands before a final newline. */
  predicate MatchesClaimId(s: string) {
    IsToken(s) || (|s| > 0 && s[|s| - 1] == '\n' && IsToken(s[..|s| - 1]))
  }

  datatype Kind = Marker | Foreign | Removable(shape: Shape)

  /** `_classify`. */
  function Classify(name: Name, isDir: bool): Kind {
    if name == ".hermes-drop-spool" || name == ".hermes-drop-spool.lock" then Marker
    else if !isDir then Foreign
    else if StartsWith(name, STAGING_PREFIX) && MatchesClaimId(name[|STAGING_PREFIX|..]) then Removable(Staging)
    else if StartsWith(name, QUARANTINE_PREFIX) && MatchesClaimId(name[|QUARANTINE_PREFIX|..]) then Removable(Quarantine)
    else if MatchesClaimId(name) then Removable(Published)
    else Foreign
  }

  /** Whose name it is, if it is exactly one of the three generated shapes. */
  function Owner(name: Name): (o: Option<Own>)
    ensures o.Some? ==> name == Prefix(o.value.shape) + o.value.token
  {
    if IsToken(name) then Some(Own(Published, name))
    else if StartsWith(name, STAGING_PREFIX) && IsToken(name[|STAGING_PREFIX|..]) then Some(Own(Staging, name[|STAGING_PREFIX|..]))
    else if StartsWith(name, QUARANTINE_PREFIX) && IsToken(name[|QUARANTINE_PREFIX|..]) then Some(Own(Quarantine, name[|QUARANTINE_PREFIX|..]))
    else None
  }

  function NameOf(o: Own): (name: Name)
    ensures Owner(name) == Some(o)
    ensures Classify(name, true) == Removable(o.shape)
  {
    var name := Prefix(o.shape) + o.token;
    assert name[|Prefix(o.shape)|..] == o.token;
    assert o.shape != Published ==> name[0] == '.' && !HexDigit(name[0]);
    assert o.shape == Published ==> HexDigit(name[0]);
    assert o.shape == Quarantine ==> name[1] == 'q' && !StartsWith(name, STAGING_PREFIX);
    name
  }

  /** What a sweep may delete: a directory under a generated name, or under one followed by a newline. */
  lemma RemovableNames(name: Name)
    ensures Classify(name, true).Removable? <==> Owner(name).Some? || (name != [] && name[|name| - 1] == '\n' && Owner(name[..|name| - 1]).Some?)
    ensures !Classify(name, false).Removable?
    ensures Owner(name).Some? ==> Classify(name, true) == Removable(Owner(name).value.shape)
  {
    if Owner(name).Some? {
      assert NameOf(Owner(name).value) == name;
    }
    if name != [] && name[|name| - 1] == '\n' {
      var front := name[..|name| - 1];
      assert |name| > |STAGING_PREFIX| && StartsWith(name, STAGING_PREFIX) ==> name[|STAGING_PREFIX|..][..|name| - 1 - |STAGING_PREFIX|] == front[|STAGING_PREFIX|..] && front[..|STAGING_PREFIX|] == name[..|STAGING_PREFIX|];
      assert |name| > |QUARANTINE_PREFIX| && StartsWith(name, QUARANTINE_PREFIX) ==> name[|QUARANTINE_PREFIX|..][..|name| - 1 - |QUARANTINE_PREFIX|] == front[|QUARANTINE_PREFIX|..] && front[..|QUARANTINE_PREFIX|] == name[..|QUARANTINE_PREFIX|];
    }
  }

  // ---------------------------------------------------------------------- the root

  /** The record of a published claim: not written, written in part or illegibly, or with its expiry in seconds. */
  datatype Sidecar = Missing | Unreadable | Expires(at: nat)

  /** Inner names stand for the index of the file that was stored under them. */
  datatype Inode = Inode(isDir: bool, mtime: nat, files: set<nat>, sidecar: Sidecar)

  datatype Disk = Disk(dir: map<Name, nat>, inodes: seq<Inode>)

  function Node(d: Disk, n: nat): Inode {
    if n < |d.inodes| then d.inodes[n] else Inode(false, 0, {}, Missing)
  }

  function SetNode(d: Disk, n: nat, node: Inode): Disk {
    if n < |d.inodes| then d.(inodes := d.inodes[n := node]) else d
  }

  predicate IsDirAt(d: Disk, name: Name) {
    name in d.dir && Node(d, d.dir[name]).isDir
  }

  predicate IsEmptyDir(node: Inode) {
    node.isDir && node.files == {} && node.sidecar == Missing
  }

  /** `rename` of a directory: the target must be absent, or an empty directory. */
  predicate CanRename(d: Disk, a: Name, b: Name) {
    a in d.dir && (b in d.dir ==> IsEmptyDir(Node(d, d.dir[b])))
  }

  function Rename(d: Disk, a: Name, b: Name): Disk
    requires a in d.dir
  {
    d.(dir := (map name | name in d.dir && name != a && name != b :: d.dir[name])[b := d.dir[a]])
  }

  function Unlink(d: Disk, name: Name): Disk {
    d.(dir := map other | other in d.dir && other != name :: d.dir[other])
  }

  // ---------------------------------------------------------------------- removing

  /** `_remove_entry`, between two operations on the directory. */
  datatype Removal =
    | Looking(name: Name)
    | Unlinking(name: Name)
    | Opening(name: Name)
    | Emptying(name: Name, inode: nat)
    | Finished

  datatype Inner = StoredFile(index: nat) | Record | Nothing

  /** The next operation; whatever cannot be done ends the removal. */
  function RemoveStep(d: Disk, clock: nat, r: Removal, inner: Inner): (Disk, Removal) {
    match r
    case Looking(name) =>
      (d, if name !in d.dir then Finished else if IsDirAt(d, name) then Opening(name) else Unlinking(name))
    case Unlinking(name) =>
      (if name in d.dir && !IsDirAt(d, name) then Unlink(d, name) else d, Finished)
    case Opening(name) =>
      (d, if IsDirAt(d, name) then Emptying(name, d.dir[name]) else Finished)
    case Emptying(name, n) =>
      var node := Node(d, n);
      if inner.StoredFile? && inner.index in node.files then (SetNode(d, n, node.(files := node.files - {inner.index}, mtime := clock)), r)
      else if inner.Record? && node.sidecar != Missing then (SetNode(d, n, node.(sidecar := Missing, mtime := clock)), r)
      else if inner.Nothing? then (if name in d.dir && IsEmptyDir(Node(d, d.dir[name])) then Unlink(d, name) else d, Finished)
      else (d, r)
    case Finished => (d, r)
  }

  // ---------------------------------------------------------------------- claims

  datatype Phase =
    | Drawing                  // bytes reserved, no name yet
    | Named                    // registered, not made
    | Made                     // made, not opened
    | Filling
    | Stamped(expires: nat)    // a publish has read the clock
    | Recorded(expires: nat)   // and written its record
    | Given(expires: nat)      // and renamed: the claim is the caller's
    | Held                     // renamed into quarantine
    | Discarding(removal: Removal)

  /** `stamp` is the directory's modification time when it was last written by its claim. */
  datatype Claim = Claim(phase: Phase, token: Option<Token>, inode: Option<nat>, open: set<nat>, done: set<nat>, stamp: nat, released: bool)

  datatype Act =
    | GiveUp | Draw(token: Token) | MakeDir(ok: bool) | OpenDir(ok: bool)
    | OpenFile(index: nat) | FinishFile(index: nat)
    | Publish | WriteRecord(ok: bool, partly: bool) | RenamePublished(ok: bool)
    | Hold(ok: bool) | Discard | RemoveOwn(inner: Inner) | RemoveOwnFails | Release

  // ---------------------------------------------------------------------- sweeps

  datatype SweepPhase =
    | Idle
    | Seen(name: Name, shape: Shape, mtime: nat)
    | Reading(name: Name, mtime: nat, child: nat)
    | Removing(removal: Removal)

  /** One walk: when it began, whether it ignores times, which names it found then, and which it still has to judge. */
  datatype Sweep = Sweep(now: nat, purge: bool, listed: seq<Name>, todo: seq<Name>, phase: SweepPhase)

  datatype Look = LookUp | Judge(opens: bool) | ReadRecord(readable: bool) | Remove(inner: Inner) | RemoveFails

  datatype Sys = Sys(clock: nat, disk: Disk, claims: seq<Claim>, active: set<Name>, reserved: nat, used: set<Token>, sweeps: seq<Sweep>)

  datatype Event =
    | Tick(ticks: nat)
    | Reserve
    | Do(claim: nat, act: Act)
    | StartSweep(purge: bool, names: seq<Name>)
    | Walk(sweep: nat, look: Look)

  /** The sorted indices are a whole range from zero. */
  predicate Contiguous(files: set<nat>) {
    forall i :: i in files ==> i < |files|
  }

  function NameFor(c: Claim, shape: Shape): Name
    requires c.token.Some?
  {
    NameOf(Own(shape, c.token.value))
  }

  function ReleaseClaim(s: Sys, c: Claim): (Sys, Claim) {
    (s.(active := if c.token.Some? then s.active - {NameFor(c, Staging)} else s.active,
        reserved := if s.reserved < MAX_CLAIM_TOTAL_BYTES then 0 else s.reserved - MAX_CLAIM_TOTAL_BYTES),
     c.(released := true))
  }

  /** A fresh name is registered before its directory is made. */
  function DrawName(s: Sys, c: Claim, t: Token): (Sys, Claim) {
    if NameOf(Own(Published, t)) in s.disk.dir || NameOf(Own(Staging, t)) in s.disk.dir || t in s.used then (s, c)
    else (s.(active := s.active + {NameOf(Own(Staging, t))}, used := s.used + {t}), c.(phase := Named, token := Some(t)))
  }

  function Make(s: Sys, c: Claim, ok: bool): (Sys, Claim)
    requires c.token.Some?
  {
    if !ok then ReleaseClaim(s, c.(phase := Discarding(Finished)))
    else if NameFor(c, Staging) in s.disk.dir then (s.(active := s.active - {NameFor(c, Staging)}), c.(phase := Drawing, token := None))
    else
      (s.(disk := Disk(s.disk.dir[NameFor(c, Staging) := |s.disk.inodes|], s.disk.inodes + [Inode(true, s.clock, {}, Missing)])),
       c.(phase := Made, inode := Some(|s.disk.inodes|), stamp := s.clock))
  }

  function Open(s: Sys, c: Claim, ok: bool): (Sys, Claim)
    requires c.token.Some?
  {
    if ok && IsDirAt(s.disk, NameFor(c, Staging)) then (s, c.(phase := Filling, inode := Some(s.disk.dir[NameFor(c, Staging)])))
    else (s, c.(phase := Discarding(Looking(NameFor(c, Staging)))))
  }

  function StoreFile(s: Sys, c: Claim, i: nat): (Sys, Claim)
    requires c.inode.Some?
  {
    var node := Node(s.disk, c.inode.value);
    if i in c.open || i in c.done || |c.open| + |c.done| >= MAX_CLAIM_FILES then (s, c)
    else
      (s.(disk := SetNode(s.disk, c.inode.value, node.(files := node.files + {i}, mtime := s.clock))),
       c.(open := c.open + {i}, stamp := s.clock))
  }

  /** `_write_metadata`: exclusive, so a record that is already there, whole or not, stops it. */
  function StoreRecord(s: Sys, c: Claim, expires: nat, ok: bool, partly: bool): (Sys, Claim)
    requires c.inode.Some?
  {
    var node := Node(s.disk, c.inode.value);
    if node.sidecar != Missing || (!ok && !partly) then (s, c.(phase := Filling))
    else
      (s.(disk := SetNode(s.disk, c.inode.value, node.(sidecar := if ok then Expires(expires) else Unreadable, mtime := s.clock))),
       c.(phase := if ok then Recorded(expires) else Filling, stamp := s.clock))
  }

  /** A rename to `shape`, after which the claim is in phase `after`; one that fails leaves it filling. */
  function Move(s: Sys, c: Claim, shape: Shape, after: Phase, ok: bool): (Sys, Claim)
    requires c.token.Some?
  {
    if !ok || !CanRename(s.disk, NameFor(c, Staging), NameFor(c, shape)) then (s, c.(phase := Filling))
    else (s.(disk := Rename(s.disk, NameFor(c, Staging), NameFor(c, shape))), c.(phase := after))
  }

  /** One operation of one claim; an operation that is not its turn does nothing. */
  function ActStep(ttl: nat, s: Sys, c: Claim, a: Act): (Sys, Claim) {
    if c.released then (s, c)
    else if c.token.None? then
      match a
      case GiveUp => if c.phase.Drawing? then ReleaseClaim(s, c) else (s, c)
      case Draw(t) => if c.phase.Drawing? then DrawName(s, c, t) else (s, c)
      case _ => (s, c)
    else
      match (c.phase, a)
      case (Named, MakeDir(ok)) => Make(s, c, ok)
      case (Made, OpenDir(ok)) => Open(s, c, ok)
      case (Filling, OpenFile(i)) => if c.inode.Some? then StoreFile(s, c, i) else (s, c)
      case (Filling, FinishFile(i)) => (s, if i in c.open then c.(open := c.open - {i}, done := c.done + {i}) else c)
      case (Filling, Publish) =>
        (s, if c.done == {} || c.open != {} || !Contiguous(c.done) then c else c.(phase := Stamped(s.clock / TICKS + ttl)))
      case (Stamped(expires), WriteRecord(ok, partly)) => if c.inode.Some? then StoreRecord(s, c, expires, ok, partly) else (s, c)
      case (Recorded(expires), RenamePublished(ok)) => Move(s, c, Published, Given(expires), ok)
      case (Filling, Hold(ok)) => Move(s, c, Quarantine, Held, ok)
      case (Filling, Discard) => (s, c.(phase := Discarding(Looking(NameFor(c, Staging)))))
      case (Discarding(r), RemoveOwn(inner)) =>
        var (disk, r') := RemoveStep(s.disk, s.clock, r, inner);
        (s.(disk := disk), c.(phase := Discarding(r')))
      case (Discarding(_), RemoveOwnFails) => (s, c.(phase := Discarding(Finished)))
      case (Given(_), Release) => ReleaseClaim(s, c)
      case (Held, Release) => ReleaseClaim(s, c)
      case (Discarding(Finished), Release) => ReleaseClaim(s, c)
      case _ => (s, c)
  }

  /** `_expired` for everything but a published claim's own record. */
  predicate Expired(active: set<Name>, now: nat, purge: bool, ttl: nat, name: Name, shape: Shape, mtime: nat) {
    if shape == Staging && name in active then false
    else if purge then true
    else if shape == Staging then mtime + STAGING_GRACE_SECONDS * TICKS < now
    else mtime + ttl * TICKS <= now
  }

  /** `_published_expiry`: the record's own time, never later than the directory's age allows. */
  function PublishedExpiry(ttl: nat, mtime: nat, sidecar: Sidecar): nat {
    var fallback := mtime + ttl * TICKS;
    if sidecar.Expires? && sidecar.at * TICKS < fallback then sidecar.at * TICKS else fallback
  }

  function Next(sw: Sweep): Sweep {
    sw.(phase := Idle, todo := if sw.todo == [] then [] else sw.todo[1..])
  }

  /** One operation of one sweep. */
  function LookStep(ttl: nat, s: Sys, sw: Sweep, look: Look): (Disk, Sweep) {
    match (sw.phase, look)
    case (Idle, LookUp) =>
      if sw.todo == [] then (s.disk, sw)
      else if sw.todo[0] !in s.disk.dir then (s.disk, Next(sw))
      else
        var name, node := sw.todo[0], Node(s.disk, s.disk.dir[sw.todo[0]]);
        var kind := Classify(name, node.isDir);
        (s.disk, if kind.Removable? then sw.(phase := Seen(name, kind.shape, node.mtime)) else Next(sw))
    case (Seen(name, shape, mtime), Judge(opens)) =>
      if shape == Published && !sw.purge && opens && IsDirAt(s.disk, name) then (s.disk, sw.(phase := Reading(name, mtime, s.disk.dir[name])))
      else (s.disk, if Expired(s.active, sw.now, sw.purge, ttl, name, shape, mtime) then sw.(phase := Removing(Looking(name))) else Next(sw))
    case (Reading(name, mtime, child), ReadRecord(readable)) =>
      var at := PublishedExpiry(ttl, mtime, if readable then Node(s.disk, child).sidecar else Unreadable);
      (s.disk, if at <= sw.now then sw.(phase := Removing(Looking(name))) else Next(sw))
    case (Removing(r), Remove(inner)) =>
      var (disk, r') := RemoveStep(s.disk, s.clock, r, inner);
      (disk, if r'.Finished? then Next(sw) else sw.(phase := Removing(r')))
    case (Removing(_), RemoveFails) => (s.disk, Next(sw))
    case _ => (s.disk, sw)
  }

  function Step(ttl: nat, s: Sys, e: Event): Sys {
    match e
    case Tick(ticks) => s.(clock := s.clock + ticks)
    case Reserve =>
      if s.reserved + MAX_CLAIM_TOTAL_BYTES > MAX_LIVE_CLAIM_BYTES then s
      else s.(claims := s.claims + [Claim(Drawing, None, None, {}, {}, 0, false)], reserved := s.reserved + MAX_CLAIM_TOTAL_BYTES)
    case Do(i, act) =>
      if i >= |s.claims| then s
      else
        var (s', c) := ActStep(ttl, s, s.claims[i], act);
        s'.(claims := s'.claims[i := c])
    case StartSweep(purge, names) =>
      if exists i :: 0 <= i < |names| && names[i] !in s.disk.dir then s
      else s.(sweeps := s.sweeps + [Sweep(s.clock, purge, names, names, Idle)])
    case Walk(k, look) =>
      if k >= |s.sweeps| then s
      else
        var (disk, sw) := LookStep(ttl, s, s.sweeps[k], look);
        s.(disk := disk, sweeps := s.sweeps[k := sw])
  }

  function Run(ttl: nat, s: Sys, es: seq<Event>): Sys {
    if es == [] then s else Step(ttl, Run(ttl, s, es[..|es| - 1]), es[|es| - 1])
  }

  /** A process that has just started, over whatever earlier ones left in the root. */
  ghost predicate Initial(s: Sys) {
    && s.claims == [] && s.sweeps == [] && s.active == {} && s.reserved == 0
    && (forall name :: name in s.disk.dir ==> s.disk.dir[name] < |s.disk.inodes|)
    && (forall a, b :: a in s.disk.dir && b in s.disk.dir && a != b && Node(s.disk, s.disk.dir[a]).isDir ==> s.disk.dir[a] != s.disk.dir[b])
    && (forall name :: name in s.disk.dir && Owner(name).Some? ==> Owner(name).value.token in s.used)
  }
}
