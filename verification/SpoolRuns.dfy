/**
 * What every interleaving of claims and sweeps keeps: a claim's directory is
 * where its phase says, with what the claim put there, and no sweep is ever
 * about to touch one that is alive, or published or held and not yet due.
 */
module SpoolRuns {
  import opened Basics
  import opened Spool

  // ---------------------------------------------------------------- the invariant

  predicate HasDir(c: Claim) {
    c.phase.Made? || c.phase.Filling? || c.phase.Stamped? || c.phase.Recorded?
  }

  predicate Live(c: Claim) {
    c.phase.Named? || HasDir(c)
  }

  /** Where a claim's directory is, if it has one. */
  function Home(c: Claim): Option<Shape> {
    match c.phase
    case Drawing => None
    case Named => None
    case Given(_) => Some(Published)
    case Held => Some(Quarantine)
    case _ => Some(Staging)
  }

  /** A sweep's times allow it to take this claim's directory: it ignores them, or it began once the claim was due. */
  predicate Due(ttl: nat, now: nat, purge: bool, c: Claim) {
    || purge
    || (c.phase.Given? && c.phase.expires * TICKS <= now)
    || (c.phase.Held? && c.stamp + ttl * TICKS <= now)
  }

  /** The sweep found the claim's directory under the name it has now, and its times allow it to take it. */
  predicate Threat(ttl: nat, now: nat, purge: bool, listed: seq<Name>, c: Claim) {
    c.token.Some? && Home(c).Some? && NameFor(c, Home(c).value) in listed && Due(ttl, now, purge, c)
  }

  predicate Threatens(ttl: nat, sw: Sweep, c: Claim) {
    Threat(ttl, sw.now, sw.purge, sw.listed, c)
  }

  predicate Spared(ttl: nat, sweeps: seq<Sweep>, c: Claim) {
    forall k :: 0 <= k < |sweeps| ==> !Threatens(ttl, sweeps[k], c)
  }

  /** A sweep never found a published or held name before the claim had it. */
  predicate Unlisted(sw: Sweep, c: Claim) {
    c.token.Some? ==>
      && (!c.phase.Given? ==> NameFor(c, Published) !in sw.listed)
      && (!c.phase.Held? ==> NameFor(c, Quarantine) !in sw.listed)
  }

  predicate OwnRemoval(c: Claim, r: Removal) {
    match r
    case Finished => true
    case Emptying(name, n) => c.token.Some? && name == NameFor(c, Staging) && c.inode == Some(n)
    case _ => c.token.Some? && r.name == NameFor(c, Staging) && c.inode.Some?
  }

  /** A claim's own record of itself. */
  predicate Shaped(ttl: nat, clock: nat, active: set<Name>, used: set<Token>, c: Claim) {
    && (c.phase.Drawing? <==> c.token.None?)
    && (c.phase.Drawing? || c.phase.Named? ==> c.inode.None? && c.open == {} && c.done == {})
    && (c.token.Some? ==> c.token.value in used)
    && (c.token.Some? && !c.released ==> NameFor(c, Staging) in active)
    && (c.released ==> !Live(c))
    && (HasDir(c) || c.phase.Given? || c.phase.Held? ==> c.inode.Some?)
    && (c.phase.Discarding? ==> OwnRemoval(c, c.phase.removal))
    && c.stamp <= clock
    && (c.phase.Stamped? ==> c.phase.expires * TICKS <= clock + ttl * TICKS)
    && (c.phase.Recorded? || c.phase.Given? ==> c.phase.expires * TICKS <= c.stamp + ttl * TICKS)
    && (c.phase.Stamped? || c.phase.Recorded? || c.phase.Given? ==> c.open == {} && c.done != {} && Contiguous(c.done))
  }

  predicate At(d: Disk, name: Name, n: nat) {
    name in d.dir && d.dir[name] == n
  }

  /** What is on disk for a claim. */
  predicate Stored(ttl: nat, clock: nat, d: Disk, sweeps: seq<Sweep>, c: Claim) {
    c.inode.Some? ==>
      && c.token.Some? && c.inode.value < |d.inodes|
      && var node := Node(d, c.inode.value);
      && node.isDir && c.stamp <= node.mtime <= clock
      && (HasDir(c) ==> At(d, NameFor(c, Staging), c.inode.value) && node.files == c.open + c.done)
      && (c.phase.Recorded? ==> node.sidecar == Expires(c.phase.expires))
      && (c.phase.Given? ==> node.sidecar == Missing || node.sidecar == Expires(c.phase.expires))
      && (c.phase.Given? && Spared(ttl, sweeps, c) ==>
            At(d, NameFor(c, Published), c.inode.value) && node.files == c.done && node.sidecar == Expires(c.phase.expires))
      && (c.phase.Held? && Spared(ttl, sweeps, c) ==>
            At(d, NameFor(c, Quarantine), c.inode.value) && node.files == c.open + c.done)
  }

  /** One of the three names of the claim's token. */
  predicate Owned(c: Claim, name: Name) {
    Owner(name).Some? && c.token == Some(Owner(name).value.token)
  }

  /** A claim's names lead to its directory or nowhere, and only the one its phase says is there. */
  predicate Housed(d: Disk, c: Claim) {
    forall name :: name in d.dir ==>
      && (Owned(c, name) ==> Home(c) == Some(Owner(name).value.shape) && c.inode == Some(d.dir[name]))
      && (c.inode == Some(d.dir[name]) ==> Owned(c, name))
  }

  predicate Known(used: set<Token>, name: Name) {
    Owner(name).Some? ==> Owner(name).value.token in used
  }

  predicate DiskOk(d: Disk, used: set<Token>) {
    && (forall name :: name in d.dir ==> d.dir[name] < |d.inodes| && Known(used, name))
    && (forall a, b :: a in d.dir && b in d.dir && a != b && Node(d, d.dir[a]).isDir ==> d.dir[a] != d.dir[b])
  }

  predicate Distinct(claims: seq<Claim>) {
    forall i, j :: 0 <= i < |claims| && 0 <= j < |claims| && i != j ==>
      (claims[i].token.None? || claims[i].token != claims[j].token) && (claims[i].inode.None? || claims[i].inode != claims[j].inode)
  }

  /** A name a sweep has judged may be the claim's only if the claim is over, and not published or held before it is due. */
  predicate MayTake(ttl: nat, now: nat, purge: bool, listed: seq<Name>, c: Claim, name: Name) {
    Owned(c, name) ==>
      && !Live(c)
      && (Owner(name).value.shape == Published ==> c.phase.Given? && Threat(ttl, now, purge, listed, c))
      && (Owner(name).value.shape == Quarantine ==> c.phase.Held? && Threat(ttl, now, purge, listed, c))
  }

  /** What was seen of a published or held claim is no older than what the claim wrote last. */
  predicate SawLate(c: Claim, name: Name, mtime: nat) {
    Owned(c, name) ==>
      && (Owner(name).value.shape == Published ==> c.phase.Given? && c.stamp <= mtime)
      && (Owner(name).value.shape == Quarantine ==> c.phase.Held? && c.stamp <= mtime)
  }

  predicate Pending(ttl: nat, sw: Sweep, c: Claim) {
    match sw.phase
    case Idle => true
    case Seen(name, shape, mtime) => SawLate(c, name, mtime)
    case Reading(name, mtime, child) =>
      SawLate(c, name, mtime) && (Owned(c, name) ==> c.inode == Some(child))
    case Removing(r) =>
      match r
      case Finished => true
      case Emptying(name, n) =>
        MayTake(ttl, sw.now, sw.purge, sw.listed, c, name) && (c.inode == Some(n) ==> !Live(c) && (c.phase.Given? || c.phase.Held? ==> Threatens(ttl, sw, c)))
      case _ => MayTake(ttl, sw.now, sw.purge, sw.listed, c, r.name)
  }

  function PhaseName(p: SweepPhase): Option<Name> {
    match p
    case Idle => None
    case Seen(name, _, _) => Some(name)
    case Reading(name, _, _) => Some(name)
    case Removing(r) => if r.Finished? then None else Some(r.name)
  }

  predicate SweepOk(used: set<Token>, count: nat, sw: Sweep) {
    && (sw.phase.Reading? ==> sw.phase.child < count)
    && (sw.phase.Removing? && sw.phase.removal.Emptying? ==> sw.phase.removal.inode < count)
    && (forall i :: 0 <= i < |sw.todo| ==> Known(used, sw.todo[i]))
    && (PhaseName(sw.phase).Some? ==> Known(used, PhaseName(sw.phase).value))
    && (sw.phase.Seen? ==> Classify(sw.phase.name, true) == Removable(sw.phase.shape))
    && (sw.phase.Reading? ==> Classify(sw.phase.name, true) == Removable(Published))
    && (PhaseName(sw.phase).Some? ==> Classify(PhaseName(sw.phase).value, true).Removable? && PhaseName(sw.phase).value in sw.listed)
    && (forall i :: 0 <= i < |sw.listed| ==> Known(used, sw.listed[i]))
    && (forall i :: 0 <= i < |sw.todo| ==> sw.todo[i] in sw.listed)
  }

  function Holders(claims: seq<Claim>): nat {
    if claims == [] then 0 else Holders(claims[..|claims| - 1]) + if claims[|claims| - 1].released then 0 else 1
  }

  predicate Inv(ttl: nat, s: Sys) {
    && DiskOk(s.disk, s.used)
    && Distinct(s.claims)
    && (forall i :: 0 <= i < |s.claims| ==> ClaimOk(ttl, s, s.claims[i]))
    && (forall k :: 0 <= k < |s.sweeps| ==> SweepOk(s.used, |s.disk.inodes|, s.sweeps[k]))
    && (forall k, i :: 0 <= k < |s.sweeps| && 0 <= i < |s.claims| ==> Pending(ttl, s.sweeps[k], s.claims[i]) && Unlisted(s.sweeps[k], s.claims[i]))
    && s.reserved == MAX_CLAIM_TOTAL_BYTES * Holders(s.claims) && s.reserved <= MAX_LIVE_CLAIM_BYTES
  }

  predicate ClaimOk(ttl: nat, s: Sys, c: Claim) {
    && Shaped(ttl, s.clock, s.active, s.used, c)
    && Stored(ttl, s.clock, s.disk, s.sweeps, c)
    && Housed(s.disk, c)
  }

  // ---------------------------------------------------------------- acts of a claim

  predicate SameAt(d: Disk, d': Disk, name: Name) {
    (name in d.dir <==> name in d'.dir) && (name in d.dir ==> d.dir[name] == d'.dir[name])
  }

  /** Only this claim's names and directory changed. */
  ghost predicate Touches(d: Disk, d': Disk, c: Claim) {
    && |d.inodes| <= |d'.inodes|
    && (forall name :: !Owned(c, name) ==> SameAt(d, d', name))
    && (forall n: nat :: n < |d.inodes| && c.inode != Some(n) ==> Node(d', n) == Node(d, n))
  }

  /** A claim keeps its token and directory once it has them, and never comes back to life. */
  predicate Evolves(used: set<Token>, count: nat, c: Claim, c': Claim) {
    && (c.token.Some? && c'.token.Some? ==> c'.token == c.token)
    && (c.token.None? && c'.token.Some? ==> c'.token.value !in used && c'.inode.None?)
    && (c.inode.Some? ==> c'.inode == c.inode && c'.token == c.token)
    && (c.inode.None? && c'.inode.Some? ==> c'.inode.value >= count)
    && (c.token.Some? && !Live(c) ==> c'.token == c.token && !Live(c'))
    && (c.phase.Given? ==> c'.phase == c.phase && c'.stamp == c.stamp)
    && (c.phase.Held? ==> c'.phase == c.phase && c'.stamp == c.stamp)
    && (c.phase.Discarding? ==> c'.phase.Discarding?)
  }

  /** What an act of claim `c` does to everything else. */
  ghost predicate Acted(ttl: nat, s: Sys, c: Claim, s': Sys, c': Claim) {
    && s'.clock == s.clock && s'.sweeps == s.sweeps && s'.claims == s.claims
    && s.used <= s'.used
    && (forall name :: name in s.active && !Owned(c', name) && !Owned(c, name) ==> name in s'.active)
    && Touches(s.disk, s'.disk, c')
    && Evolves(s.used, |s.disk.inodes|, c, c')
    && (c.released ==> c'.released)
    && s'.reserved == s.reserved - (if c'.released && !c.released && s.reserved >= MAX_CLAIM_TOTAL_BYTES then MAX_CLAIM_TOTAL_BYTES else 0)
    && ClaimOk(ttl, s', c')
  }

  lemma NoAct(ttl: nat, s: Sys, c: Claim)
    requires ClaimOk(ttl, s, c)
    ensures Acted(ttl, s, c, s, c)
  {
    hide ClaimOk, Owned;
  }

  lemma ReleaseAct(ttl: nat, s: Sys, c: Claim)
    requires ClaimOk(ttl, s, c) && !c.released && !Live(c) && s.reserved >= MAX_CLAIM_TOTAL_BYTES
    ensures var (s', c') := ReleaseClaim(s, c); Acted(ttl, s, c, s', c') && s'.disk == s.disk
  {
    hide NameOf, Owner;
  }

  lemma DrawAct(ttl: nat, s: Sys, c: Claim, t: Token)
    requires ClaimOk(ttl, s, c) && DiskOk(s.disk, s.used) && !c.released && c.phase.Drawing?
    ensures var (s', c') := DrawName(s, c, t); Acted(ttl, s, c, s', c')
  {
    hide NameOf, Owner;
    var (s', c') := DrawName(s, c, t);
    forall name | name in s.disk.dir && t !in s.used
      ensures !Owned(c', name)
    {
      assert Known(s.used, name);
    }
    assert Housed(s'.disk, c');
  }

  lemma MakeAct(ttl: nat, s: Sys, c: Claim, ok: bool)
    requires ClaimOk(ttl, s, c) && DiskOk(s.disk, s.used) && !c.released && c.phase.Named? && s.reserved >= MAX_CLAIM_TOTAL_BYTES
    ensures var (s', c') := Make(s, c, ok); Acted(ttl, s, c, s', c')
  {
    hide NameOf, Owner, Classify;
    assert Owned(c, NameFor(c, Staging)) && NameFor(c, Staging) !in s.disk.dir;
    NothingThereYet(s.disk, s.used, c);
    var (s', c') := Make(s, c, ok);
    assert ok ==> Node(s'.disk, |s.disk.inodes|) == Inode(true, s.clock, {}, Missing);
    assert Housed(s'.disk, c') by {
      forall name | name in s'.disk.dir
        ensures Owned(c', name) ==> Home(c') == Some(Owner(name).value.shape) && c'.inode == Some(s'.disk.dir[name])
        ensures c'.inode == Some(s'.disk.dir[name]) ==> Owned(c', name)
      {
        assert Owned(c', name) ==> Owned(c, name);
      }
    }
  }

  lemma NothingThereYet(d: Disk, used: set<Token>, c: Claim)
    requires DiskOk(d, used) && Housed(d, c) && Home(c) == None
    ensures forall name :: name in d.dir ==> !Owned(c, name) && d.dir[name] != |d.inodes|
  {
    hide NameOf, Owner;
    forall name | name in d.dir
      ensures !Owned(c, name) && d.dir[name] != |d.inodes|
    {
      assert Known(used, name);
    }
  }

  lemma OpenAct(ttl: nat, s: Sys, c: Claim, ok: bool)
    requires ClaimOk(ttl, s, c) && !c.released && c.phase.Made?
    ensures var (s', c') := Open(s, c, ok); Acted(ttl, s, c, s', c')
  {
    hide NameOf, Owner;
  }

  /** A write into the claim's own directory. */
  lemma WriteAct(ttl: nat, s: Sys, c: Claim, node: Inode, c': Claim)
    requires ClaimOk(ttl, s, c) && !c.released && HasDir(c) && HasDir(c')
    requires c' == c.(phase := c'.phase, open := c'.open, stamp := s.clock)
    requires Shaped(ttl, s.clock, s.active, s.used, c')
    requires node.isDir && node.mtime == s.clock && node.files == c'.open + c'.done
    requires c'.phase.Recorded? ==> node.sidecar == Expires(c'.phase.expires)
    ensures Acted(ttl, s, c, s.(disk := SetNode(s.disk, c.inode.value, node)), c')
  {
    hide NameOf, Owner, Shaped, Housed, Touches, SetNode, Contiguous, Owned;
    ShapedHas(ttl, s, c);
    WriteDisk(s.disk, c, node, c');
  }

  lemma WriteDisk(d: Disk, c: Claim, node: Inode, c': Claim)
    requires Housed(d, c) && Home(c) == Home(c') && c.token == c'.token && c.inode == c'.inode && c.inode.Some? && c.inode.value < |d.inodes|
    ensures var d' := SetNode(d, c.inode.value, node);
      Touches(d, d', c') && Housed(d', c') && d'.dir == d.dir && Node(d', c.inode.value) == node && |d'.inodes| == |d.inodes|
  {
    hide NameOf, Owner;
  }

  lemma ShapedHas(ttl: nat, s: Sys, c: Claim)
    requires Shaped(ttl, s.clock, s.active, s.used, c)
    ensures (HasDir(c) || c.phase.Given? || c.phase.Held? ==> c.inode.Some?) && (c.phase.Drawing? <==> c.token.None?)
  {
  }

  lemma StoreFileAct(ttl: nat, s: Sys, c: Claim, i: nat)
    requires ClaimOk(ttl, s, c) && !c.released && c.phase.Filling?
    ensures var (s', c') := StoreFile(s, c, i); Acted(ttl, s, c, s', c')
  {
    hide NameOf, Owner, Acted, Housed, Contiguous;
    NoAct(ttl, s, c);
    var (s', c') := StoreFile(s, c, i);
    var node := Node(s.disk, c.inode.value);
    WriteAct(ttl, s, c, node.(files := node.files + {i}, mtime := s.clock), c.(open := c.open + {i}, stamp := s.clock));
  }

  lemma StoreRecordAct(ttl: nat, s: Sys, c: Claim, ok: bool, partly: bool)
    requires ClaimOk(ttl, s, c) && !c.released && c.phase.Stamped?
    ensures var (s', c') := StoreRecord(s, c, c.phase.expires, ok, partly); Acted(ttl, s, c, s', c')
  {
    hide NameOf, Owner, Acted, Housed, Contiguous;
    RefillAct(ttl, s, c);
    var (s', c') := StoreRecord(s, c, c.phase.expires, ok, partly);
    var node := Node(s.disk, c.inode.value);
    WriteAct(ttl, s, c, node.(sidecar := if ok then Expires(c.phase.expires) else Unreadable, mtime := s.clock),
             c.(phase := if ok then Recorded(c.phase.expires) else Filling, stamp := s.clock));
  }

  /** A publish that fails leaves the claim as it was. */
  lemma RefillAct(ttl: nat, s: Sys, c: Claim)
    requires ClaimOk(ttl, s, c) && !c.released && (c.phase.Filling? || c.phase.Stamped? || c.phase.Recorded?)
    ensures Acted(ttl, s, c, s, c.(phase := Filling))
  {
    hide NameOf, Owner, Contiguous;
  }

  lemma PublishAct(ttl: nat, s: Sys, c: Claim)
    requires ClaimOk(ttl, s, c) && !c.released && c.phase.Filling? && c.done != {} && c.open == {} && Contiguous(c.done)
    ensures Acted(ttl, s, c, s, c.(phase := Stamped(s.clock / TICKS + ttl)))
  {
    hide NameOf, Owner;
  }

  lemma FinishAct(ttl: nat, s: Sys, c: Claim, i: nat)
    requires ClaimOk(ttl, s, c) && !c.released && c.phase.Filling? && i in c.open
    ensures Acted(ttl, s, c, s, c.(open := c.open - {i}, done := c.done + {i}))
  {
    hide NameOf, Owner;
  }

  /** The rename moves the claim's directory from its one name to its other. */
  lemma RenameDisk(d: Disk, c: Claim, shape: Shape, c': Claim)
    requires Housed(d, c) && HasDir(c) && c.token.Some? && c.inode.Some? && At(d, NameFor(c, Staging), c.inode.value)
    requires c'.token == c.token && c'.inode == c.inode && Home(c') == Some(shape) && shape != Staging
    ensures var d' := Rename(d, NameFor(c, Staging), NameFor(c, shape));
      Touches(d, d', c') && Housed(d', c') && At(d', NameFor(c, shape), c.inode.value)
  {
    hide NameOf, Owner;
    var a, b := NameFor(c, Staging), NameFor(c, shape);
    var d' := Rename(d, a, b);
    assert Owned(c, a) && Owned(c, b) && b !in d.dir;
    forall name | name in d'.dir
      ensures Owned(c', name) ==> Home(c') == Some(Owner(name).value.shape) && c'.inode == Some(d'.dir[name])
      ensures c'.inode == Some(d'.dir[name]) ==> Owned(c', name)
    {
      assert Owned(c', name) <==> Owned(c, name);
    }
    forall name | !Owned(c', name)
      ensures SameAt(d, d', name)
    {
      assert !Owned(c, name);
    }
  }

  lemma MoveAct(ttl: nat, s: Sys, c: Claim, shape: Shape, after: Phase, ok: bool)
    requires ClaimOk(ttl, s, c) && !c.released
    requires (shape == Published && c.phase.Recorded? && after == Given(c.phase.expires)) || (shape == Quarantine && c.phase.Filling? && after == Held)
    ensures var (s', c') := Move(s, c, shape, after, ok); Acted(ttl, s, c, s', c')
  {
    hide NameOf, Owner, Owned, Contiguous, Touches, Housed, Rename, CanRename;
    RefillAct(ttl, s, c);
    RenameDisk(s.disk, c, shape, c.(phase := after));
    RenameKeepsNodes(s.disk, NameFor(c, Staging), NameFor(c, shape));
  }

  lemma RenameKeepsNodes(d: Disk, a: Name, b: Name)
    requires a in d.dir
    ensures Rename(d, a, b).inodes == d.inodes
  {
  }

  lemma DiscardAct(ttl: nat, s: Sys, c: Claim)
    requires ClaimOk(ttl, s, c) && !c.released && c.phase.Filling?
    ensures Acted(ttl, s, c, s, c.(phase := Discarding(Looking(NameFor(c, Staging)))))
  {
    hide NameOf, Owner;
  }

  lemma RemoveOwnAct(ttl: nat, s: Sys, c: Claim, inner: Inner)
    requires ClaimOk(ttl, s, c) && !c.released && c.phase.Discarding?
    ensures var (disk, r') := RemoveStep(s.disk, s.clock, c.phase.removal, inner);
      Acted(ttl, s, c, s.(disk := disk), c.(phase := Discarding(r')))
  {
    hide NameOf, Owner, Contiguous;
    var (disk, r') := RemoveStep(s.disk, s.clock, c.phase.removal, inner);
    OwnRemovalStep(s.disk, s.clock, c, inner);
  }

  lemma OwnRemovalStep(d: Disk, clock: nat, c: Claim, inner: Inner)
    requires c.phase.Discarding? && OwnRemoval(c, c.phase.removal) && Housed(d, c)
    requires c.inode.Some? ==> c.token.Some? && c.inode.value < |d.inodes| && Node(d, c.inode.value).isDir
    ensures var (d', r') := RemoveStep(d, clock, c.phase.removal, inner);
      && OwnRemoval(c, r') && Touches(d, d', c) && Housed(d', c)
      && (c.inode.Some? ==> Node(d', c.inode.value).isDir && (Node(d', c.inode.value).mtime == clock || Node(d', c.inode.value).mtime == Node(d, c.inode.value).mtime))
  {
    hide NameOf, Owner;
  }

  lemma ActKeeps(ttl: nat, s: Sys, c: Claim, a: Act)
    requires ClaimOk(ttl, s, c) && DiskOk(s.disk, s.used) && (!c.released ==> s.reserved >= MAX_CLAIM_TOTAL_BYTES)
    ensures var (s', c') := ActStep(ttl, s, c, a); Acted(ttl, s, c, s', c')
  {
    hide DiskOk, RemoveStep, ReleaseClaim, DrawName, Make, Open, StoreFile, StoreRecord, Move, ClaimOk, Acted, Contiguous, NameOf;
    Bookkeeping(ttl, s, c);
    NoAct(ttl, s, c);
    if !c.released {
      match a
      case GiveUp => if c.phase.Drawing? { ReleaseAct(ttl, s, c); }
      case Draw(t) => if c.phase.Drawing? { DrawAct(ttl, s, c, t); }
      case MakeDir(ok) => if c.phase.Named? { MakeAct(ttl, s, c, ok); }
      case OpenDir(ok) => if c.phase.Made? { OpenAct(ttl, s, c, ok); }
      case OpenFile(i) => if c.phase.Filling? { StoreFileAct(ttl, s, c, i); }
      case FinishFile(i) => if c.phase.Filling? && i in c.open { FinishAct(ttl, s, c, i); }
      case Publish => if c.phase.Filling? && !(c.done == {} || c.open != {} || !Contiguous(c.done)) { PublishAct(ttl, s, c); }
      case WriteRecord(ok, partly) => if c.phase.Stamped? { StoreRecordAct(ttl, s, c, ok, partly); }
      case RenamePublished(ok) => if c.phase.Recorded? { MoveAct(ttl, s, c, Published, Given(c.phase.expires), ok); }
      case Hold(ok) => if c.phase.Filling? { MoveAct(ttl, s, c, Quarantine, Held, ok); }
      case Discard => if c.phase.Filling? { DiscardAct(ttl, s, c); }
      case RemoveOwn(inner) => if c.phase.Discarding? { RemoveOwnAct(ttl, s, c, inner); }
      case RemoveOwnFails => if c.phase.Discarding? { FailAct(ttl, s, c); }
      case Release => if c.phase.Given? || c.phase.Held? || c.phase == Discarding(Finished) { ReleaseAct(ttl, s, c); }
    }
  }

  lemma FailAct(ttl: nat, s: Sys, c: Claim)
    requires ClaimOk(ttl, s, c) && !c.released && c.phase.Discarding?
    ensures Acted(ttl, s, c, s, c.(phase := Discarding(Finished)))
  {
    hide NameOf, Owner;
  }

  // ---------------------------------------------------------------- what an act means for the others

  predicate Unlike(c: Claim, o: Claim) {
    (c.token.None? || c.token != o.token) && (c.inode.None? || c.inode != o.inode)
  }

  lemma StillUnlike(ttl: nat, s: Sys, c: Claim, c': Claim, o: Claim)
    requires Evolves(s.used, |s.disk.inodes|, c, c') && Unlike(c, o) && ClaimOk(ttl, s, o)
    ensures Unlike(c', o) && Unlike(o, c')
  {
    hide NameOf, Owner, Housed;
  }

  lemma OthersKeep(ttl: nat, s: Sys, c: Claim, s': Sys, c': Claim, o: Claim)
    requires Acted(ttl, s, c, s', c') && ClaimOk(ttl, s, o) && Unlike(c, o) && Unlike(c', o)
    ensures ClaimOk(ttl, s', o)
  {
    hide NameOf, Owner, Evolves, Live, HasDir, Contiguous;
    assert o.token.Some? ==> !Owned(c', NameFor(o, Staging)) && !Owned(c, NameFor(o, Staging)) && !Owned(c', NameFor(o, Published)) && !Owned(c', NameFor(o, Quarantine));
    forall name | name in s'.disk.dir
      ensures Owned(o, name) ==> Home(o) == Some(Owner(name).value.shape) && o.inode == Some(s'.disk.dir[name])
      ensures o.inode == Some(s'.disk.dir[name]) ==> Owned(o, name)
    {
      assert !Owned(c', name) ==> SameAt(s.disk, s'.disk, name);
    }
  }

  lemma DiskKeeps(ttl: nat, s: Sys, c: Claim, s': Sys, c': Claim)
    requires Acted(ttl, s, c, s', c') && DiskOk(s.disk, s.used)
    ensures DiskOk(s'.disk, s'.used) && |s.disk.inodes| <= |s'.disk.inodes|
  {
    hide NameOf, Evolves;
    forall name | name in s'.disk.dir
      ensures s'.disk.dir[name] < |s'.disk.inodes| && Known(s'.used, name)
    {
      assert !Owned(c', name) ==> SameAt(s.disk, s'.disk, name);
      assert name in s.disk.dir ==> Known(s.used, name);
    }
    forall a, b | a in s'.disk.dir && b in s'.disk.dir && a != b && Node(s'.disk, s'.disk.dir[a]).isDir
      ensures s'.disk.dir[a] != s'.disk.dir[b]
    {
      assert !Owned(c', a) ==> SameAt(s.disk, s'.disk, a);
      assert !Owned(c', b) ==> SameAt(s.disk, s'.disk, b);
    }
  }

  lemma PendingKeeps(ttl: nat, used: set<Token>, count: nat, sw: Sweep, c: Claim, c': Claim)
    requires Pending(ttl, sw, c) && SweepOk(used, count, sw) && Evolves(used, count, c, c')
    requires (c.phase.Drawing? <==> c.token.None?) && (c.inode.Some? ==> c.token.Some?)
    ensures Pending(ttl, sw, c')
  {
    hide NameOf, Owner, Classify;
  }

  lemma UnlistedKeeps(used: set<Token>, count: nat, sw: Sweep, c: Claim, c': Claim)
    requires Unlisted(sw, c) && SweepOk(used, count, sw) && Evolves(used, count, c, c')
    ensures Unlisted(sw, c')
  {
    hide NameOf, Owner, Classify;
    if c.token.None? && c'.token.Some? {
      assert NameFor(c', Published) in sw.listed ==> Known(used, NameFor(c', Published));
      assert NameFor(c', Quarantine) in sw.listed ==> Known(used, NameFor(c', Quarantine));
    }
  }

  lemma {:induction false} HoldersUpdate(claims: seq<Claim>, i: nat, c: Claim)
    requires i < |claims|
    ensures Holders(claims[i := c]) == Holders(claims) + (if c.released then 0 else 1) - (if claims[i].released then 0 else 1)
    ensures !claims[i].released ==> Holders(claims) > 0
    decreases |claims|
  {
    var n := |claims| - 1;
    if i == n {
      assert claims[i := c][..n] == claims[..n];
    } else {
      assert claims[i := c][..n] == claims[..n][i := c];
      HoldersUpdate(claims[..n], i, c);
    }
  }

  lemma DoKeeps(ttl: nat, s: Sys, i: nat, a: Act)
    requires Inv(ttl, s) && i < |s.claims|
    ensures Inv(ttl, Step(ttl, s, Do(i, a)))
  {
    hide ActStep, ClaimOk, DiskOk, Pending, SweepOk, Evolves, Touches, Holders, Unlisted;
    var c := s.claims[i];
    HoldersUpdate(s.claims, i, ActStep(ttl, s, c, a).1);
    ActKeeps(ttl, s, c, a);
    var (s', c') := ActStep(ttl, s, c, a);
    DiskKeeps(ttl, s, c, s', c');
    forall j | 0 <= j < |s.claims| && j != i
      ensures Unlike(c', s.claims[j]) && Unlike(s.claims[j], c') && ClaimOk(ttl, s', s.claims[j])
    {
      StillUnlike(ttl, s, c, c', s.claims[j]);
      OthersKeep(ttl, s, c, s', c', s.claims[j]);
    }
    forall k | 0 <= k < |s.sweeps|
      ensures SweepOk(s'.used, |s'.disk.inodes|, s.sweeps[k]) && Pending(ttl, s.sweeps[k], c') && Unlisted(s.sweeps[k], c')
    {
      UnlistedKeeps(s.used, |s.disk.inodes|, s.sweeps[k], c, c');
      Bookkeeping(ttl, s, c);
      PendingKeeps(ttl, s.used, |s.disk.inodes|, s.sweeps[k], c, c');
      SweepGrows(s.used, |s.disk.inodes|, s'.used, |s'.disk.inodes|, s.sweeps[k]);
    }
    var t := s'.(claims := s'.claims[i := c']);
    SameParts(ttl, s', t);
  }

  lemma Bookkeeping(ttl: nat, s: Sys, c: Claim)
    requires ClaimOk(ttl, s, c)
    ensures (c.phase.Drawing? <==> c.token.None?) && (c.inode.Some? ==> c.token.Some?)
    ensures HasDir(c) ==> c.inode.Some?
  {
  }

  lemma SweepGrows(used: set<Token>, count: nat, used': set<Token>, count': nat, sw: Sweep)
    requires SweepOk(used, count, sw) && used <= used' && count <= count'
    ensures SweepOk(used', count', sw)
  {
    hide Owner, Classify;
  }

  /** A claim's own facts do not depend on the list of claims. */
  lemma SameParts(ttl: nat, s: Sys, t: Sys)
    requires t == s.(claims := t.claims, reserved := t.reserved)
    ensures forall c :: ClaimOk(ttl, s, c) == ClaimOk(ttl, t, c)
  {
  }

  // ---------------------------------------------------------------- a sweep's look

  /** A name that belongs to nobody alive, or names the due directory itself, is all a sweep goes on with. */
  lemma JudgeIsSafe(ttl: nat, s: Sys, sw: Sweep, c: Claim)
    requires sw.phase.Seen? && ClaimOk(ttl, s, c) && SweepOk(s.used, |s.disk.inodes|, sw) && Pending(ttl, sw, c)
    requires Expired(s.active, sw.now, sw.purge, ttl, sw.phase.name, sw.phase.shape, sw.phase.mtime)
    ensures MayTake(ttl, sw.now, sw.purge, sw.listed, c, sw.phase.name)
  {
    hide NameOf, Owner, Classify, Stored, Housed, Contiguous, OwnRemoval;
    var name := sw.phase.name;
    if Owned(c, name) {
      RemovableNames(name);
      assert name == NameFor(c, sw.phase.shape);
    }
  }

  lemma ReadIsSafe(ttl: nat, s: Sys, sw: Sweep, c: Claim, readable: bool)
    requires sw.phase.Reading? && ClaimOk(ttl, s, c) && SweepOk(s.used, |s.disk.inodes|, sw) && Pending(ttl, sw, c)
    requires PublishedExpiry(ttl, sw.phase.mtime, if readable then Node(s.disk, sw.phase.child).sidecar else Unreadable) <= sw.now
    ensures MayTake(ttl, sw.now, sw.purge, sw.listed, c, sw.phase.name)
  {
    hide NameOf, Owner, Classify, Housed, Contiguous, OwnRemoval, Node;
    var name := sw.phase.name;
    if Owned(c, name) {
      RemovableNames(name);
      assert c.phase.Given? ==> c.phase.expires * TICKS <= sw.phase.mtime + ttl * TICKS;
    }
  }

  lemma LookUpIsLate(ttl: nat, s: Sys, sw: Sweep, c: Claim, name: Name)
    requires ClaimOk(ttl, s, c) && name in s.disk.dir
    ensures SawLate(c, name, Node(s.disk, s.disk.dir[name]).mtime) && (Owned(c, name) ==> c.inode == Some(s.disk.dir[name]))
  {
    hide NameOf, Owner, Shaped, Contiguous;
  }

  lemma RemovalIsSafe(ttl: nat, s: Sys, sw: Sweep, c: Claim, inner: Inner)
    requires sw.phase.Removing? && ClaimOk(ttl, s, c) && Pending(ttl, sw, c)
    ensures var r' := RemoveStep(s.disk, s.clock, sw.phase.removal, inner).1;
      Pending(ttl, sw.(phase := Removing(r')), c)
  {
    hide NameOf, Owner, Shaped, Stored, Contiguous, Due;
  }

  lemma LookPending(ttl: nat, s: Sys, sw: Sweep, look: Look, c: Claim)
    requires ClaimOk(ttl, s, c) && SweepOk(s.used, |s.disk.inodes|, sw) && Pending(ttl, sw, c)
    ensures Pending(ttl, LookStep(ttl, s, sw, look).1, c)
  {
    hide NameOf, Owner, Classify, ClaimOk, SweepOk, Expired, PublishedExpiry, MayTake, SawLate, RemoveStep, Due, Owned;
    match sw.phase
    case Idle =>
      if look.LookUp? && sw.todo != [] && sw.todo[0] in s.disk.dir {
        LookUpIsLate(ttl, s, sw, c, sw.todo[0]);
      }
    case Seen(name, shape, mtime) =>
      if Expired(s.active, sw.now, sw.purge, ttl, name, shape, mtime) {
        JudgeIsSafe(ttl, s, sw, c);
      }
      if name in s.disk.dir {
        LookUpIsLate(ttl, s, sw, c, name);
      }
    case Reading(name, mtime, child) =>
      if look.ReadRecord? && PublishedExpiry(ttl, mtime, if look.readable then Node(s.disk, child).sidecar else Unreadable) <= sw.now {
        ReadIsSafe(ttl, s, sw, c, look.readable);
      }
    case Removing(r) =>
      if look.Remove? {
        RemovalIsSafe(ttl, s, sw, c, look.inner);
      }
  }

  lemma RemovalShape(d: Disk, clock: nat, used: set<Token>, r: Removal, inner: Inner)
    requires DiskOk(d, used)
    ensures var (d', r') := RemoveStep(d, clock, r, inner);
      && DiskOk(d', used) && |d'.inodes| == |d.inodes|
      && (r'.Finished? || (!r.Finished? && r'.name == r.name))
      && (r'.Emptying? ==> r' == r || r'.inode < |d.inodes|)
  {
    hide Known;
  }

  lemma NextOk(used: set<Token>, count: nat, sw: Sweep)
    requires SweepOk(used, count, sw)
    ensures SweepOk(used, count, Next(sw))
  {
    hide Owner, Classify, Known;
  }

  predicate PhaseOk(used: set<Token>, count: nat, listed: seq<Name>, p: SweepPhase) {
    && (p.Reading? ==> p.child < count)
    && (p.Removing? && p.removal.Emptying? ==> p.removal.inode < count)
    && (PhaseName(p).Some? ==> Known(used, PhaseName(p).value) && Classify(PhaseName(p).value, true).Removable? && PhaseName(p).value in listed)
    && (p.Seen? ==> Classify(p.name, true) == Removable(p.shape))
    && (p.Reading? ==> Classify(p.name, true) == Removable(Published))
  }

  lemma WithPhase(used: set<Token>, count: nat, sw: Sweep, p: SweepPhase)
    requires SweepOk(used, count, sw) && PhaseOk(used, count, sw.listed, p)
    ensures SweepOk(used, count, sw.(phase := p))
  {
    hide Owner, Classify, Known;
  }

  lemma PhaseOf(used: set<Token>, count: nat, sw: Sweep)
    requires SweepOk(used, count, sw)
    ensures PhaseOk(used, count, sw.listed, sw.phase)
    ensures sw.todo != [] ==> Known(used, sw.todo[0]) && sw.todo[0] in sw.listed
  {
    hide Owner, Classify, Known;
  }

  lemma LookPhase(ttl: nat, s: Sys, sw: Sweep, look: Look)
    requires DiskOk(s.disk, s.used) && SweepOk(s.used, |s.disk.inodes|, sw)
    ensures SweepOk(s.used, |s.disk.inodes|, LookStep(ttl, s, sw, look).1)
  {
    hide NameOf, Owner, Classify, Expired, PublishedExpiry, RemoveStep, Known, Node, DiskOk, SweepOk;
    DirsAreKnown(s.disk, s.used);
    PhaseOf(s.used, |s.disk.inodes|, sw);
    NextOk(s.used, |s.disk.inodes|, sw);
    var sw' := LookStep(ttl, s, sw, look).1;
    if sw.phase.Removing? && look.Remove? {
      RemovalShape(s.disk, s.clock, s.used, sw.phase.removal, look.inner);
    }
    if sw.phase.Idle? && sw.todo != [] && sw.todo[0] in s.disk.dir {
      RemovableNames(sw.todo[0]);
    }
    if PhaseOk(s.used, |s.disk.inodes|, sw.listed, sw'.phase) {
      WithPhase(s.used, |s.disk.inodes|, sw, sw'.phase);
    }
  }

  lemma LookShape(ttl: nat, s: Sys, sw: Sweep, look: Look)
    requires DiskOk(s.disk, s.used) && SweepOk(s.used, |s.disk.inodes|, sw)
    ensures var (disk, sw') := LookStep(ttl, s, sw, look);
      && SweepOk(s.used, |disk.inodes|, sw') && DiskOk(disk, s.used) && sw'.now == sw.now && sw'.purge == sw.purge && sw'.listed == sw.listed && |disk.inodes| == |s.disk.inodes|
      && (disk == s.disk || (sw.phase.Removing? && look.Remove? && disk == RemoveStep(s.disk, s.clock, sw.phase.removal, look.inner).0))
  {
    hide NameOf, Owner, Classify, Expired, PublishedExpiry, RemoveStep, Known, Node, DiskOk, SweepOk;
    LookPhase(ttl, s, sw, look);
    if sw.phase.Removing? && look.Remove? {
      RemovalShape(s.disk, s.clock, s.used, sw.phase.removal, look.inner);
    }
  }

  lemma DirsAreKnown(d: Disk, used: set<Token>)
    requires DiskOk(d, used)
    ensures forall name :: name in d.dir ==> d.dir[name] < |d.inodes| && Known(used, name)
  {
  }

  /** Removing only takes names away. */
  lemma LookKeepsHoused(d: Disk, clock: nat, r: Removal, inner: Inner, c: Claim)
    requires Housed(d, c)
    ensures Housed(RemoveStep(d, clock, r, inner).0, c)
  {
    hide Owner, Node;
  }

  lemma LookKeepsStored(ttl: nat, s: Sys, sw: Sweep, inner: Inner, c: Claim)
    requires sw.phase.Removing? && Stored(ttl, s.clock, s.disk, s.sweeps, c) && Pending(ttl, sw, c)
    requires Threatens(ttl, sw, c) ==> !Spared(ttl, s.sweeps, c)
    ensures Stored(ttl, s.clock, RemoveStep(s.disk, s.clock, sw.phase.removal, inner).0, s.sweeps, c)
  {
    hide NameOf, Owner, Contiguous, Due, Spared;
  }

  /** What a sweep removes leaves every claim with what it should have. */
  lemma LookKeepsClaim(ttl: nat, s: Sys, sw: Sweep, inner: Inner, c: Claim)
    requires sw.phase.Removing? && ClaimOk(ttl, s, c) && Pending(ttl, sw, c)
    requires Threatens(ttl, sw, c) ==> !Spared(ttl, s.sweeps, c)
    ensures ClaimOk(ttl, s.(disk := RemoveStep(s.disk, s.clock, sw.phase.removal, inner).0), c)
  {
    hide Shaped, Stored, Housed, RemoveStep, Pending, Spared, Threatens;
    LookKeepsHoused(s.disk, s.clock, sw.phase.removal, inner, c);
    LookKeepsStored(ttl, s, sw, inner, c);
  }

  lemma WalkKeeps(ttl: nat, s: Sys, k: nat, look: Look)
    requires Inv(ttl, s) && k < |s.sweeps|
    ensures Inv(ttl, Step(ttl, s, Walk(k, look)))
  {
    hide LookStep, RemoveStep, ClaimOk, DiskOk, SweepOk, Pending, Holders, Due;
    var sw := s.sweeps[k];
    var (disk, sw') := LookStep(ttl, s, sw, look);
    var t := s.(disk := disk, sweeps := s.sweeps[k := sw']);
    LookShape(ttl, s, sw, look);
    forall i | 0 <= i < |s.claims|
      ensures ClaimOk(ttl, t, s.claims[i]) && Pending(ttl, sw', s.claims[i])
    {
      LookPending(ttl, s, sw, look, s.claims[i]);
      DueIsSeen(ttl, s.sweeps, k, s.claims[i]);
      if disk != s.disk {
        LookKeepsClaim(ttl, s, sw, look.inner, s.claims[i]);
      }
      SparedStays(ttl, s.(disk := disk), k, sw', s.claims[i]);
    }
  }

  lemma DueIsSeen(ttl: nat, sweeps: seq<Sweep>, k: nat, c: Claim)
    requires k < |sweeps|
    ensures Threatens(ttl, sweeps[k], c) ==> !Spared(ttl, sweeps, c)
  {
  }

  lemma SparedStays(ttl: nat, s: Sys, k: nat, sw: Sweep, c: Claim)
    requires k < |s.sweeps| && sw.now == s.sweeps[k].now && sw.purge == s.sweeps[k].purge && sw.listed == s.sweeps[k].listed && ClaimOk(ttl, s, c)
    ensures ClaimOk(ttl, s.(sweeps := s.sweeps[k := sw]), c)
  {
    hide NameOf, Owner, Housed, Shaped, Contiguous;
    if Spared(ttl, s.sweeps[k := sw], c) {
      forall j | 0 <= j < |s.sweeps|
        ensures !Threatens(ttl, s.sweeps[j], c)
      {
        assert !Threatens(ttl, s.sweeps[k := sw][j], c);
      }
    }
  }

  // ---------------------------------------------------------------- every step of every run

  lemma TickKeeps(ttl: nat, s: Sys, ticks: nat)
    requires Inv(ttl, s)
    ensures Inv(ttl, Step(ttl, s, Tick(ticks)))
  {
    hide DiskOk, SweepOk, Pending, Holders, ClaimOk;
    forall i | 0 <= i < |s.claims|
      ensures ClaimOk(ttl, s.(clock := s.clock + ticks), s.claims[i])
    {
      LaterIsFine(ttl, s, ticks, s.claims[i]);
    }
  }

  lemma LaterIsFine(ttl: nat, s: Sys, ticks: nat, c: Claim)
    requires ClaimOk(ttl, s, c)
    ensures ClaimOk(ttl, s.(clock := s.clock + ticks), c)
  {
    hide NameOf, Owner, Housed, Contiguous, Spared;
  }

  lemma ReserveKeeps(ttl: nat, s: Sys)
    requires Inv(ttl, s)
    ensures Inv(ttl, Step(ttl, s, Reserve))
  {
    hide DiskOk, SweepOk, ClaimOk, Pending;
    var c := Claim(Drawing, None, None, {}, {}, 0, false);
    var t := s.(claims := s.claims + [c], reserved := s.reserved + MAX_CLAIM_TOTAL_BYTES);
    assert t.claims[..|s.claims|] == s.claims;
    SameParts(ttl, s, t);
    NewClaim(ttl, s, c);
    forall k | 0 <= k < |s.sweeps|
      ensures Pending(ttl, s.sweeps[k], c)
    {
      NobodysPending(ttl, s.sweeps[k], c);
    }
  }

  lemma NewClaim(ttl: nat, s: Sys, c: Claim)
    requires c == Claim(Drawing, None, None, {}, {}, 0, false)
    ensures ClaimOk(ttl, s, c)
  {
  }

  lemma NobodysPending(ttl: nat, sw: Sweep, c: Claim)
    requires c.token.None? && c.inode.None?
    ensures Pending(ttl, sw, c)
  {
    hide Owner;
  }

  lemma SweepStartKeeps(ttl: nat, s: Sys, purge: bool, names: seq<Name>)
    requires Inv(ttl, s)
    ensures Inv(ttl, Step(ttl, s, StartSweep(purge, names)))
  {
    hide ClaimOk, Pending, Classify, Owner, Holders, Unlisted;
    var sw := Sweep(s.clock, purge, names, names, Idle);
    var t := s.(sweeps := s.sweeps + [sw]);
    forall i | 0 <= i < |s.claims|
      ensures ClaimOk(ttl, t, s.claims[i]) && Pending(ttl, sw, s.claims[i]) && (InRoot(s.disk, names) ==> Unlisted(sw, s.claims[i]))
    {
      FewerSpared(ttl, s, sw, s.claims[i]);
      ListedIsHome(ttl, s, sw, s.claims[i]);
    }
  }

  predicate InRoot(d: Disk, names: seq<Name>) {
    forall i :: 0 <= i < |names| ==> names[i] in d.dir
  }

  /** A listing finds a published name only once the claim is published. */
  lemma ListedIsHome(ttl: nat, s: Sys, sw: Sweep, c: Claim)
    requires ClaimOk(ttl, s, c)
    ensures InRoot(s.disk, sw.listed) ==> Unlisted(sw, c)
  {
    hide NameOf, Owner, Stored, Contiguous;
    if c.token.Some? {
      assert NameFor(c, Published) in s.disk.dir ==> Owned(c, NameFor(c, Published));
      assert NameFor(c, Quarantine) in s.disk.dir ==> Owned(c, NameFor(c, Quarantine));
    }
  }

  lemma FewerSpared(ttl: nat, s: Sys, sw: Sweep, c: Claim)
    requires ClaimOk(ttl, s, c) && sw.phase.Idle?
    ensures ClaimOk(ttl, s.(sweeps := s.sweeps + [sw]), c) && Pending(ttl, sw, c)
  {
    hide NameOf, Owner, Housed, Shaped, Contiguous;
    if Spared(ttl, s.sweeps + [sw], c) {
      forall j | 0 <= j < |s.sweeps|
        ensures !Threatens(ttl, s.sweeps[j], c)
      {
        assert !Threatens(ttl, (s.sweeps + [sw])[j], c);
      }
    }
  }

  lemma SpoolStepKeeps(ttl: nat, s: Sys, e: Event)
    requires Inv(ttl, s)
    ensures Inv(ttl, Step(ttl, s, e))
  {
    hide Inv;
    match e
    case Tick(ticks) => TickKeeps(ttl, s, ticks);
    case Reserve => ReserveKeeps(ttl, s);
    case Do(i, act) => if i < |s.claims| { DoKeeps(ttl, s, i, act); }
    case StartSweep(purge, names) => SweepStartKeeps(ttl, s, purge, names);
    case Walk(k, look) => if k < |s.sweeps| { WalkKeeps(ttl, s, k, look); }
  }

  lemma {:induction false} RunKeeps(ttl: nat, s: Sys, es: seq<Event>)
    requires Initial(s)
    ensures Inv(ttl, Run(ttl, s, es))
  {
    hide Step;
    if es != [] {
      RunKeeps(ttl, s, es[..|es| - 1]);
      SpoolStepKeeps(ttl, Run(ttl, s, es[..|es| - 1]), es[|es| - 1]);
    }
  }
}
