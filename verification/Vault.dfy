/**
 * drop/vault.py: secrets held in memory for the session that claimed them, bounded
 * per session and in all, and put back into a request in place of their placeholders.
 */
module Vault {
  import opened Basics

  const TTL: nat := 900
  const MAX_ENTRIES_PER_SESSION: nat := 4
  const MAX_ENTRIES: nat := 32
  const MAX_WALK_DEPTH: nat := 24

  type Token = string

  datatype Item = Item(token: Token, session: string, plaintext: string, expiry: int)

  // ---------------------------------------------------------------- as functions

  /** The table in the order its keys were added. */
  type Table = seq<Item>

  function Tokens(items: Table): set<Token> {
    set i | 0 <= i < |items| :: items[i].token
  }

  predicate Unique(items: Table) {
    forall i, j :: 0 <= i < j < |items| ==> items[i].token != items[j].token
  }

  function Purged(items: Table, now: int): Table {
    if items == [] then []
    else Purged(items[..|items| - 1], now) + if items[|items| - 1].expiry <= now then [] else [items[|items| - 1]]
  }

  predicate Of(item: Item, session: Option<string>) {
    session.None? || item.session == session.value
  }

  /** How many entries a session has, or how many there are. */
  function Count(items: Table, session: Option<string>): nat {
    if items == [] then 0 else Count(items[..|items| - 1], session) + if Of(items[|items| - 1], session) then 1 else 0
  }

  /** The first of the entries that lapse soonest. */
  predicate IsOldest(items: Table, session: Option<string>, i: nat) {
    && i < |items| && Of(items[i], session)
    && (forall j :: 0 <= j < |items| && Of(items[j], session) ==> items[i].expiry <= items[j].expiry)
    && (forall j :: 0 <= j < i && Of(items[j], session) ==> items[i].expiry < items[j].expiry)
  }

  function Dropped(items: Table, i: nat): Table
    requires i < |items|
  {
    items[..i] + items[i + 1..]
  }

  function Oldest(items: Table, session: Option<string>): (i: nat)
    requires Count(items, session) > 0
    ensures IsOldest(items, session, i)
  {
    var front, last := items[..|items| - 1], |items| - 1;
    if Count(front, session) == 0 then
      NoneCounted(front, session);
      last
    else
      var i := Oldest(front, session);
      if Of(items[last], session) && items[last].expiry < items[i].expiry then last else i
  }

  lemma {:induction false} NoneCounted(items: Table, session: Option<string>)
    ensures Count(items, session) == 0 <==> forall j :: 0 <= j < |items| ==> !Of(items[j], session)
  {
    if items != [] {
      NoneCounted(items[..|items| - 1], session);
    }
  }

  lemma {:induction false} CountDropped(items: Table, session: Option<string>, i: nat)
    requires i < |items|
    ensures Count(Dropped(items, i), session) == Count(items, session) - if Of(items[i], session) then 1 else 0
  {
    hide Of;
    var n := |items| - 1;
    if i == n {
      assert Dropped(items, i) == items[..n];
    } else {
      CountDropped(items[..n], session, i);
      CountMore(Dropped(items[..n], i), items[n], session);
      assert Dropped(items, i) == Dropped(items[..n], i) + [items[n]];
    }
  }

  /** Entries of one kind are dropped, oldest first, until there is room below the ceiling. */
  function Trimmed(items: Table, session: Option<string>, ceiling: nat): Table
    requires ceiling > 0
    decreases |items|
  {
    if Count(items, session) < ceiling then items else Trimmed(Dropped(items, Oldest(items, session)), session, ceiling)
  }

  /** `stash`, once it has a token: lapsed entries go, then the session's own oldest, then anyone's. */
  function Stashed(items: Table, now: int, item: Item): Table {
    Trimmed(Trimmed(Purged(items, now), Some(item.session), MAX_ENTRIES_PER_SESSION), None, MAX_ENTRIES) + [item]
  }

  function Removed(items: Table, token: Token): Table {
    if items == [] then []
    else Removed(items[..|items| - 1], token) + if items[|items| - 1].token == token then [] else [items[|items| - 1]]
  }

  /** What `resolve` finds once lapsed entries are gone. */
  function Found(items: Table, token: Token, session: string): Option<string> {
    if session == "" || items == [] then None
    else
      var last := items[|items| - 1];
      if last.token == token then (if last.session == session then Some(last.plaintext) else None)
      else Found(items[..|items| - 1], token, session)
  }

  // ---------------------------------------------------------------- the object

  class Store {
    var entries: Table
    var timers: set<Token>

    ghost predicate Valid()
      reads this
    {
      Unique(entries) && timers == Tokens(entries)
    }

    constructor ()
      ensures Valid() && entries == []
    {
      entries, timers := [], {};
    }

    method Drop(i: nat)
      requires Valid() && i < |entries|
      modifies this
      ensures Valid() && entries == Dropped(old(entries), i)
    {
      DroppedKeeps(entries, i);
      timers := timers - {entries[i].token};
      entries := entries[..i] + entries[i + 1..];
    }

    method Purge(now: int)
      requires Valid()
      modifies this
      ensures Valid() && entries == Purged(old(entries), now)
    {
      var before := entries;
      var kept: Table := [];
      var i := 0;
      while i < |before|
        invariant i <= |before| && kept == Purged(before[..i], now)
      {
        assert before[..i + 1][..i] == before[..i];
        if before[i].expiry > now {
          kept := kept + [before[i]];
        }
        i := i + 1;
      }
      assert before[..i] == before;
      PurgedIs(before, now);
      entries := kept;
      timers := set i | 0 <= i < |kept| :: kept[i].token;
    }

    /** `min(…, key=expiry)`: the first of the smallest. */
    method FindOldest(session: Option<string>) returns (best: nat)
      requires Count(entries, session) > 0
      ensures best == Oldest(entries, session)
    {
      NoneCounted(entries, session);
      var found: Option<nat> := None;
      var i := 0;
      while i < |entries|
        invariant i <= |entries|
        invariant found.None? ==> forall j :: 0 <= j < i ==> !Of(entries[j], session)
        invariant found.Some? ==> found.value < i && Of(entries[found.value], session)
        invariant found.Some? ==> forall j :: 0 <= j < i && Of(entries[j], session) ==> entries[found.value].expiry <= entries[j].expiry
        invariant found.Some? ==> forall j :: 0 <= j < found.value && Of(entries[j], session) ==> entries[found.value].expiry < entries[j].expiry
      {
        if Of(entries[i], session) && (found.None? || entries[i].expiry < entries[found.value].expiry) {
          found := Some(i);
        }
        i := i + 1;
      }
      OneOldest(entries, session, found.value, Oldest(entries, session));
      return found.value;
    }

    method Trim(session: Option<string>, ceiling: nat)
      requires Valid() && ceiling > 0
      modifies this
      ensures Valid() && entries == Trimmed(old(entries), session, ceiling)
    {
      while Count(entries, session) >= ceiling
        invariant Valid() && Trimmed(entries, session, ceiling) == Trimmed(old(entries), session, ceiling)
        decreases |entries|
      {
        var i := FindOldest(session);
        Drop(i);
      }
    }

    /** `stash`: an empty secret or an unnamed session is refused, and nothing changes. */
    method Stash(token: Token, session: string, plaintext: string, now: int) returns (ok: bool)
      requires Valid() && token !in Tokens(entries)
      modifies this
      ensures Valid() && ok == (plaintext != "" && session != "")
      ensures entries == if ok then Stashed(old(entries), now, Item(token, session, plaintext, now + TTL)) else old(entries)
    {
      hide Stashed, Trimmed, Purged, Unique, Tokens;
      if plaintext == "" || session == "" {
        return false;
      }
      StashedKeeps(entries, now, Item(token, session, plaintext, now + TTL));
      Purge(now);
      Trim(Some(session), MAX_ENTRIES_PER_SESSION);
      Trim(None, MAX_ENTRIES);
      TokensMore(entries, Item(token, session, plaintext, now + TTL));
      entries := entries + [Item(token, session, plaintext, now + TTL)];
      timers := timers + {token};
      return true;
    }

    method Resolve(token: Token, session: string, now: int) returns (r: Option<string>)
      requires Valid()
      modifies this
      ensures Valid()
      ensures r == Found(Purged(old(entries), now), token, session)
      ensures entries == if session == "" then old(entries) else Purged(old(entries), now)
    {
      if session == "" {
        return None;
      }
      Purge(now);
      var i: nat := |entries|;
      assert entries[..i] == entries;
      while i > 0
        invariant i <= |entries| && Found(entries, token, session) == Found(entries[..i], token, session)
      {
        i := i - 1;
        assert entries[..i + 1][..i] == entries[..i];
        if entries[i].token == token {
          return if entries[i].session == session then Some(entries[i].plaintext) else None;
        }
      }
      return None;
    }

    /** A timer fires, whether or not its entry is still there. */
    method Expire(token: Token)
      requires Valid()
      modifies this
      ensures Valid() && entries == Removed(old(entries), token)
    {
      RemovedIs(entries, token);
      var i := 0;
      while i < |entries|
        invariant i <= |entries| && entries == old(entries) && timers == old(timers)
        invariant forall j :: 0 <= j < i ==> entries[j].token != token
      {
        if entries[i].token == token {
          RemovedAt(entries, token, i);
          Drop(i);
          return;
        }
        i := i + 1;
      }
      RemovedNothing(entries, token);
    }

    method Clear()
      modifies this
      ensures Valid() && entries == []
    {
      entries, timers := [], {};
    }
  }

  lemma DroppedKeeps(items: Table, i: nat)
    requires Unique(items) && i < |items|
    ensures Unique(Dropped(items, i)) && Tokens(Dropped(items, i)) == Tokens(items) - {items[i].token}
  {
    var rest := Dropped(items, i);
    forall t | t in Tokens(items) && t != items[i].token
      ensures t in Tokens(rest)
    {
      var j :| 0 <= j < |items| && items[j].token == t;
      assert rest[if j < i then j else j - 1] == items[j];
    }
  }

  lemma {:induction false} PurgedMembers(items: Table, now: int)
    ensures forall x :: x in Purged(items, now) <==> x in items && x.expiry > now
    ensures |Purged(items, now)| <= |items|
  {
    if items != [] {
      PurgedMembers(items[..|items| - 1], now);
      assert items == items[..|items| - 1] + [items[|items| - 1]];
    }
  }

  lemma {:induction false} PurgedUnique(items: Table, now: int)
    requires Unique(items)
    ensures Unique(Purged(items, now))
  {
    if items != [] {
      PurgedUnique(items[..|items| - 1], now);
      PurgedMembers(items[..|items| - 1], now);
    }
  }

  lemma CountMore(items: Table, x: Item, session: Option<string>)
    ensures Count(items + [x], session) == Count(items, session) + if Of(x, session) then 1 else 0
  {
    assert (items + [x])[..|items|] == items;
  }

  lemma {:induction false} PurgedCount(items: Table, now: int, session: Option<string>)
    ensures Count(Purged(items, now), session) <= Count(items, session)
  {
    hide Of;
    if items != [] {
      var front, last := items[..|items| - 1], items[|items| - 1];
      PurgedCount(front, now, session);
      CountMore(Purged(front, now), last, session);
      assert Purged(front, now) + [] == Purged(front, now);
    }
  }

  lemma PurgedIs(items: Table, now: int)
    ensures forall x :: x in Purged(items, now) <==> x in items && x.expiry > now
    ensures Unique(items) ==> Unique(Purged(items, now))
  {
    PurgedMembers(items, now);
    if Unique(items) {
      PurgedUnique(items, now);
    }
  }

  lemma OneOldest(items: Table, session: Option<string>, i: nat, j: nat)
    requires IsOldest(items, session, i) && IsOldest(items, session, j)
    ensures i == j
  {
  }

  lemma {:induction false} TrimmedKeeps(items: Table, session: Option<string>, ceiling: nat)
    requires ceiling > 0
    ensures var r := Trimmed(items, session, ceiling);
      && Count(r, session) < ceiling
      && (forall x :: x in r ==> x in items) && (Unique(items) ==> Unique(r))
      && (forall other :: Count(r, other) <= Count(items, other)) && |r| <= |items|
    decreases |items|
  {
    if Count(items, session) >= ceiling {
      var i := Oldest(items, session);
      var rest := Dropped(items, i);
      TrimmedKeeps(rest, session, ceiling);
      if Unique(items) {
        DroppedKeeps(items, i);
      }
      forall other
        ensures Count(rest, other) <= Count(items, other)
      {
        CountDropped(items, other, i);
      }
    }
  }

  lemma TokensMore(items: Table, x: Item)
    ensures Tokens(items + [x]) == Tokens(items) + {x.token}
    ensures Unique(items) && x.token !in Tokens(items) ==> Unique(items + [x])
  {
    assert forall i :: 0 <= i < |items| ==> (items + [x])[i] == items[i];
    assert (items + [x])[|items|] == x;
  }

  /** The table a stash leaves, before the new entry is put in. */
  function Room(items: Table, now: int, session: string): Table {
    Trimmed(Trimmed(Purged(items, now), Some(session), MAX_ENTRIES_PER_SESSION), None, MAX_ENTRIES)
  }

  lemma StashedKeeps(items: Table, now: int, item: Item)
    requires Unique(items) && item.token !in Tokens(items)
    ensures Stashed(items, now, item) == Room(items, now, item.session) + [item]
    ensures Unique(Stashed(items, now, item)) && item.token !in Tokens(Room(items, now, item.session))
  {
    hide Purged, Trimmed;
    PurgedIs(items, now);
    TrimmedKeeps(Purged(items, now), Some(item.session), MAX_ENTRIES_PER_SESSION);
    TrimmedKeeps(Trimmed(Purged(items, now), Some(item.session), MAX_ENTRIES_PER_SESSION), None, MAX_ENTRIES);
    TokensMore(Room(items, now, item.session), item);
    assert forall x :: x in Room(items, now, item.session) ==> x in items;
  }

  lemma {:induction false} RemovedIs(items: Table, token: Token)
    ensures forall x :: x in Removed(items, token) <==> x in items && x.token != token
  {
    if items != [] {
      RemovedIs(items[..|items| - 1], token);
      assert items == items[..|items| - 1] + [items[|items| - 1]];
    }
  }

  lemma {:induction false} RemovedNothing(items: Table, token: Token)
    requires forall j :: 0 <= j < |items| ==> items[j].token != token
    ensures Removed(items, token) == items
  {
    if items != [] {
      RemovedNothing(items[..|items| - 1], token);
      assert items == items[..|items| - 1] + [items[|items| - 1]];
    }
  }

  lemma {:induction false} RemovedAt(items: Table, token: Token, i: nat)
    requires Unique(items) && i < |items| && items[i].token == token
    ensures Removed(items, token) == Dropped(items, i)
  {
    var n := |items| - 1;
    if i == n {
      RemovedNothing(items[..n], token);
      assert Dropped(items, i) == items[..n];
    } else {
      RemovedAt(items[..n], token, i);
      assert Dropped(items, i) == Dropped(items[..n], i) + [items[n]];
    }
  }

  // ---------------------------------------------------------------- every history

  datatype Event =
    | Stash(token: Token, session: string, plaintext: string, now: int)
    | Look(now: int)
    | Fire(token: Token)
    | Wipe

  function Step(items: Table, e: Event): Table {
    match e
    case Stash(token, session, plaintext, now) =>
      if plaintext == "" || session == "" || token in Tokens(items) then items
      else Stashed(items, now, Item(token, session, plaintext, now + TTL))
    case Look(now) => Purged(items, now)
    case Fire(token) => Removed(items, token)
    case Wipe => []
  }

  function Run(es: seq<Event>): Table {
    if es == [] then [] else Step(Run(es[..|es| - 1]), es[|es| - 1])
  }

  lemma {:induction false} CountAll(items: Table)
    ensures Count(items, None) == |items|
  {
    if items != [] {
      CountAll(items[..|items| - 1]);
    }
  }

  lemma {:induction false} RemovedCount(items: Table, token: Token, session: Option<string>)
    ensures Count(Removed(items, token), session) <= Count(items, session)
  {
    hide Of;
    if items != [] {
      var front, last := items[..|items| - 1], items[|items| - 1];
      RemovedCount(front, token, session);
      CountMore(Removed(front, token), last, session);
      assert Removed(front, token) + [] == Removed(front, token);
    }
  }

  lemma {:induction false} RemovedUnique(items: Table, token: Token)
    requires Unique(items)
    ensures Unique(Removed(items, token))
  {
    if items != [] {
      RemovedUnique(items[..|items| - 1], token);
      RemovedIs(items[..|items| - 1], token);
    }
  }

  /** No session ever holds more than four secrets, and all together never more than thirty-two. */
  lemma {:induction false} HistoryIsBounded(es: seq<Event>, session: string)
    ensures Unique(Run(es)) && |Run(es)| <= MAX_ENTRIES && Count(Run(es), Some(session)) <= MAX_ENTRIES_PER_SESSION
  {
    hide Purged, Trimmed, Removed;
    if es != [] {
      var items := Run(es[..|es| - 1]);
      HistoryIsBounded(es[..|es| - 1], session);
      match es[|es| - 1]
      case Stash(token, owner, plaintext, now) =>
        if plaintext != "" && owner != "" && token !in Tokens(items) {
          StashIsBounded(items, now, Item(token, owner, plaintext, now + TTL), session);
        }
      case Look(now) =>
        PurgedIs(items, now);
        PurgedCount(items, now, Some(session));
        PurgedMembers(items, now);
      case Fire(token) =>
        RemovedUnique(items, token);
        RemovedCount(items, token, Some(session));
        RemovedCount(items, token, None);
        CountAll(items);
        CountAll(Removed(items, token));
      case Wipe =>
    }
  }

  lemma StashIsBounded(items: Table, now: int, item: Item, session: string)
    requires Unique(items) && item.token !in Tokens(items) && Count(items, Some(session)) <= MAX_ENTRIES_PER_SESSION
    ensures var r := Stashed(items, now, item);
      Unique(r) && |r| <= MAX_ENTRIES && Count(r, Some(session)) <= MAX_ENTRIES_PER_SESSION
  {
    hide Purged, Trimmed;
    StashedKeeps(items, now, item);
    var a := Purged(items, now);
    var b := Trimmed(a, Some(item.session), MAX_ENTRIES_PER_SESSION);
    var c := Trimmed(b, None, MAX_ENTRIES);
    PurgedCount(items, now, Some(session));
    TrimmedKeeps(a, Some(item.session), MAX_ENTRIES_PER_SESSION);
    TrimmedKeeps(b, None, MAX_ENTRIES);
    CountAll(c);
    CountMore(c, item, Some(session));
  }

  lemma DroppedLeaves(items: Table, i: nat)
    requires i < |items|
    ensures forall y :: y in items ==> y in Dropped(items, i) || y == items[i]
    ensures forall y :: y in Dropped(items, i) ==> y in items
  {
    forall j | 0 <= j < |items| && j != i
      ensures items[j] in Dropped(items, i)
    {
      assert Dropped(items, i)[if j < i then j else j - 1] == items[j];
    }
  }

  /** How the entries of one kind stand to the ones that were trimmed away. */
  lemma {:induction false} TrimmedDrops(items: Table, session: Option<string>, ceiling: nat, x: Item)
    requires ceiling > 0 && x in items && x !in Trimmed(items, session, ceiling)
    ensures Of(x, session) && Count(items, session) >= ceiling
    ensures forall y :: y in Trimmed(items, session, ceiling) && Of(y, session) ==> x.expiry <= y.expiry
    decreases |items|
  {
    if Count(items, session) >= ceiling {
      var i := Oldest(items, session);
      var rest := Dropped(items, i);
      TrimmedKeeps(rest, session, ceiling);
      DroppedLeaves(items, i);
      if x in rest {
        TrimmedDrops(rest, session, ceiling, x);
        CountDropped(items, session, i);
      }
    }
  }

  /**
   * A stash takes another session's unexpired secret only when thirty-two are
   * held after the session has trimmed its own, and then only one that lapses no
   * later than any that stays.
   */
  lemma OthersGoOnlyWhenFull(items: Table, now: int, item: Item, x: Item)
    requires x in items && x.expiry > now && x.session != item.session && x != item
    requires x !in Stashed(items, now, item)
    ensures var own := Trimmed(Purged(items, now), Some(item.session), MAX_ENTRIES_PER_SESSION);
      && |own| >= MAX_ENTRIES && Count(own, Some(item.session)) < MAX_ENTRIES_PER_SESSION
      && forall y :: y in Stashed(items, now, item) && y != item ==> x.expiry <= y.expiry
  {
    hide Purged, Trimmed;
    var a := Purged(items, now);
    var own := Trimmed(a, Some(item.session), MAX_ENTRIES_PER_SESSION);
    PurgedIs(items, now);
    if x !in own {
      TrimmedDrops(a, Some(item.session), MAX_ENTRIES_PER_SESSION, x);
    }
    TrimmedKeeps(a, Some(item.session), MAX_ENTRIES_PER_SESSION);
    TrimmedDrops(own, None, MAX_ENTRIES, x);
    CountAll(own);
  }

  lemma {:induction false} FoundIs(items: Table, token: Token, session: string, plaintext: string)
    requires Unique(items)
    ensures Found(items, token, session) == Some(plaintext) <==>
      session != "" && exists i :: 0 <= i < |items| && items[i].token == token && items[i].session == session && items[i].plaintext == plaintext
  {
    if items != [] {
      FoundIs(items[..|items| - 1], token, session, plaintext);
    }
  }

  /** A secret is resolved only in the session that stashed it, only as that secret, and only within its time. */
  lemma {:induction false} HeldWasStashed(es: seq<Event>, x: Item)
    requires x in Run(es)
    ensures exists k :: 0 <= k < |es| && es[k] == Stash(x.token, x.session, x.plaintext, x.expiry - TTL)
  {
    hide Purged, Trimmed, Removed;
    if es != [] {
      var items, e := Run(es[..|es| - 1]), es[|es| - 1];
      match e {
        case Stash(token, owner, plaintext, now) =>
          if plaintext != "" && owner != "" && token !in Tokens(items) {
            var item := Item(token, owner, plaintext, now + TTL);
            PurgedIs(items, now);
            TrimmedKeeps(Purged(items, now), Some(owner), MAX_ENTRIES_PER_SESSION);
            TrimmedKeeps(Trimmed(Purged(items, now), Some(owner), MAX_ENTRIES_PER_SESSION), None, MAX_ENTRIES);
            StashedKeepsNothingNew(items, now, item);
          }
        case Look(now) => PurgedIs(items, now);
        case Fire(token) => RemovedIs(items, token);
        case Wipe =>
      }
      if x in items {
        HeldWasStashed(es[..|es| - 1], x);
        var k :| 0 <= k < |es| - 1 && es[..|es| - 1][k] == Stash(x.token, x.session, x.plaintext, x.expiry - TTL);
        assert es[k] == Stash(x.token, x.session, x.plaintext, x.expiry - TTL);
      } else {
        assert es[|es| - 1] == Stash(x.token, x.session, x.plaintext, x.expiry - TTL);
      }
    }
  }

  lemma StashedKeepsNothingNew(items: Table, now: int, item: Item)
    ensures forall x :: x in Stashed(items, now, item) ==> x == item || x in items
  {
    hide Purged, Trimmed;
    PurgedMembers(items, now);
    TrimmedKeeps(Purged(items, now), Some(item.session), MAX_ENTRIES_PER_SESSION);
    TrimmedKeeps(Trimmed(Purged(items, now), Some(item.session), MAX_ENTRIES_PER_SESSION), None, MAX_ENTRIES);
  }

  lemma ResolvedWasStashed(es: seq<Event>, token: Token, session: string, plaintext: string, now: int)
    requires Found(Purged(Run(es), now), token, session) == Some(plaintext)
    ensures exists k :: 0 <= k < |es| && es[k].Stash? && es[k].token == token && es[k].session == session && es[k].plaintext == plaintext && now < es[k].now + TTL
  {
    hide Purged, Run, Found;
    HistoryIsBounded(es, session);
    PurgedIs(Run(es), now);
    FoundIs(Purged(Run(es), now), token, session, plaintext);
    var i :| 0 <= i < |Purged(Run(es), now)| && Purged(Run(es), now)[i].token == token && Purged(Run(es), now)[i].session == session && Purged(Run(es), now)[i].plaintext == plaintext;
    var x := Purged(Run(es), now)[i];
    assert x in Purged(Run(es), now);
    HeldWasStashed(es, x);
  }
}
