/**
 * The line-preserving editor of bin/hermes-drop-config-edit.py: it finds the
 * `plugins.enabled` list by scanning lines, and changes only whole lines. A line
 * is what the scanner can tell of it; every line ends with a newline.
 */
module ConfigEdit {
  import opened Basics

  type Id = nat

  datatype Name = Plugins | Enabled | OtherKey(text: nat)

  /** What follows a key's colon. */
  datatype Value = Empty | FlowSeq(items: seq<Id>) | OpenFlow | Inline(text: nat)

  datatype Line =
    | Noise(text: nat)
    | KeyLine(indent: nat, name: Name, value: Value, comment: nat)
    | ItemLine(indent: nat, item: Id)
    | NonScalarItem(indent: nat)
    | BareDash(indent: nat)
    | OtherLine(indent: nat, text: nat)

  /** `marked`: the parser found an anchor, alias, tag or merge key on the line. */
  datatype Row = Row(line: Line, marked: bool)

  predicate Structural(r: Row) {
    !r.line.Noise?
  }

  function Indent(r: Row): nat {
    if r.line.Noise? then 0 else r.line.indent
  }

  predicate IsTop(r: Row) {
    r.line.KeyLine? && r.line.indent == 0 && r.line.name == Plugins
  }

  predicate IsEnabled(r: Row, indent: nat) {
    r.line.KeyLine? && r.line.indent == indent && r.line.name == Enabled
  }

  /** A line the sequence goes on through: an item at least as deep as the block, or a comment or blank. */
  predicate InSequence(r: Row, indent: nat) {
    r.line.Noise? || (r.line.ItemLine? && r.line.indent >= indent)
  }

  /** A line that ends the sequence: a sibling key, anything else, or an item dedented out of the block. */
  predicate EndsSequence(r: Row, indent: nat) {
    r.line.KeyLine? || r.line.OtherLine? || ((r.line.ItemLine? || r.line.NonScalarItem?) && r.line.indent < indent)
  }

  function ValuesOf(rows: seq<Row>): seq<Id> {
    if rows == [] then []
    else ValuesOf(rows[..|rows| - 1]) + if rows[|rows| - 1].line.ItemLine? then [rows[|rows| - 1].line.item] else []
  }

  lemma {:induction false} ValuesOfConcat(a: seq<Row>, b: seq<Row>)
    ensures ValuesOf(a + b) == ValuesOf(a) + ValuesOf(b)
  {
    if b == [] {
      assert a + b == a;
    } else {
      assert (a + b)[..|a + b| - 1] == a + b[..|b| - 1];
      ValuesOfConcat(a, b[..|b| - 1]);
    }
  }

  // -------------------------------------------------------------------- locating

  /** Where the list lives: nowhere, in a block without the key, on one line, or as a block sequence up to `stop`. */
  datatype Location =
    | NoBlock
    | NoKey(plugins: nat, end: nat, indent: Option<nat>)
    | Flow(plugins: nat, end: nat, blockIndent: nat, enabled: nat)
    | Block(plugins: nat, end: nat, blockIndent: nat, enabled: nat, stop: nat)

  /** The `plugins:` block runs from its one top-level key to the next structural line at indent zero. */
  predicate BlockAt(rows: seq<Row>, plugins: nat, end: nat) {
    && plugins < end <= |rows|
    && (forall i :: 0 <= i < |rows| ==> (IsTop(rows[i]) <==> i == plugins))
    && (forall i :: plugins < i < end ==> Structural(rows[i]) ==> Indent(rows[i]) > 0)
    && (end < |rows| ==> Structural(rows[end]) && Indent(rows[end]) == 0)
    && (forall i :: plugins <= i < end ==> !rows[i].marked)
  }

  /** The block's first structural line sets its indent; there is none if the block is empty. */
  predicate IndentAt(rows: seq<Row>, plugins: nat, end: nat, indent: nat)
    requires plugins < end <= |rows|
  {
    exists f :: plugins < f < end && Structural(rows[f]) && Indent(rows[f]) == indent && forall i :: plugins < i < f ==> !Structural(rows[i])
  }

  predicate KeyAt(rows: seq<Row>, plugins: nat, end: nat, indent: nat, enabled: nat)
    requires plugins < end <= |rows|
  {
    plugins < enabled < end && forall i :: plugins < i < end ==> (IsEnabled(rows[i], indent) <==> i == enabled)
  }

  /** What a successful scan has established. */
  predicate Located(rows: seq<Row>, loc: Location) {
    match loc
    case NoBlock => forall i :: 0 <= i < |rows| ==> !IsTop(rows[i])
    case NoKey(p, end, indent) =>
      && BlockAt(rows, p, end)
      && (match indent
          case None => forall i :: p < i < end ==> !Structural(rows[i])
          case Some(n) => IndentAt(rows, p, end, n) && forall i :: p < i < end ==> !IsEnabled(rows[i], n))
    case Flow(p, end, indent, e) =>
      BlockAt(rows, p, end) && IndentAt(rows, p, end, indent) && KeyAt(rows, p, end, indent, e) && rows[e].line.value.FlowSeq?
    case Block(p, end, indent, e, stop) =>
      && BlockAt(rows, p, end) && IndentAt(rows, p, end, indent) && KeyAt(rows, p, end, indent, e) && rows[e].line.value == Empty
      && e < stop <= end
      && (forall i :: e < i < stop ==> InSequence(rows[i], indent))
      && (stop < end ==> EndsSequence(rows[stop], indent))
  }

  function Reads(rows: seq<Row>, loc: Location): seq<Id>
    requires Located(rows, loc)
  {
    match loc
    case Flow(_, _, _, e) => rows[e].line.value.items
    case Block(_, _, _, e, stop) => ValuesOf(rows[e + 1..stop])
    case _ => []
  }

  lemma TopOf(rows: seq<Row>, loc: Location)
    requires Located(rows, loc)
    ensures loc.NoBlock? <==> forall i :: 0 <= i < |rows| ==> !IsTop(rows[i])
    ensures !loc.NoBlock? ==> BlockAt(rows, loc.plugins, loc.end)
  {
    if !loc.NoBlock? {
      assert IsTop(rows[loc.plugins]);
    }
  }

  lemma OneBlock(rows: seq<Row>, p: nat, end: nat, q: nat, end': nat)
    requires BlockAt(rows, p, end) && BlockAt(rows, q, end')
    ensures p == q && end == end'
  {
    assert IsTop(rows[p]);
  }

  lemma OneFirst(rows: seq<Row>, p: nat, end: nat, n: nat, m: nat)
    requires p < end <= |rows| && IndentAt(rows, p, end, n) && IndentAt(rows, p, end, m)
    ensures n == m
  {
    var f :| p < f < end && Structural(rows[f]) && Indent(rows[f]) == n && forall i :: p < i < f ==> !Structural(rows[i]);
    var g :| p < g < end && Structural(rows[g]) && Indent(rows[g]) == m && forall i :: p < i < g ==> !Structural(rows[i]);
    assert f == g;
  }

  lemma OneStop(rows: seq<Row>, indent: nat, e: nat, end: nat, stop: nat, stop': nat)
    requires e < stop <= end <= |rows| && e < stop' <= end
    requires forall i :: e < i < stop ==> InSequence(rows[i], indent)
    requires stop' < end ==> EndsSequence(rows[stop'], indent)
    ensures stop <= stop'
  {
  }

  /** A file is read one way only. */
  lemma OneReading(rows: seq<Row>, a: Location, b: Location)
    requires Located(rows, a) && Located(rows, b)
    ensures a == b
  {
    hide BlockAt, IndentAt, KeyAt;
    TopOf(rows, a);
    TopOf(rows, b);
    if !a.NoBlock? && !b.NoBlock? {
      OneBlock(rows, a.plugins, a.end, b.plugins, b.end);
      OneLayout(rows, a, b);
    }
  }

  lemma BlockIsNotEmpty(rows: seq<Row>, p: nat, end: nat, n: nat)
    requires p < end <= |rows| && IndentAt(rows, p, end, n)
    ensures !(forall i :: p < i < end ==> !Structural(rows[i]))
  {
  }

  lemma OneLayout(rows: seq<Row>, a: Location, b: Location)
    requires Located(rows, a) && Located(rows, b) && !a.NoBlock? && !b.NoBlock? && a.plugins == b.plugins && a.end == b.end
    ensures a == b
  {
    hide BlockAt, IndentAt;
    var p, end := a.plugins, a.end;
    TopOf(rows, a);
    BlockRange(rows, p, end);
    if !(a.NoKey? && a.indent.None?) {
      BlockIsNotEmpty(rows, p, end, IndentOf(a));
    }
    if !(b.NoKey? && b.indent.None?) {
      BlockIsNotEmpty(rows, p, end, IndentOf(b));
    }
    if !(a.NoKey? && a.indent.None?) && !(b.NoKey? && b.indent.None?) {
      OneFirst(rows, p, end, IndentOf(a), IndentOf(b));
      if a.Block? && b.Block? && a.enabled == b.enabled {
        OneStop(rows, a.blockIndent, a.enabled, end, a.stop, b.stop);
        OneStop(rows, a.blockIndent, a.enabled, end, b.stop, a.stop);
      }
    }
  }

  lemma BlockRange(rows: seq<Row>, p: nat, end: nat)
    requires BlockAt(rows, p, end)
    ensures p < end <= |rows|
  {
  }

  function IndentOf(loc: Location): nat
    requires !loc.NoBlock? && !(loc.NoKey? && loc.indent.None?)
  {
    if loc.NoKey? then loc.indent.value else loc.blockIndent
  }

  // --------------------------------------------------------------------- editing

  /** `desired`: what was there without the dropped names, and the added one at the end if it is not there. */
  function Desired(current: seq<Id>, add: Option<Id>, drop: set<Id>): seq<Id> {
    var kept := Without(current, drop);
    if add.Some? && add.value !in kept then kept + [add.value] else kept
  }

  function Without(s: seq<Id>, drop: set<Id>): seq<Id> {
    if s == [] then [] else Without(s[..|s| - 1], drop) + if s[|s| - 1] in drop then [] else [s[|s| - 1]]
  }

  function NewItems(indent: nat, items: seq<Id>): seq<Row> {
    seq(|items|, i requires 0 <= i < |items| => Row(ItemLine(indent, items[i]), false))
  }

  function NewKey(indent: nat): Row {
    Row(KeyLine(indent, Enabled, Empty, 0), false)
  }

  /** The rows of a sequence whose items are not in `gone`; comments and blanks stay. */
  function Surviving(rows: seq<Row>, gone: set<Id>): seq<Row> {
    if rows == [] then []
    else
      var last := rows[|rows| - 1];
      Surviving(rows[..|rows| - 1], gone) + if last.line.ItemLine? && last.line.item in gone then [] else [last]
  }

  lemma WithoutLast(s: seq<Id>, v: Id, drop: set<Id>)
    ensures Without(s + [v], drop) == Without(s, drop) + if v in drop then [] else [v]
  {
    assert (s + [v])[..|s|] == s;
  }

  lemma ValuesLast(rows: seq<Row>, r: Row)
    ensures ValuesOf(rows + [r]) == ValuesOf(rows) + if r.line.ItemLine? then [r.line.item] else []
  {
    assert (rows + [r])[..|rows|] == rows;
  }

  /** What survives reads as what was there without the gone ones. */
  lemma {:induction false} SurvivingReads(rows: seq<Row>, gone: set<Id>)
    ensures ValuesOf(Surviving(rows, gone)) == Without(ValuesOf(rows), gone)
  {
    if rows != [] {
      var front, last := rows[..|rows| - 1], rows[|rows| - 1];
      SurvivingReads(front, gone);
      assert rows == front + [last];
      ValuesLast(front, last);
      ValuesLast(Surviving(front, gone), last);
      assert Surviving(front, gone) + [] == Surviving(front, gone);
      assert Without(ValuesOf(front), gone) + [] == Without(ValuesOf(front), gone);
      assert ValuesOf(front) + [] == ValuesOf(front);
      if last.line.ItemLine? {
        WithoutLast(ValuesOf(front), last.line.item, gone);
      }
    }
  }

  /** The rows whose index, counted from `base`, is not doomed. */
  function Deleted(rows: seq<Row>, doomed: set<nat>, base: nat): seq<Row> {
    if rows == [] then []
    else Deleted(rows[..|rows| - 1], doomed, base) + if base + |rows| - 1 in doomed then [] else [rows[|rows| - 1]]
  }

  lemma {:induction false} DeletedConcat(a: seq<Row>, b: seq<Row>, doomed: set<nat>, base: nat)
    ensures Deleted(a + b, doomed, base) == Deleted(a, doomed, base) + Deleted(b, doomed, base + |a|)
  {
    if b == [] {
      assert a + b == a;
    } else {
      assert (a + b)[..|a + b| - 1] == a + b[..|b| - 1];
      DeletedConcat(a, b[..|b| - 1], doomed, base);
    }
  }

  lemma {:induction false} DeletedNone(rows: seq<Row>, doomed: set<nat>, base: nat)
    requires forall j :: base <= j < base + |rows| ==> j !in doomed
    ensures Deleted(rows, doomed, base) == rows
  {
    if rows != [] {
      DeletedNone(rows[..|rows| - 1], doomed, base);
    }
  }

  lemma {:induction false} DeletedIsSurviving(rows: seq<Row>, doomed: set<nat>, base: nat, gone: set<Id>)
    requires forall i :: 0 <= i < |rows| ==> (base + i in doomed <==> IsDoomed(rows[i], gone))
    ensures Deleted(rows, doomed, base) == Surviving(rows, gone)
  {
    if rows != [] {
      DeletedIsSurviving(rows[..|rows| - 1], doomed, base, gone);
    }
  }

  function Gone(current: seq<Id>, wanted: seq<Id>): set<Id> {
    set v | v in current && v !in wanted
  }

  function Additions(current: seq<Id>, wanted: seq<Id>): seq<Id> {
    if wanted == [] then []
    else Additions(current, wanted[..|wanted| - 1]) + if wanted[|wanted| - 1] in current then [] else [wanted[|wanted| - 1]]
  }

  predicate IsDoomed(r: Row, gone: set<Id>) {
    r.line.ItemLine? && r.line.item in gone
  }

  predicate Survives(r: Row, gone: set<Id>) {
    r.line.ItemLine? && r.line.item !in gone
  }

  /** Where new items go: after the last survivor, else where the first item was, else right after the key. */
  predicate InsertsAt(rows: seq<Row>, e: nat, stop: nat, gone: set<Id>, at: nat)
    requires e < stop <= |rows|
  {
    && e < at <= stop
    && (forall i :: at <= i < stop ==> !Survives(rows[i], gone))
    && (if exists i :: e < i < stop && Survives(rows[i], gone) then at > e + 1 && Survives(rows[at - 1], gone)
        else if exists i :: e < i < stop && rows[i].line.ItemLine? then at < stop && rows[at].line.ItemLine? && forall i :: e < i < at ==> !rows[i].line.ItemLine?
        else at == e + 1)
  }

  /** The scan for that place. */
  method FindInsertion(rows: seq<Row>, e: nat, stop: nat, gone: set<Id>) returns (at: nat)
    requires e < stop <= |rows|
    ensures InsertsAt(rows, e, stop, gone, at)
  {
    var survivor: Option<nat>, first: Option<nat> := None, None;
    var i := e + 1;
    while i < stop
      invariant e < i <= stop
      invariant survivor.Some? ==> e < survivor.value < i && Survives(rows[survivor.value], gone)
      invariant forall k :: (if survivor.Some? then survivor.value else e) < k < i ==> !Survives(rows[k], gone)
      invariant first.Some? ==> e < first.value < i && rows[first.value].line.ItemLine?
      invariant forall k :: e < k < (if first.Some? then first.value else i) ==> !rows[k].line.ItemLine?
    {
      if rows[i].line.ItemLine? {
        if first.None? {
          first := Some(i);
        }
        if !IsDoomed(rows[i], gone) {
          survivor := Some(i);
        }
      }
      i := i + 1;
    }
    return if survivor.Some? then survivor.value + 1 else if first.Some? then first.value else e + 1;
  }

  /** The indices to delete, after the insertion has moved the later ones. */
  function Shifted(doomed: set<nat>, at: nat, n: nat): set<nat> {
    set i | i in doomed :: if i < at then i else i + n
  }

  method DeleteRows(rows: seq<Row>, doomed: set<nat>) returns (out: seq<Row>)
    ensures out == Deleted(rows, doomed, 0)
  {
    out := [];
    var i := 0;
    while i < |rows|
      invariant i <= |rows| && out == Deleted(rows[..i], doomed, 0)
    {
      assert rows[..i + 1][..i] == rows[..i];
      if i !in doomed {
        out := out + [rows[i]];
      }
      i := i + 1;
    }
    assert rows[..i] == rows;
  }

  /** The sequence after an edit: the surviving rows in order, the additions among them, and every comment where it was. */
  function EditedRegion(rows: seq<Row>, e: nat, stop: nat, indent: nat, wanted: seq<Id>, at: nat): seq<Row>
    requires e < at <= stop <= |rows|
  {
    var current := ValuesOf(rows[e + 1..stop]);
    Surviving(rows[e + 1..at], Gone(current, wanted)) + NewItems(indent, Additions(current, wanted)) + Surviving(rows[at..stop], Gone(current, wanted))
  }

  /** An emptied sequence is written out as `[]`. */
  function EditedKey(key: Row, emptied: bool): Row
    requires key.line.KeyLine?
  {
    if emptied then key.(line := key.line.(value := FlowSeq([]))) else key
  }

  /**
   * `apply_edit` on a block sequence: insert by index, shift the doomed indices,
   * delete by index. What is deleted is exactly the removed items' lines.
   */
  method ApplyBlock(rows: seq<Row>, e: nat, stop: nat, indent: nat, current: seq<Id>, wanted: seq<Id>) returns (out: seq<Row>)
    requires e < stop <= |rows| && rows[e].line.KeyLine? && current == ValuesOf(rows[e + 1..stop])
    ensures exists at :: (
      && InsertsAt(rows, e, stop, Gone(current, wanted), at)
      && out == Spliced(rows, e, stop, EditedKey(rows[e], wanted == [] && current != []), EditedRegion(rows, e, stop, indent, wanted, at)))
  {
    hide Surviving, ValuesOf, Deleted, Shifted, Additions, Gone, NewItems;
    var gone := Gone(current, wanted);
    var doomed: set<nat> := set i | e < i < stop && IsDoomed(rows[i], gone);
    var additions := Additions(current, wanted);
    var place := FindInsertion(rows, e, stop, gone);
    out := rows[..place] + NewItems(indent, additions) + rows[place..];
    var shifted := Shifted(doomed, place, |additions|);
    InsertThenDelete(rows, e, stop, indent, wanted, place, doomed);
    out := DeleteRows(out, shifted);
    KeyReplaced(rows, e, EditedRegion(rows, e, stop, indent, wanted, place), rows[stop..]);
    if wanted == [] && current != [] {
      out := out[e := EditedKey(out[e], true)];
    }
  }

  lemma ShiftIsExact(doomed: set<nat>, at: nat, n: nat)
    ensures forall i: nat :: i < at ==> (i in Shifted(doomed, at, n) <==> i in doomed)
    ensures forall i: nat :: at <= i < at + n ==> i !in Shifted(doomed, at, n)
    ensures forall i: nat :: i >= at ==> (i + n in Shifted(doomed, at, n) <==> i in doomed)
  {
    forall i: nat | i >= at && i in doomed
      ensures i + n in Shifted(doomed, at, n)
    {
    }
  }

  lemma InsertThenDelete(rows: seq<Row>, e: nat, stop: nat, indent: nat, wanted: seq<Id>, at: nat, doomed: set<nat>)
    requires e < at <= stop <= |rows|
    requires var gone := Gone(ValuesOf(rows[e + 1..stop]), wanted); doomed == set i | e < i < stop && IsDoomed(rows[i], gone)
    ensures var additions := Additions(ValuesOf(rows[e + 1..stop]), wanted);
      Deleted(rows[..at] + NewItems(indent, additions) + rows[at..], Shifted(doomed, at, |additions|), 0)
        == rows[..e + 1] + EditedRegion(rows, e, stop, indent, wanted, at) + rows[stop..]
  {
    hide Shifted, Deleted, Surviving, Gone, Additions, ValuesOf;
    var current := ValuesOf(rows[e + 1..stop]);
    var gone := Gone(current, wanted);
    var items := NewItems(indent, Additions(current, wanted));
    var n := |items|;
    var shifted := Shifted(doomed, at, n);
    ShiftIsExact(doomed, at, n);
    var a, b, c, d := rows[..e + 1], rows[e + 1..at], rows[at..stop], rows[stop..];
    assert rows[..at] == a + b && rows[at..] == c + d;
    DeletedConcat(a + b + items, c + d, shifted, 0);
    DeletedConcat(a + b, items, shifted, 0);
    DeletedConcat(a, b, shifted, 0);
    DeletedConcat(c, d, shifted, at + n);
    DeletedNone(a, shifted, 0);
    DeletedIsSurviving(b, shifted, e + 1, gone);
    DeletedNone(items, shifted, at);
    forall i | 0 <= i < |c|
      ensures at + n + i in shifted <==> IsDoomed(c[i], gone)
    {
      assert (at + i) + n in shifted <==> at + i in doomed;
    }
    DeletedIsSurviving(c, shifted, at + n, gone);
    forall j | stop + n <= j < stop + n + |d|
      ensures j !in shifted
    {
      assert (j - n) + n in shifted <==> j - n in doomed;
    }
    DeletedNone(d, shifted, stop + n);
    assert (a + b + items) + (c + d) == rows[..at] + items + rows[at..];
  }

  lemma KeyReplaced(rows: seq<Row>, e: nat, region: seq<Row>, rest: seq<Row>)
    requires e < |rows| && rows[e].line.KeyLine?
    ensures var out := rows[..e + 1] + region + rest;
      && out[e] == rows[e] && out == rows[..e] + [EditedKey(rows[e], false)] + region + rest
      && out[e := EditedKey(rows[e], true)] == rows[..e] + [EditedKey(rows[e], true)] + region + rest
  {
    assert rows[..e + 1] == rows[..e] + [rows[e]];
  }

  // ------------------------------------------------------------- what is read back

  /** The name is there once, and nothing that is kept follows it. */
  predicate LastOnce(current: seq<Id>, name: Id, drop: set<Id>) {
    current != [] &&
    var front, last := current[..|current| - 1], current[|current| - 1];
    if last == name then name !in front else last in drop && LastOnce(front, name, drop)
  }

  /** The edits that come out in the order that was asked for: all, but those that drop a name and add it back where it was not last. */
  predicate Settles(current: seq<Id>, add: Option<Id>, drop: set<Id>) {
    add.Some? && add.value in drop && add.value in current ==> LastOnce(current, add.value, drop)
  }

  lemma {:induction false} WithoutIn(s: seq<Id>, drop: set<Id>)
    ensures forall v :: v in Without(s, drop) <==> v in s && v !in drop
  {
    if s != [] {
      WithoutIn(s[..|s| - 1], drop);
      assert s == s[..|s| - 1] + [s[|s| - 1]];
    }
  }

  lemma {:induction false} WithoutSame(s: seq<Id>, d1: set<Id>, d2: set<Id>)
    requires forall v :: v in s ==> (v in d1 <==> v in d2)
    ensures Without(s, d1) == Without(s, d2)
  {
    if s != [] {
      WithoutSame(s[..|s| - 1], d1, d2);
    }
  }

  lemma {:induction false} WithoutConcat(a: seq<Id>, b: seq<Id>, drop: set<Id>)
    ensures Without(a + b, drop) == Without(a, drop) + Without(b, drop)
  {
    if b == [] {
      assert a + b == a;
    } else {
      assert (a + b)[..|a + b| - 1] == a + b[..|b| - 1];
      WithoutConcat(a, b[..|b| - 1], drop);
    }
  }

  lemma {:induction false} NothingToAdd(current: seq<Id>, wanted: seq<Id>)
    requires forall v :: v in wanted ==> v in current
    ensures Additions(current, wanted) == []
  {
    if wanted != [] {
      NothingToAdd(current, wanted[..|wanted| - 1]);
    }
  }

  lemma {:induction false} WithoutShorter(s: seq<Id>, name: Id, drop: set<Id>)
    requires name in drop
    ensures |Without(s, drop)| <= |Without(s, drop - {name})|
    ensures name in s ==> |Without(s, drop)| < |Without(s, drop - {name})|
    ensures name !in s ==> Without(s, drop) == Without(s, drop - {name})
  {
    if s != [] {
      WithoutShorter(s[..|s| - 1], name, drop);
      assert s == s[..|s| - 1] + [s[|s| - 1]];
    }
  }

  /** Leaving a dropped name in is the same as putting it at the end exactly if it is last already. */
  lemma {:induction false} LeftInIsLast(s: seq<Id>, name: Id, drop: set<Id>)
    requires name in drop && name in s
    ensures Without(s, drop - {name}) == Without(s, drop) + [name] <==> LastOnce(s, name, drop)
  {
    var front, last := s[..|s| - 1], s[|s| - 1];
    assert s == front + [last];
    if last == name {
      WithoutShorter(front, name, drop);
      assert Without(s, drop) == Without(front, drop);
    } else if last in drop {
      LeftInIsLast(front, name, drop);
      assert Without(s, drop) == Without(front, drop) && Without(s, drop - {name}) == Without(front, drop - {name});
    } else {
      var a, b := Without(s, drop - {name}), Without(s, drop) + [name];
      assert a[|a| - 1] == last && b[|b| - 1] == name;
    }
  }

  /** The wanted list is what stays of the current one, then what is added, exactly for the edits that settle. */
  lemma WantedSplits(current: seq<Id>, add: Option<Id>, drop: set<Id>)
    ensures var wanted := Desired(current, add, drop);
      wanted == Without(current, Gone(current, wanted)) + Additions(current, wanted) <==> Settles(current, add, drop)
  {
    var wanted, kept := Desired(current, add, drop), Without(current, drop);
    WithoutIn(current, drop);
    NothingToAdd(current, kept);
    if add.Some? && add.value !in kept {
      assert (kept + [add.value])[..|kept|] == kept;
    }
    if add.Some? && add.value in drop && add.value in current {
      WithoutSame(current, Gone(current, wanted), drop - {add.value});
      LeftInIsLast(current, add.value, drop);
    } else {
      WithoutSame(current, Gone(current, wanted), drop);
    }
    hide LastOnce;
  }

  lemma {:induction false} ItemsRead(indent: nat, items: seq<Id>)
    ensures ValuesOf(NewItems(indent, items)) == items
  {
    if items != [] {
      var front := items[..|items| - 1];
      ItemsRead(indent, front);
      assert NewItems(indent, items) == NewItems(indent, front) + [Row(ItemLine(indent, items[|items| - 1]), false)];
      ValuesLast(NewItems(indent, front), Row(ItemLine(indent, items[|items| - 1]), false));
    }
  }

  /** No item after the insertion point survives. */
  lemma {:induction false} AllGone(rows: seq<Row>, gone: set<Id>)
    requires forall i :: 0 <= i < |rows| ==> !Survives(rows[i], gone)
    ensures ValuesOf(Surviving(rows, gone)) == []
  {
    if rows != [] {
      AllGone(rows[..|rows| - 1], gone);
      var last := rows[|rows| - 1];
      ValuesLast(Surviving(rows[..|rows| - 1], gone), last);
      assert Surviving(rows[..|rows| - 1], gone) + [] == Surviving(rows[..|rows| - 1], gone);
    }
  }

  /** The edited sequence reads as the wanted list, in order, wherever the additions went, exactly for the edits that settle. */
  lemma RegionReads(rows: seq<Row>, e: nat, stop: nat, indent: nat, add: Option<Id>, drop: set<Id>, at: nat)
    requires e < stop <= |rows|
    requires var current := ValuesOf(rows[e + 1..stop]); InsertsAt(rows, e, stop, Gone(current, Desired(current, add, drop)), at)
    ensures var current := ValuesOf(rows[e + 1..stop]);
      var wanted := Desired(current, add, drop);
      ValuesOf(EditedRegion(rows, e, stop, indent, wanted, at)) == wanted <==> Settles(current, add, drop)
  {
    hide Surviving, ValuesOf, Additions, Gone, Desired, Without, Settles;
    var b, c := rows[e + 1..at], rows[at..stop];
    var current := ValuesOf(rows[e + 1..stop]);
    var wanted := Desired(current, add, drop);
    var gone := Gone(current, wanted);
    var items := NewItems(indent, Additions(current, wanted));
    assert rows[e + 1..stop] == b + c;
    ValuesOfConcat(b, c);
    WithoutConcat(ValuesOf(b), ValuesOf(c), gone);
    SurvivingReads(b, gone);
    SurvivingReads(c, gone);
    AllGone(c, gone);
    ItemsRead(indent, Additions(current, wanted));
    WantedSplits(current, add, drop);
    ValuesOfConcat(Surviving(b, gone) + items, Surviving(c, gone));
    ValuesOfConcat(Surviving(b, gone), items);
  }

  // ------------------------------------------------------------- where it is read

  /** Rows that may stand in the edited sequence. */
  predicate Fits(r: Row, indent: nat) {
    InSequence(r, indent) && !r.marked
  }

  lemma SliceFits(rows: seq<Row>, p: nat, end: nat, bi: nat, e: nat, stop: nat, from: nat, to: nat)
    requires Located(rows, Block(p, end, bi, e, stop)) && e < from <= to <= stop
    ensures forall k :: 0 <= k < to - from ==> Fits(rows[from..to][k], bi)
  {
    hide IndentAt, KeyAt;
    EnabledHere(rows, p, end, bi, e);
    forall k | 0 <= k < to - from
      ensures Fits(rows[from..to][k], bi)
    {
      assert rows[from..to][k] == rows[from + k];
    }
  }

  lemma {:induction false} SurvivorsFit(rows: seq<Row>, gone: set<Id>, bi: nat)
    requires forall k :: 0 <= k < |rows| ==> Fits(rows[k], bi)
    ensures forall k :: 0 <= k < |Surviving(rows, gone)| ==> Fits(Surviving(rows, gone)[k], bi)
  {
    hide Fits, IsDoomed;
    if rows != [] {
      SurvivorsFit(rows[..|rows| - 1], gone, bi);
    }
  }

  lemma RegionFits(rows: seq<Row>, p: nat, end: nat, bi: nat, e: nat, stop: nat, indent: nat, wanted: seq<Id>, at: nat)
    requires Located(rows, Block(p, end, bi, e, stop)) && e < at <= stop && indent >= bi
    ensures stop <= |rows|
    ensures var region := EditedRegion(rows, e, stop, indent, wanted, at); forall k :: 0 <= k < |region| ==> Fits(region[k], bi)
  {
    hide Surviving, ValuesOf, Additions, Gone, IndentAt, KeyAt, BlockAt;
    BlockRange(rows, p, end);
    var current := ValuesOf(rows[e + 1..stop]);
    var gone := Gone(current, wanted);
    SliceFits(rows, p, end, bi, e, stop, e + 1, at);
    SliceFits(rows, p, end, bi, e, stop, at, stop);
    SurvivorsFit(rows[e + 1..at], gone, bi);
    SurvivorsFit(rows[at..stop], gone, bi);
  }

  /** The file with the sequence of `loc` replaced by `region`, under `key`. */
  function Spliced(rows: seq<Row>, e: nat, stop: nat, key: Row, region: seq<Row>): seq<Row>
    requires e < stop <= |rows|
  {
    rows[..e] + [key] + region + rows[stop..]
  }

  lemma SplicedAt(rows: seq<Row>, e: nat, stop: nat, key: Row, region: seq<Row>)
    requires e < stop <= |rows|
    ensures var out, d := Spliced(rows, e, stop, key, region), |region| + e + 1 - stop;
      && |out| == |rows| + d
      && (forall i :: 0 <= i < e ==> out[i] == rows[i]) && out[e] == key
      && (forall i :: e < i <= e + |region| ==> out[i] == region[i - e - 1])
      && (forall i :: e + |region| < i < |out| ==> out[i] == rows[i - d])
  {
  }

  /** What moves a row and what does not, when the sequence after `e` grows by `d`. */
  predicate Moved(rows: seq<Row>, out: seq<Row>, e: nat, stop: nat, n: nat, key: Row, bi: nat)
    requires e < stop <= |rows|
  {
    && |out| == |rows| + n + e + 1 - stop
    && (forall i :: 0 <= i < e ==> out[i] == rows[i]) && out[e] == key
    && (forall i :: e < i <= e + n ==> Fits(out[i], bi))
    && (forall j :: stop <= j < |rows| ==> out[j + n + e + 1 - stop] == rows[j])
  }

  lemma MovedBlock(rows: seq<Row>, out: seq<Row>, p: nat, end: nat, bi: nat, e: nat, stop: nat, n: nat, key: Row)
    requires BlockAt(rows, p, end) && p < e < stop <= end && bi > 0
    requires Moved(rows, out, e, stop, n, key, bi) && IsEnabled(key, bi) && !key.marked
    ensures BlockAt(out, p, end + n + e + 1 - stop)
  {
    var d := n + e + 1 - stop;
    forall i | 0 <= i < |out|
      ensures IsTop(out[i]) <==> i == p
      ensures p < i < end + d ==> Structural(out[i]) ==> Indent(out[i]) > 0
      ensures p <= i < end + d ==> !out[i].marked
    {
      if i > e + n {
        assert out[(i - d) + n + e + 1 - stop] == rows[i - d];
      }
    }
    if end + d < |out| {
      assert out[end + n + e + 1 - stop] == rows[end];
    }
  }

  lemma MovedIndent(rows: seq<Row>, out: seq<Row>, p: nat, end: nat, bi: nat, e: nat, stop: nat, n: nat, key: Row)
    requires p < e < stop <= end <= |rows| && IndentAt(rows, p, end, bi) && Structural(rows[e])
    requires Moved(rows, out, e, stop, n, key, bi) && IsEnabled(key, bi)
    ensures IndentAt(out, p, end + n + e + 1 - stop, bi)
  {
    var f :| p < f < end && Structural(rows[f]) && Indent(rows[f]) == bi && forall i :: p < i < f ==> !Structural(rows[i]);
    assert f <= e;
    assert Structural(out[f]) && Indent(out[f]) == bi && forall i :: p < i < f ==> !Structural(out[i]);
  }

  lemma MovedKey(rows: seq<Row>, out: seq<Row>, p: nat, end: nat, bi: nat, e: nat, stop: nat, n: nat, key: Row)
    requires p < e < stop <= end <= |rows| && KeyAt(rows, p, end, bi, e)
    requires Moved(rows, out, e, stop, n, key, bi) && IsEnabled(key, bi)
    ensures KeyAt(out, p, end + n + e + 1 - stop, bi, e)
  {
    var d := n + e + 1 - stop;
    forall i | p < i < end + d
      ensures IsEnabled(out[i], bi) <==> i == e
    {
      if i > e + n {
        assert out[(i - d) + n + e + 1 - stop] == rows[i - d];
      }
    }
  }

  /** Replacing the sequence moves nothing else: the block, its indent and its key are found where they were. */
  lemma SplicedIsLocated(rows: seq<Row>, p: nat, end: nat, bi: nat, e: nat, stop: nat, key: Row, region: seq<Row>)
    requires Located(rows, Block(p, end, bi, e, stop)) && bi > 0
    requires IsEnabled(key, bi) && !key.marked && forall k :: 0 <= k < |region| ==> Fits(region[k], bi)
    ensures var out, end' := Spliced(rows, e, stop, key, region), end + |region| + e + 1 - stop;
      && (key.line.value == Empty ==> Located(out, Block(p, end', bi, e, e + 1 + |region|)))
      && (key.line.value.FlowSeq? ==> Located(out, Flow(p, end', bi, e)))
  {
    hide BlockAt, IndentAt, KeyAt;
    BlockRange(rows, p, end);
    EnabledHere(rows, p, end, bi, e);
    var out, n := Spliced(rows, e, stop, key, region), |region|;
    SplicedAt(rows, e, stop, key, region);
    assert Moved(rows, out, e, stop, n, key, bi);
    MovedBlock(rows, out, p, end, bi, e, stop, n, key);
    MovedIndent(rows, out, p, end, bi, e, stop, n, key);
    MovedKey(rows, out, p, end, bi, e, stop, n, key);
    var end' := end + n + e + 1 - stop;
    assert e + 1 + n < end' ==> out[stop + n + e + 1 - stop] == rows[stop];
  }

  lemma BlockIndentIsPositive(rows: seq<Row>, loc: Location)
    requires Located(rows, loc) && loc.Block?
    ensures loc.blockIndent > 0
  {
  }

  /**
   * A block sequence: the edited file is still read, in the same place, and it
   * reads exactly the wanted list, for just the edits that settle; an edit that
   * drops a name and adds it back leaves it where it was.
   */
  lemma BlockReadsBack(rows: seq<Row>, loc: Location, indent: nat, add: Option<Id>, drop: set<Id>, at: nat, out: seq<Row>)
    requires Located(rows, loc) && loc.Block? && indent >= loc.blockIndent
    requires var current := Reads(rows, loc);
      var wanted := Desired(current, add, drop);
      && InsertsAt(rows, loc.enabled, loc.stop, Gone(current, wanted), at)
      && out == Spliced(rows, loc.enabled, loc.stop, EditedKey(rows[loc.enabled], wanted == [] && current != []),
                        EditedRegion(rows, loc.enabled, loc.stop, indent, wanted, at))
    ensures exists loc' :: (
      Located(out, loc') && (Reads(out, loc') == Desired(Reads(rows, loc), add, drop) <==> Settles(Reads(rows, loc), add, drop)))
  {
    hide BlockAt, IndentAt, KeyAt, Surviving, ValuesOf, Additions, Gone, Desired, EditedRegion, InsertsAt, Settles;
    var Block(p, end, bi, e, stop) := loc;
    var current := Reads(rows, loc);
    var wanted := Desired(current, add, drop);
    BlockRange(rows, p, end);
    EnabledHere(rows, p, end, bi, e);
    InsertionRange(rows, e, stop, Gone(current, wanted), at);
    var region := EditedRegion(rows, e, stop, indent, wanted, at);
    var key := EditedKey(rows[e], wanted == [] && current != []);
    BlockIndentIsPositive(rows, loc);
    RegionFits(rows, p, end, bi, e, stop, indent, wanted, at);
    RegionReads(rows, e, stop, indent, add, drop, at);
    SplicedIsLocated(rows, p, end, bi, e, stop, key, region);
    SplicedAt(rows, e, stop, key, region);
    var end' := end + |region| + e + 1 - stop;
    if key.line.value == Empty {
      var found := Block(p, end', bi, e, e + 1 + |region|);
      assert out[e + 1..e + 1 + |region|] == region;
      assert Located(out, found) && Reads(out, found) == ValuesOf(region);
    } else {
      EmptiedSettles(current, add, drop);
      assert Located(out, Flow(p, end', bi, e)) && Reads(out, Flow(p, end', bi, e)) == wanted;
    }
  }

  lemma EmptiedSettles(current: seq<Id>, add: Option<Id>, drop: set<Id>)
    requires Desired(current, add, drop) == []
    ensures Settles(current, add, drop)
  {
  }

  lemma InsertionRange(rows: seq<Row>, e: nat, stop: nat, gone: set<Id>, at: nat)
    requires e < stop <= |rows| && InsertsAt(rows, e, stop, gone, at)
    ensures e < at <= stop
  {
  }

  lemma EnabledHere(rows: seq<Row>, p: nat, end: nat, bi: nat, e: nat)
    requires BlockAt(rows, p, end) && KeyAt(rows, p, end, bi, e)
    ensures p < e < end && IsEnabled(rows[e], bi) && !rows[e].marked
  {
  }

  // ---------------------------------------------------------------- the other layouts

  /** A one-line list: one line in, one line out. */
  lemma FlowReadsBack(rows: seq<Row>, loc: Location, wanted: seq<Id>)
    requires Located(rows, loc) && loc.Flow?
    ensures var out := rows[loc.enabled := rows[loc.enabled].(line := rows[loc.enabled].line.(value := FlowSeq(wanted)))];
      Located(out, loc) && Reads(out, loc) == wanted
  {
    var Flow(p, end, bi, e) := loc;
    var key := rows[e].(line := rows[e].line.(value := FlowSeq(wanted)));
    var out := rows[e := key];
    assert IsEnabled(rows[e], bi) && IsEnabled(key, bi);
    assert forall i :: 0 <= i < |out| ==> (IsTop(out[i]) <==> IsTop(rows[i]));
    assert BlockAt(out, p, end);
    var f :| p < f < end && Structural(rows[f]) && Indent(rows[f]) == bi && forall i :: p < i < f ==> !Structural(rows[i]);
    assert Structural(out[f]) && Indent(out[f]) == bi && forall i :: p < i < f ==> !Structural(out[i]);
    assert IndentAt(out, p, end, bi);
    assert KeyAt(out, p, end, bi, e);
  }

  function NewBlock(wanted: seq<Id>): seq<Row> {
    [Row(KeyLine(0, Plugins, Empty, 0), false), NewKey(2)] + NewItems(4, wanted)
  }

  /** No block at all: a pure append. */
  lemma AppendedReadsBack(rows: seq<Row>, wanted: seq<Id>)
    requires Located(rows, NoBlock)
    ensures var out := rows + NewBlock(wanted);
      exists loc' :: Located(out, loc') && Reads(out, loc') == wanted
  {
    var out, p := rows + NewBlock(wanted), |rows|;
    var loc' := Block(p, |out|, 2, p + 1, |out|);
    assert out[p] == NewBlock(wanted)[0] && out[p + 1] == NewKey(2);
    assert forall i :: p + 1 < i < |out| ==> out[i] == Row(ItemLine(4, wanted[i - p - 2]), false);
    assert BlockAt(out, p, |out|);
    assert Structural(out[p + 1]) && Indent(out[p + 1]) == 2;
    assert IndentAt(out, p, |out|, 2);
    assert KeyAt(out, p, |out|, 2, p + 1);
    assert out[p + 2..] == NewItems(4, wanted) && out[p + 2..|out|] == out[p + 2..];
    ItemsRead(4, wanted);
    assert Located(out, loc') && Reads(out, loc') == wanted;
  }

  /** A block that is a mapping without the key: its first line is a key's, whether or not the scanner recognises it, and the new key goes above it. */
  lemma InsertedReadsBack(rows: seq<Row>, loc: Location, wanted: seq<Id>)
    requires Located(rows, loc) && loc.NoKey?
    requires forall f :: loc.plugins < f < loc.end && Structural(rows[f]) && (forall i :: loc.plugins < i < f ==> !Structural(rows[i])) ==> rows[f].line.KeyLine? || rows[f].line.OtherLine?
    ensures var n := if loc.indent.Some? then loc.indent.value else 2;
      var out := rows[..loc.plugins + 1] + [NewKey(n)] + NewItems(n + 2, wanted) + rows[loc.plugins + 1..];
      exists loc' :: Located(out, loc') && Reads(out, loc') == wanted
  {
    hide BlockAt, IndentAt, KeyAt, ValuesOf, Inserted, NewItems, InSequence, EndsSequence, Located, Reads, IsEnabled;
    var p, end := loc.plugins, loc.end;
    var n := if loc.indent.Some? then loc.indent.value else 2;
    var d := 1 + |wanted|;
    MappingIndent(rows, loc);
    BlockRange(rows, p, end);
    var out := rows[..p + 1] + [NewKey(n)] + NewItems(n + 2, wanted) + rows[p + 1..];
    InsertionMoves(rows, p, n, wanted);
    InsertedBlock(rows, out, p, end, n, d);
    InsertedIndent(rows, out, p, end, n, d);
    InsertedKey(rows, out, p, end, n, d);
    InsertedSequence(rows, p, end, n, wanted);
    var stop := FirstStructural(rows, p, end);
    InsertedKeyRow(rows, p, n, wanted);
    BlockFound(out, p, end + d, n, p + 1, stop + d);
  }

  lemma BlockFound(out: seq<Row>, p: nat, end: nat, n: nat, e: nat, stop: nat)
    requires BlockAt(out, p, end) && IndentAt(out, p, end, n) && KeyAt(out, p, end, n, e) && out[e].line.value == Empty
    requires e < stop <= end && (forall i :: e < i < stop ==> InSequence(out[i], n)) && (stop < end ==> EndsSequence(out[stop], n))
    ensures Located(out, Block(p, end, n, e, stop)) && Reads(out, Block(p, end, n, e, stop)) == ValuesOf(out[e + 1..stop])
  {
    hide BlockAt, IndentAt, KeyAt, ValuesOf, InSequence, EndsSequence;
  }

  lemma InsertedKeyRow(rows: seq<Row>, p: nat, n: nat, wanted: seq<Id>)
    requires p < |rows|
    ensures (rows[..p + 1] + [NewKey(n)] + NewItems(n + 2, wanted) + rows[p + 1..])[p + 1] == NewKey(n)
  {
    hide NewItems, NewKey;
  }

  lemma MappingIndent(rows: seq<Row>, loc: Location)
    requires Located(rows, loc) && loc.NoKey?
    ensures BlockAt(rows, loc.plugins, loc.end)
    ensures var n := if loc.indent.Some? then loc.indent.value else 2;
      n > 0 && forall i :: loc.plugins < i < loc.end ==> !IsEnabled(rows[i], n)
  {
  }

  lemma InsertionMoves(rows: seq<Row>, p: nat, n: nat, wanted: seq<Id>)
    requires p < |rows|
    ensures Inserted(rows, rows[..p + 1] + [NewKey(n)] + NewItems(n + 2, wanted) + rows[p + 1..], p, n, 1 + |wanted|)
  {
    var out := rows[..p + 1] + [NewKey(n)] + NewItems(n + 2, wanted) + rows[p + 1..];
    assert forall i :: p + 1 < i <= p + 1 + |wanted| ==> out[i] == Row(ItemLine(n + 2, wanted[i - p - 2]), false);
  }

  lemma InsertedIndent(rows: seq<Row>, out: seq<Row>, p: nat, end: nat, n: nat, d: nat)
    requires p < end <= |rows| && Inserted(rows, out, p, n, d)
    ensures IndentAt(out, p, end + d, n)
  {
    assert Structural(out[p + 1]) && Indent(out[p + 1]) == n;
  }

  /** The new items, and the comments that followed the block's key, run up to the block's old first line. */
  lemma InsertedSequence(rows: seq<Row>, p: nat, end: nat, n: nat, wanted: seq<Id>)
    requires p < end <= |rows|
    requires forall f :: p < f < end && Structural(rows[f]) && (forall i :: p < i < f ==> !Structural(rows[i])) ==> rows[f].line.KeyLine? || rows[f].line.OtherLine?
    ensures var out, d, stop := rows[..p + 1] + [NewKey(n)] + NewItems(n + 2, wanted) + rows[p + 1..], 1 + |wanted|, FirstStructural(rows, p, end);
      && ValuesOf(out[p + 2..stop + d]) == wanted
      && (forall i :: p + 1 < i < stop + d ==> InSequence(out[i], n))
      && (stop + d < end + d ==> EndsSequence(out[stop + d], n))
  {
    hide ValuesOf;
    var items := NewItems(n + 2, wanted);
    var out, d, stop := rows[..p + 1] + [NewKey(n)] + items + rows[p + 1..], 1 + |wanted|, FirstStructural(rows, p, end);
    ItemsRead(n + 2, wanted);
    NoiseReadsNothing(rows[p + 1..stop]);
    assert out[p + 2..stop + d] == items + rows[p + 1..stop];
    ValuesOfConcat(items, rows[p + 1..stop]);
    forall i | p + 1 < i < stop + d
      ensures InSequence(out[i], n)
    {
      assert out[i] == if i <= p + d then items[i - p - 2] else rows[i - d];
    }
    if stop < end {
      assert out[stop + d] == rows[stop];
    }
  }

  function FirstStructural(rows: seq<Row>, p: nat, end: nat): (f: nat)
    requires p < end <= |rows|
    ensures p < f <= end && (f < end ==> Structural(rows[f])) && forall i :: p < i < f ==> !Structural(rows[i])
    decreases end - p
  {
    if p + 1 == end || Structural(rows[p + 1]) then p + 1 else FirstStructural(rows, p + 1, end)
  }

  lemma {:induction false} NoiseReadsNothing(rows: seq<Row>)
    requires forall i :: 0 <= i < |rows| ==> !Structural(rows[i])
    ensures ValuesOf(rows) == []
  {
    if rows != [] {
      NoiseReadsNothing(rows[..|rows| - 1]);
    }
  }

  /** The rows from `p + 1` on moved down by `d`; what was put above them belongs to the block. */
  predicate Inserted(rows: seq<Row>, out: seq<Row>, p: nat, n: nat, d: nat) {
    && p < |rows| && d >= 1 && |out| == |rows| + d
    && (forall i :: 0 <= i <= p ==> out[i] == rows[i]) && out[p + 1] == NewKey(n)
    && (forall i :: p + 1 < i <= p + d ==> out[i].line.ItemLine? && out[i].line.indent == n + 2 && !out[i].marked)
    && (forall j :: p < j < |rows| ==> out[j + d] == rows[j])
  }

  lemma InsertedBlock(rows: seq<Row>, out: seq<Row>, p: nat, end: nat, n: nat, d: nat)
    requires BlockAt(rows, p, end) && Inserted(rows, out, p, n, d) && n > 0
    ensures BlockAt(out, p, end + d)
  {
    forall i | 0 <= i < |out|
      ensures IsTop(out[i]) <==> i == p
      ensures p < i < end + d ==> Structural(out[i]) ==> Indent(out[i]) > 0
      ensures p <= i < end + d ==> !out[i].marked
    {
      if i > p + d {
        assert out[(i - d) + d] == rows[i - d];
      }
    }
    if end < |rows| {
      assert out[end + d] == rows[end];
    }
  }

  lemma InsertedKey(rows: seq<Row>, out: seq<Row>, p: nat, end: nat, n: nat, d: nat)
    requires p < end <= |rows| && Inserted(rows, out, p, n, d)
    requires forall i :: p < i < end ==> !IsEnabled(rows[i], n)
    ensures KeyAt(out, p, end + d, n, p + 1)
  {
    forall i | p < i < end + d
      ensures IsEnabled(out[i], n) <==> i == p + 1
    {
      if i > p + d {
        assert out[(i - d) + d] == rows[i - d];
      }
    }
  }

  // ------------------------------------------------------------ what is left alone

  function Others(rows: seq<Row>): seq<Row> {
    if rows == [] then [] else Others(rows[..|rows| - 1]) + if rows[|rows| - 1].line.ItemLine? then [] else [rows[|rows| - 1]]
  }

  lemma {:induction false} OthersConcat(a: seq<Row>, b: seq<Row>)
    ensures Others(a + b) == Others(a) + Others(b)
  {
    if b == [] {
      assert a + b == a;
    } else {
      assert (a + b)[..|a + b| - 1] == a + b[..|b| - 1];
      OthersConcat(a, b[..|b| - 1]);
    }
  }

  lemma {:induction false} OthersSurvive(rows: seq<Row>, gone: set<Id>)
    ensures Others(Surviving(rows, gone)) == Others(rows)
  {
    if rows != [] {
      var front, last := rows[..|rows| - 1], rows[|rows| - 1];
      OthersSurvive(front, gone);
      assert Surviving(front, gone) + [] == Surviving(front, gone);
      OthersConcat(Surviving(front, gone), [last]);
      assert [last][..0] == [];
    }
  }

  lemma {:induction false} NewItemsAreItems(indent: nat, items: seq<Id>)
    ensures Others(NewItems(indent, items)) == []
  {
    if items != [] {
      NewItemsAreItems(indent, items[..|items| - 1]);
      assert NewItems(indent, items)[..|items| - 1] == NewItems(indent, items[..|items| - 1]);
    }
  }

  /** Every line that is neither an item nor the key survives an edit unchanged and in its order. */
  lemma OnlyItemsChange(rows: seq<Row>, e: nat, stop: nat, indent: nat, wanted: seq<Id>, at: nat, key: Row)
    requires e < at <= stop <= |rows|
    ensures var out := Spliced(rows, e, stop, key, EditedRegion(rows, e, stop, indent, wanted, at));
      && out[..e] == rows[..e] && out[e] == key
      && Others(out[e + 1..]) == Others(rows[e + 1..])
  {
    hide Surviving, Others, Gone, Additions, ValuesOf;
    var gone := Gone(ValuesOf(rows[e + 1..stop]), wanted);
    var items := NewItems(indent, Additions(ValuesOf(rows[e + 1..stop]), wanted));
    var b, c, d := rows[e + 1..at], rows[at..stop], rows[stop..];
    var region := EditedRegion(rows, e, stop, indent, wanted, at);
    assert rows[e + 1..] == b + c + d;
    OthersConcat(b + c, d);
    OthersConcat(b, c);
    OthersSurvive(b, gone);
    OthersSurvive(c, gone);
    NewItemsAreItems(indent, Additions(ValuesOf(rows[e + 1..stop]), wanted));
    OthersConcat(Surviving(b, gone) + items, Surviving(c, gone));
    OthersConcat(Surviving(b, gone), items);
    OthersConcat(region, d);
    assert Others(b) + [] == Others(b);
    var out := Spliced(rows, e, stop, key, region);
    assert out[e + 1..] == region + d;
  }

  // -------------------------------------------------------------------- the scanner

  /** The extent of the block, before anything inside it is looked at. */
  predicate Extent(rows: seq<Row>, p: nat, end: nat) {
    && p < end <= |rows|
    && (forall i :: 0 <= i < |rows| ==> (IsTop(rows[i]) <==> i == p))
    && (forall i :: p < i < end ==> Structural(rows[i]) ==> Indent(rows[i]) > 0)
    && (end < |rows| ==> Structural(rows[end]) && Indent(rows[end]) == 0)
  }

  lemma SameExtent(rows: seq<Row>, p: nat, end: nat, loc: Location)
    requires Extent(rows, p, end) && Located(rows, loc)
    ensures !loc.NoBlock? && loc.plugins == p && loc.end == end && forall i :: p <= i < end ==> !rows[i].marked
  {
    assert IsTop(rows[p]);
    if !loc.NoBlock? {
      assert IsTop(rows[loc.plugins]);
    }
  }

  /** The one top-level `plugins:` key, or the news that there is none; two are a refusal. */
  method FindTop(rows: seq<Row>) returns (top: Option<nat>, refused: bool)
    ensures refused ==> forall loc :: !Located(rows, loc)
    ensures !refused && top.None? ==> forall i :: 0 <= i < |rows| ==> !IsTop(rows[i])
    ensures !refused && top.Some? ==> top.value < |rows| && forall i :: 0 <= i < |rows| ==> (IsTop(rows[i]) <==> i == top.value)
  {
    top, refused := None, false;
    var i := 0;
    while i < |rows|
      invariant i <= |rows|
      invariant top.None? ==> forall k :: 0 <= k < i ==> !IsTop(rows[k])
      invariant top.Some? ==> top.value < i && forall k :: 0 <= k < i ==> (IsTop(rows[k]) <==> k == top.value)
    {
      if IsTop(rows[i]) {
        if top.Some? {
          TwoTops(rows, top.value, i);
          return None, true;
        }
        top := Some(i);
      }
      i := i + 1;
    }
  }

  lemma TwoTops(rows: seq<Row>, a: nat, b: nat)
    requires a < b < |rows| && IsTop(rows[a]) && IsTop(rows[b])
    ensures forall loc :: !Located(rows, loc)
  {
    forall loc
      ensures !Located(rows, loc)
    {
      assert !(IsTop(rows[a]) <==> a == b);
    }
  }

  method FindBlockEnd(rows: seq<Row>, p: nat) returns (end: nat)
    requires p < |rows| && forall i :: 0 <= i < |rows| ==> (IsTop(rows[i]) <==> i == p)
    ensures Extent(rows, p, end)
  {
    end := p + 1;
    while end < |rows| && !(Structural(rows[end]) && Indent(rows[end]) == 0)
      invariant p < end <= |rows|
      invariant forall i :: p < i < end ==> Structural(rows[i]) ==> Indent(rows[i]) > 0
    {
      end := end + 1;
    }
  }

  method AnyMarked(rows: seq<Row>, p: nat, end: nat) returns (found: bool)
    requires Extent(rows, p, end)
    ensures found ==> forall loc :: !Located(rows, loc)
    ensures !found ==> forall i :: p <= i < end ==> !rows[i].marked
  {
    var i := p;
    while i < end
      invariant p <= i <= end && forall k :: p <= k < i ==> !rows[k].marked
    {
      if rows[i].marked {
        forall loc
          ensures !Located(rows, loc)
        {
          if Located(rows, loc) {
            SameExtent(rows, p, end, loc);
            assert false;
          }
        }
        return true;
      }
      i := i + 1;
    }
    return false;
  }

  method FindKey(rows: seq<Row>, p: nat, end: nat, n: nat) returns (key: Option<nat>, refused: bool)
    requires Extent(rows, p, end) && IndentAt(rows, p, end, n)
    ensures refused ==> forall loc :: !Located(rows, loc)
    ensures !refused && key.None? ==> forall i :: p < i < end ==> !IsEnabled(rows[i], n)
    ensures !refused && key.Some? ==> KeyAt(rows, p, end, n, key.value)
  {
    hide IndentAt;
    key, refused := None, false;
    var i := p + 1;
    while i < end
      invariant p < i <= end
      invariant key.None? ==> forall k :: p < k < i ==> !IsEnabled(rows[k], n)
      invariant key.Some? ==> p < key.value < i && forall k :: p < k < i ==> (IsEnabled(rows[k], n) <==> k == key.value)
    {
      if IsEnabled(rows[i], n) {
        if key.Some? {
          TwoKeys(rows, p, end, n, key.value, i);
          return None, true;
        }
        key := Some(i);
      }
      i := i + 1;
    }
  }

  lemma TwoKeys(rows: seq<Row>, p: nat, end: nat, n: nat, a: nat, b: nat)
    requires Extent(rows, p, end) && IndentAt(rows, p, end, n) && p < a < b < end && IsEnabled(rows[a], n) && IsEnabled(rows[b], n)
    ensures forall loc :: !Located(rows, loc)
  {
    forall loc
      ensures !Located(rows, loc)
    {
      NotLocated(rows, p, end, n, a, loc);
      NotLocated(rows, p, end, n, b, loc);
    }
  }

  /** Whatever reading there is of a block that holds the key is a reading of that key. */
  lemma NotLocated(rows: seq<Row>, p: nat, end: nat, n: nat, e: nat, loc: Location)
    requires Extent(rows, p, end) && IndentAt(rows, p, end, n) && p < e < end && IsEnabled(rows[e], n)
    ensures Located(rows, loc) ==> (loc.Flow? || loc.Block?) && loc.plugins == p && loc.end == end && loc.enabled == e && loc.blockIndent == n
  {
    hide IndentAt, Extent;
    if Located(rows, loc) {
      SameExtent(rows, p, end, loc);
      BlockRange(rows, p, end);
      BlockIsNotEmpty(rows, p, end, n);
      if !(loc.NoKey? && loc.indent.None?) {
        OneFirst(rows, p, end, n, IndentOf(loc));
      }
    }
  }

  /** The scan of a block sequence: it goes on through items and comments, and refuses what it cannot read. */
  method FindStop(rows: seq<Row>, p: nat, end: nat, n: nat, e: nat) returns (stop: Option<nat>)
    requires end <= |rows| && Extent(rows, p, end) && IndentAt(rows, p, end, n) && KeyAt(rows, p, end, n, e) && rows[e].line.value == Empty
    ensures stop.None? ==> forall loc :: !Located(rows, loc)
    ensures stop.Some? ==> e < stop.value <= end && (forall i :: e < i < stop.value ==> InSequence(rows[i], n)) && (stop.value < end ==> EndsSequence(rows[stop.value], n))
  {
    hide IndentAt, Extent;
    var i := e + 1;
    while i < end
      invariant e < i <= end && forall k :: e < k < i ==> InSequence(rows[k], n)
    {
      if EndsSequence(rows[i], n) {
        return Some(i);
      }
      if !InSequence(rows[i], n) {
        Unreadable(rows, p, end, n, e, i);
        return None;
      }
      i := i + 1;
    }
    return Some(i);
  }

  lemma Unreadable(rows: seq<Row>, p: nat, end: nat, n: nat, e: nat, bad: nat)
    requires end <= |rows| && Extent(rows, p, end) && IndentAt(rows, p, end, n) && KeyAt(rows, p, end, n, e) && rows[e].line.value == Empty
    requires e < bad < end && !InSequence(rows[bad], n) && !EndsSequence(rows[bad], n) && forall k :: e < k < bad ==> InSequence(rows[k], n)
    ensures forall loc :: !Located(rows, loc)
  {
    hide IndentAt, Extent;
    forall loc
      ensures !Located(rows, loc)
    {
      assert IsEnabled(rows[e], n);
      NotLocated(rows, p, end, n, e, loc);
      StopIsReached(rows, n, e, bad, loc);
    }
  }

  lemma StopIsReached(rows: seq<Row>, n: nat, e: nat, bad: nat, loc: Location)
    requires e < bad < |rows| && !InSequence(rows[bad], n) && !EndsSequence(rows[bad], n) && forall k :: e < k < bad ==> InSequence(rows[k], n)
    ensures Located(rows, loc) && loc.Block? && loc.blockIndent == n && loc.enabled == e ==> loc.end <= bad
  {
    if Located(rows, loc) && loc.Block? && loc.blockIndent == n && loc.enabled == e {
      assert loc.stop < loc.end ==> EndsSequence(rows[loc.stop], n);
    }
  }

  /** `locate`: it finds the list wherever there is exactly one way to read it, and refuses otherwise. */
  method Locate(rows: seq<Row>) returns (found: Option<Location>)
    ensures found.Some? ==> Located(rows, found.value)
    ensures found.None? ==> forall loc :: !Located(rows, loc)
  {
    hide IndentAt, KeyAt;
    var top, twice := FindTop(rows);
    if twice {
      return None;
    }
    if top.None? {
      return Some(NoBlock);
    }
    var p := top.value;
    var end := FindBlockEnd(rows, p);
    var marked := AnyMarked(rows, p, end);
    if marked {
      return None;
    }
    var first := FirstStructural(rows, p, end);
    if first == end {
      return Some(NoKey(p, end, None));
    }
    var n := Indent(rows[first]);
    FirstSetsIndent(rows, p, end, first);
    var key, twoKeys := FindKey(rows, p, end, n);
    if twoKeys {
      return None;
    }
    if key.None? {
      return Some(NoKey(p, end, Some(n)));
    }
    var e := key.value;
    KeyHere(rows, p, end, n, e);
    match rows[e].line.value
    case FlowSeq(_) => return Some(Flow(p, end, n, e));
    case Empty =>
      var stop := FindStop(rows, p, end, n, e);
      return if stop.None? then None else Some(Block(p, end, n, e, stop.value));
    case _ =>
      forall loc
        ensures !Located(rows, loc)
      {
        NotLocated(rows, p, end, n, e, loc);
      }
      return None;
  }

  lemma FirstSetsIndent(rows: seq<Row>, p: nat, end: nat, f: nat)
    requires p < f < end <= |rows| && Structural(rows[f]) && forall i :: p < i < f ==> !Structural(rows[i])
    ensures IndentAt(rows, p, end, Indent(rows[f]))
  {
  }

  lemma KeyHere(rows: seq<Row>, p: nat, end: nat, n: nat, e: nat)
    requires p < end <= |rows| && KeyAt(rows, p, end, n, e)
    ensures p < e < end && IsEnabled(rows[e], n)
  {
  }
}
