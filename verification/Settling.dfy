/**
 * When sanitizing a name a second time changes it: told from the name itself.
 * Two unpaired surrogates with nothing visible between them join into a format
 * character, and that character is among those the name is cut down to.
 */
module Settling {
  import opened Basics
  import opened Names

  /** The characters at `i` and `j` meet once what stands between them is stripped, in a character that is stripped too. */
  predicate MeetAt(u: Unicode, raw: Text, i: nat, j: nat) {
    && i < j < |raw| && High(raw[i]) && Low(raw[j]) && !u.hidden(raw[i]) && !u.hidden(raw[j])
    && (forall k :: i < k < j ==> u.hidden(raw[k]))
    && u.hidden(Paired(raw[i], raw[j]))
  }

  predicate Meets(u: Unicode, raw: Text) {
    exists i, j :: 0 <= i < |raw| && 0 <= j < |raw| && MeetAt(u, raw, i, j)
  }

  /** Leading white space and drive prefixes go, in any order. */
  function SkipHead(u: Unicode, s: Text): (r: Text)
    ensures |r| <= |s| && r == s[|s| - |r|..]
  {
    if s != [] && u.white(s[0]) then SkipHead(u, s[1..])
    else if HasDrive(s) then SkipHead(u, s[2..])
    else s
  }

  /** What a name keeps of `s` when more of the same path component follows. */
  function Lead(u: Unicode, s: Text): Text {
    SkipHead(u, Basename(s))
  }

  /**
   * The joined character is kept: it is in the last path component, and within
   * the byte limit counted from where the name begins.
   */
  predicate KeptAt(u: Unicode, raw: Text, i: nat, j: nat) {
    && MeetAt(u, raw, i, j) && NoSeparators(raw[j + 1..])
    && Utf8Length(Lead(u, u.nfc(Strip(u, raw[..i])))) + 4 <= MAX_FILE_NAME_BYTES
  }

  /** The names the sanitizer does not settle in one pass. */
  predicate Unsettled(u: Unicode, raw: Text) {
    exists i, j :: 0 <= i < |raw| && 0 <= j < |raw| && KeptAt(u, raw, i, j)
  }

  // -------------------------------------------------------------------- stripping

  lemma StripPush(u: Unicode, s: Text, n: nat)
    requires n < |s|
    ensures Strip(u, s[..n + 1]) == if u.hidden(s[n]) then Strip(u, s[..n]) else Push(Strip(u, s[..n]), s[n])
  {
    assert s[..n + 1][..n] == s[..n];
  }

  lemma {:induction false} HiddenIsSkipped(u: Unicode, s: Text, i: nat, j: nat)
    requires i <= j <= |s| && forall k :: i <= k < j ==> u.hidden(s[k])
    ensures Strip(u, s[..j]) == Strip(u, s[..i])
  {
    hide Strip;
    if i < j {
      StripPush(u, s, j - 1);
      HiddenIsSkipped(u, s, i, j - 1);
    }
  }

  lemma MeetingJoins(u: Unicode, raw: Text, i: nat, j: nat)
    requires MeetAt(u, raw, i, j)
    ensures Strip(u, raw[..j + 1]) == Strip(u, raw[..i]) + [Paired(raw[i], raw[j])]
  {
    hide Strip;
    StripPush(u, raw, i);
    HiddenIsSkipped(u, raw, i + 1, j);
    StripPush(u, raw, j);
  }

  /** Once a character that is no high surrogate stands at the end, what follows is stripped by itself. */
  lemma {:induction false} StripConcat(u: Unicode, a: Text, b: Text)
    requires Strip(u, a) == [] || !High(Strip(u, a)[|Strip(u, a)| - 1])
    ensures Strip(u, a + b) == Strip(u, a) + Strip(u, b)
    decreases |b|
  {
    if b == [] {
      assert a + b == a;
    } else {
      var front, c := b[..|b| - 1], b[|b| - 1];
      assert (a + b)[..|a + b| - 1] == a + front && (a + b)[|a + b| - 1] == c;
      StripConcat(u, a, front);
      PushConcat(Strip(u, a), Strip(u, front), c);
    }
  }

  lemma PushConcat(a: Text, b: Text, c: Point)
    requires a == [] || !High(a[|a| - 1])
    ensures Push(a + b, c) == a + Push(b, c)
  {
    if b == [] {
      assert a + b == a;
    } else {
      assert (a + b)[..|a + b| - 1] == a + b[..|b| - 1];
    }
  }

  lemma AroundMeeting(u: Unicode, raw: Text, i: nat, j: nat)
    requires MeetAt(u, raw, i, j)
    ensures Strip(u, raw) == Strip(u, raw[..i]) + [Paired(raw[i], raw[j])] + Strip(u, raw[j + 1..])
  {
    hide Strip;
    MeetingJoins(u, raw, i, j);
    StripConcat(u, raw[..j + 1], raw[j + 1..]);
    assert raw[..j + 1] + raw[j + 1..] == raw;
  }

  /** A high surrogate at the end of what is left is the last character that was not hidden. */
  lemma {:induction false} HighLast(u: Unicode, raw: Text) returns (i: nat)
    requires Strip(u, raw) != [] && High(Strip(u, raw)[|Strip(u, raw)| - 1])
    ensures var s := Strip(u, raw);
      && i < |raw| && raw[i] == s[|s| - 1] && !u.hidden(raw[i]) && (forall k :: i < k < |raw| ==> u.hidden(raw[k]))
      && Strip(u, raw[..i]) == s[..|s| - 1]
  {
    var n := |raw| - 1;
    assert raw[..n + 1] == raw;
    StripPush(u, raw, n);
    if u.hidden(raw[n]) {
      i := HighLast(u, raw[..n]);
      assert raw[..n][..i] == raw[..i];
    } else {
      i := n;
    }
  }

  /** Whatever hidden character a strip leaves, is where two surrogates met. */
  lemma {:induction false} HiddenIsMeeting(u: Unicode, raw: Text, m: nat) returns (i: nat, j: nat)
    requires m < |Strip(u, raw)| && u.hidden(Strip(u, raw)[m])
    ensures i < j < |raw| && High(raw[i]) && Low(raw[j]) && MeetAt(u, raw, i, j)
    ensures Strip(u, raw[..i]) == Strip(u, raw)[..m] && Paired(raw[i], raw[j]) == Strip(u, raw)[m]
  {
    hide Strip, MeetAt;
    NothingStripped(u);
    var n := |raw| - 1;
    var front, c := raw[..n], raw[n];
    assert raw[..n + 1] == raw;
    StripPush(u, raw, n);
    var before := Strip(u, front);
    if !u.hidden(c) && m + 1 == |before| && High(before[m]) && Low(c) {
      i := HighLast(u, front);
      j := n;
      assert front[..i] == raw[..i];
      LastMeets(u, raw, i);
    } else {
      PushKeeps(before, c, m, u.hidden(c));
      i, j := HiddenIsMeeting(u, front, m);
      EarlierMeets(u, raw, n, i, j);
    }
  }

  lemma NothingStripped(u: Unicode)
    ensures Strip(u, []) == []
  {
  }

  /** A character before the last stays where it is. */
  lemma PushKeeps(s: Text, c: Point, m: nat, skipped: bool)
    ensures var r := if skipped then s else Push(s, c);
      m < |r| && !(m + 1 == |s| && High(s[m]) && Low(c)) && (skipped || m != |s|) ==> m < |s| && r[m] == s[m] && r[..m] == s[..m]
    ensures !skipped && m < |Push(s, c)| && m == |s| ==> Push(s, c)[m] == c
  {
  }

  lemma LastMeets(u: Unicode, raw: Text, i: nat)
    requires i < |raw| - 1 && High(raw[i]) && !u.hidden(raw[i]) && (forall k :: i < k < |raw| - 1 ==> u.hidden(raw[k]))
    requires var j := |raw| - 1; Low(raw[j]) && !u.hidden(raw[j]) && u.hidden(Paired(raw[i], raw[j]))
    ensures MeetAt(u, raw, i, |raw| - 1)
  {
  }

  lemma EarlierMeets(u: Unicode, raw: Text, n: nat, i: nat, j: nat)
    requires n <= |raw| && MeetAt(u, raw[..n], i, j)
    ensures MeetAt(u, raw, i, j) && raw[..n][..i] == raw[..i] && raw[..n][i] == raw[i] && raw[..n][j] == raw[j]
    ensures High(raw[i]) && Low(raw[j])
  {
    forall k | i < k < j
      ensures u.hidden(raw[k])
    {
      assert raw[..n][k] == raw[k];
    }
  }

  /** Nothing hidden is left exactly when no two surrogates meet. */
  lemma ShownIffNothingMeets(u: Unicode, raw: Text)
    ensures Shown(u, Strip(u, raw)) <==> !Meets(u, raw)
  {
    hide Strip;
    if Meets(u, raw) {
      var i: nat, j: nat :| MeetAt(u, raw, i, j);
      AroundMeeting(u, raw, i, j);
      var a := Strip(u, raw[..i]);
      assert Strip(u, raw)[|a|] == Paired(raw[i], raw[j]);
    }
    if !Shown(u, Strip(u, raw)) {
      var m :| 0 <= m < |Strip(u, raw)| && u.hidden(Strip(u, raw)[m]);
      var i, j := HiddenIsMeeting(u, raw, m);
    }
  }

  // ----------------------------------------------------------------- normalizing

  lemma StablePart(s: Text, i: nat, j: nat)
    requires Stable(s) && i <= j <= |s|
    ensures Stable(s[i..j])
  {
    forall k | 0 <= k < j - i - 1
      ensures !(High(s[i..j][k]) && Low(s[i..j][k + 1]))
    {
      assert !(High(s[i + k]) && Low(s[i + k + 1]));
    }
  }

  /** A hidden character of the normalized text is one of the text, in the same place among what is normalized before it. */
  lemma {:induction false} HiddenInNormal(u: Unicode, s: Text, k: nat) returns (m: nat)
    requires Laws(u) && Stable(s) && k < |u.nfc(s)| && u.hidden(u.nfc(s)[k])
    ensures m < |s| && u.hidden(s[m]) && k == |u.nfc(s[..m])|
    decreases |s|
  {
    hide Laws, Stable;
    var f := FirstHidden(u, s, k);
    var a, b := s[..f], s[f + 1..];
    NormalSplits(u, s, f);
    var n := |u.nfc(a)|;
    if k < n {
      assert u.nfc(s)[k] == u.nfc(a)[k];
      m := HiddenInNormal(u, a, k);
      assert a[..m] == s[..m];
    } else if k == n {
      m := f;
    } else {
      assert u.nfc(s)[k] == u.nfc(b)[k - n - 1];
      var l := HiddenInNormal(u, b, k - n - 1);
      m := f + 1 + l;
      NormalPrefix(u, s, f, l);
    }
  }

  lemma FirstHidden(u: Unicode, s: Text, k: nat) returns (f: nat)
    requires Laws(u) && k < |u.nfc(s)| && u.hidden(u.nfc(s)[k])
    ensures f < |s| && u.hidden(s[f])
  {
    hide Stable, Infix, Lone, NoSeparators, NoControls, Splits;
    assert !Shown(u, s);
    f :| 0 <= f < |s| && u.hidden(s[f]);
  }

  lemma NormalSplits(u: Unicode, s: Text, f: nat)
    requires Laws(u) && Stable(s) && f < |s| && u.hidden(s[f])
    ensures u.nfc(s) == u.nfc(s[..f]) + [s[f]] + u.nfc(s[f + 1..]) && Stable(s[..f]) && Stable(s[f + 1..])
  {
    hide Stable, Infix, Lone, NoSeparators, NoControls, Shown;
    var a, h, b := s[..f], s[f], s[f + 1..];
    StablePart(s, 0, f);
    StablePart(s, f + 1, |s|);
    assert s[0..f] == a && s[f + 1..|s|] == b && s == a + [h] + b;
    assert Splits(u, a, h, b);
  }

  lemma NormalPrefix(u: Unicode, s: Text, f: nat, l: nat)
    requires Laws(u) && Stable(s) && f < |s| && u.hidden(s[f]) && f + 1 + l <= |s|
    ensures |u.nfc(s[..f + 1 + l])| == |u.nfc(s[..f])| + 1 + |u.nfc(s[f + 1..][..l])|
  {
    hide Stable, Infix, Lone, NoSeparators, NoControls, Shown;
    var a, h, b := s[..f], s[f], s[f + 1..][..l];
    StablePart(s, 0, f + 1 + l);
    assert s[0..f + 1 + l] == s[..f + 1 + l] == a + [h] + b;
    assert Splits(u, a, h, b);
  }

  lemma NoSeparatorsBefore(u: Unicode, s: Text)
    requires Laws(u) && Stable(s) && NoSeparators(u.nfc(s))
    ensures NoSeparators(s)
  {
    hide Stable, Infix, Lone, NoControls, Separator;
    forall m | 0 <= m < |s|
      ensures !Separator(s[m])
    {
      var a, h, b := s[..m], s[m], s[m + 1..];
      assert s == a + [h] + b;
      assert Splits(u, a, h, b);
      if Separator(h) {
        SeparatorIsSeen(u.nfc(a), h, u.nfc(b));
      }
    }
  }

  lemma SeparatorIsSeen(a: Text, h: Point, b: Text)
    requires Separator(h)
    ensures !NoSeparators(a + [h] + b)
  {
    assert (a + [h] + b)[|a|] == h;
  }

  lemma {:induction false} StripSeparators(u: Unicode, s: Text)
    requires Laws(u)
    ensures NoSeparators(Strip(u, s)) <==> NoSeparators(s)
  {
    hide Laws, Infix;
    SeparatorsShow(u);
    if s != [] {
      StripSeparators(u, s[..|s| - 1]);
      PushSeparators(Strip(u, s[..|s| - 1]), s[|s| - 1]);
      assert s == s[..|s| - 1] + [s[|s| - 1]];
    }
  }

  lemma SeparatorsShow(u: Unicode)
    requires Laws(u)
    ensures forall c: Point :: Separator(c) ==> !u.hidden(c)
  {
  }

  lemma PushSeparators(s: Text, c: Point)
    ensures NoSeparators(Push(s, c)) <==> NoSeparators(s) && !Separator(c)
  {
    hide NoSeparators;
    if s != [] && High(s[|s| - 1]) && Low(c) {
      var front := s[..|s| - 1];
      assert s == front + [s[|s| - 1]];
      SeparatorsMore(front, s[|s| - 1]);
      SeparatorsMore(front, Paired(s[|s| - 1], c));
    } else {
      SeparatorsMore(s, c);
    }
  }

  lemma SeparatorsMore(s: Text, c: Point)
    ensures NoSeparators(s + [c]) <==> NoSeparators(s) && !Separator(c)
  {
    assert (s + [c])[|s|] == c && forall i :: 0 <= i < |s| ==> (s + [c])[i] == s[i];
  }

  // ------------------------------------------------------------------ collapsing

  lemma {:induction false} TrimStartAround(u: Unicode, a: Text, p: Point, b: Text)
    requires !u.white(p)
    ensures TrimStart(u, a + [p] + b) == TrimStart(u, a) + [p] + b
  {
    if a == [] {
      assert a + [p] + b == [p] + b;
    } else {
      assert (a + [p] + b)[1..] == a[1..] + [p] + b;
      if u.white(a[0]) {
        TrimStartAround(u, a[1..], p, b);
      }
    }
  }

  lemma {:induction false} TrimEndAround(u: Unicode, a: Text, p: Point, b: Text)
    requires !u.white(p)
    ensures TrimEnd(u, a + [p] + b) == a + [p] + TrimEnd(u, b)
    decreases |b|
  {
    var s := a + [p] + b;
    if b == [] {
      assert s[|s| - 1] == p && a + [p] + [] == s;
    } else {
      assert s[..|s| - 1] == a + [p] + b[..|b| - 1] && s[|s| - 1] == b[|b| - 1];
      if u.white(b[|b| - 1]) {
        TrimEndAround(u, a, p, b[..|b| - 1]);
      }
    }
  }

  lemma {:induction false} BasenameAround(a: Text, p: Point, b: Text)
    requires !Separator(p) && NoSeparators(b)
    ensures Basename(a + [p] + b) == Basename(a) + [p] + b
    decreases |b|
  {
    var s := a + [p] + b;
    if b == [] {
      assert s == a + [p] && s[..|s| - 1] == a && Basename(a) + [p] + b == Basename(a) + [p];
    } else {
      assert s[..|s| - 1] == a + [p] + b[..|b| - 1] && s[|s| - 1] == b[|b| - 1];
      BasenameAround(a, p, b[..|b| - 1]);
      assert Basename(a) + [p] + b[..|b| - 1] + [b[|b| - 1]] == Basename(a) + [p] + b;
    }
  }

  lemma DropDriveAround(a: Text, p: Point, b: Text)
    requires p >= 0x10000
    ensures DropDrive(a + [p] + b) == DropDrive(a) + [p] + b
  {
    var s := a + [p] + b;
    assert |a| >= 1 ==> s[0] == a[0];
    assert |a| >= 2 ==> s[1] == a[1] && s[2..] == a[2..] + [p] + b;
    assert |a| == 1 ==> s[1] == p;
    assert |a| == 0 ==> s[0] == p;
  }

  /** One pass over what comes before the character. */
  function LeadOnce(u: Unicode, a: Text): Text {
    DropDrive(Basename(TrimStart(u, a)))
  }

  lemma CollapseOnceAround(u: Unicode, a: Text, p: Point, b: Text)
    requires p >= 0x10000 && !u.white(p) && NoSeparators(b)
    ensures CollapseOnce(u, a + [p] + b) == LeadOnce(u, a) + [p] + TrimEnd(u, b)
    ensures NoSeparators(TrimEnd(u, b))
  {
    hide TrimStart, TrimEnd, Basename, DropDrive;
    TrimStartAround(u, a, p, b);
    TrimEndAround(u, TrimStart(u, a), p, b);
    TrimEndIs(u, b);
    BasenameAround(TrimStart(u, a), p, TrimEnd(u, b));
    DropDriveAround(Basename(TrimStart(u, a)), p, TrimEnd(u, b));
  }

  lemma {:induction false} BasenameTwice(s: Text)
    ensures Basename(Basename(s)) == Basename(s)
    ensures NoSeparators(s) ==> Basename(s) == s
  {
    if s != [] {
      BasenameTwice(s[..|s| - 1]);
      assert s == s[..|s| - 1] + [s[|s| - 1]];
      var r := Basename(s[..|s| - 1]) + [s[|s| - 1]];
      assert r[..|r| - 1] == Basename(s[..|s| - 1]);
    }
  }

  /** Leading white space goes either way. */
  lemma {:induction false} LeadOfTrimmed(u: Unicode, a: Text)
    requires Laws(u)
    ensures Lead(u, TrimStart(u, a)) == Lead(u, a)
  {
    hide Laws, Infix;
    SeparatorsAreNotWhite(u);
    if a != [] && u.white(a[0]) {
      LeadOfTrimmed(u, a[1..]);
      BasenameTail(a);
    }
  }

  lemma SeparatorsAreNotWhite(u: Unicode)
    requires Laws(u)
    ensures forall c: Point :: Separator(c) || Letter(c) || c >= 0x10000 ==> !u.white(c)
  {
  }

  lemma {:induction false} BasenameTail(a: Text)
    requires a != [] && !Separator(a[0])
    ensures Basename(a) == Basename(a[1..]) || (Basename(a[1..]) == a[1..] && Basename(a) == a)
  {
    if |a| > 1 && !Separator(a[|a| - 1]) {
      var front := a[..|a| - 1];
      BasenameTail(front);
      assert front[1..] == a[1..][..|a| - 2];
      assert a == front + [a[|a| - 1]];
    } else if |a| == 1 {
      assert a[..0] == [] && a[1..] == [];
    }
  }

  lemma LeadOfPass(u: Unicode, a: Text)
    requires Laws(u)
    ensures Lead(u, LeadOnce(u, a)) == Lead(u, a)
  {
    hide Laws, TrimStart, SkipHead;
    LeadOfTrimmed(u, a);
    var t := TrimStart(u, a);
    BasenameTwice(t);
    BasenameIs(t);
    DriveOfLead(u, Basename(t));
    BasenameTwice(DropDrive(Basename(t)));
  }

  lemma DriveOfLead(u: Unicode, s: Text)
    requires Laws(u)
    ensures SkipHead(u, DropDrive(s)) == SkipHead(u, s)
  {
    SeparatorsAreNotWhite(u);
  }

  lemma LeadWhenFixed(u: Unicode, a: Text)
    requires LeadOnce(u, a) == a
    ensures Lead(u, a) == a
  {
    hide TrimStart, Basename, SkipHead, HasDrive;
    var t := TrimStart(u, a);
    TrimStartIs(u, a);
    BasenameIs(t);
    DriveIsCut(Basename(t));
    assert t == a && Basename(t) == t;
    SkipsNothing(u, a);
  }

  lemma DriveIsCut(s: Text)
    ensures |DropDrive(s)| <= |s| && DropDrive(s) == s[|s| - |DropDrive(s)|..] && (|DropDrive(s)| == |s| ==> !HasDrive(s) && DropDrive(s) == s)
  {
  }

  lemma SkipsNothing(u: Unicode, a: Text)
    requires (a == [] || !u.white(a[0])) && !HasDrive(a)
    ensures SkipHead(u, a) == a
  {
  }

  /** A name collapses, around a character that is kept, to the lead before it and what follows without trailing white space. */
  lemma {:induction false} CollapseAround(u: Unicode, a: Text, p: Point, b: Text)
    requires Laws(u) && p >= 0x10000 && NoSeparators(b)
    ensures Collapse(u, a + [p] + b) == Lead(u, a) + [p] + TrimEnd(u, b)
    decreases |a| + |b|
  {
    hide Laws, TrimStart, Basename, DropDrive, LeadOnce, Lead, CollapseOnce;
    SeparatorsAreNotWhite(u);
    var s := a + [p] + b;
    var c, e := LeadOnce(u, a), TrimEnd(u, b);
    CollapseOnceAround(u, a, p, b);
    CleanIsFixed(u, s);
    LeadOfPass(u, a);
    TrimEndIs(u, b);
    TrimEndTwice(u, b);
    if c + [p] + e == s {
      Aligned(a, b, c, e, p);
      LeadWhenFixed(u, a);
    } else {
      CollapseAround(u, c, p, e);
    }
  }

  lemma TrimEndTwice(u: Unicode, s: Text)
    ensures TrimEnd(u, TrimEnd(u, s)) == TrimEnd(u, s)
  {
    TrimEndIs(u, s);
  }

  lemma Aligned(a: Text, b: Text, c: Text, e: Text, p: Point)
    requires c + [p] + e == a + [p] + b && |e| <= |b| && e == b[..|e|]
    ensures |c| >= |a| && (|e| == |b| ==> c == a && e == b)
  {
    if |e| == |b| {
      assert (c + [p] + e)[..|c|] == c && (a + [p] + b)[..|a|] == a;
    }
  }

  // ---------------------------------------------------------- what a name is cut to

  predicate Tail(a: Text, b: Text) {
    |a| <= |b| && a == b[|b| - |a|..]
  }

  lemma TailTrans(a: Text, b: Text, c: Text)
    requires Tail(a, b) && Tail(b, c)
    ensures Tail(a, c)
  {
  }

  lemma {:induction false} TrimmedTail(u: Unicode, s: Text)
    ensures Tail(TrimEnd(u, TrimStart(u, s)), TrimEnd(u, s))
  {
    if s != [] && u.white(s[0]) {
      TrimmedTail(u, s[1..]);
      TrimEndTail(u, s);
      TailTrans(TrimEnd(u, TrimStart(u, s)), TrimEnd(u, s[1..]), TrimEnd(u, s));
    }
  }

  lemma {:induction false} TrimEndTail(u: Unicode, s: Text)
    requires s != []
    ensures Tail(TrimEnd(u, s[1..]), TrimEnd(u, s))
    decreases |s|
  {
    if |s| > 1 && u.white(s[|s| - 1]) {
      assert s[1..][|s| - 2] == s[|s| - 1] && s[1..][..|s| - 2] == s[..|s| - 1][1..];
      TrimEndTail(u, s[..|s| - 1]);
    }
  }

  lemma OnceIsTail(u: Unicode, s: Text)
    ensures Tail(CollapseOnce(u, s), TrimEnd(u, s))
  {
    hide TrimStart, TrimEnd, Basename, DropDrive, Tail;
    var t := TrimEnd(u, TrimStart(u, s));
    TrimmedTail(u, s);
    CutsAreTails(t);
    TailTrans(CollapseOnce(u, s), t, TrimEnd(u, s));
  }

  lemma CutsAreTails(t: Text)
    ensures Tail(DropDrive(Basename(t)), t)
  {
    hide Basename, DropDrive;
    BasenameIs(t);
    DriveIsCut(Basename(t));
    TailTrans(DropDrive(Basename(t)), Basename(t), t);
  }

  lemma TailOfTrimmed(u: Unicode, o: Text, s: Text)
    requires Tail(o, TrimEnd(u, s))
    ensures TrimEnd(u, o) == o
  {
    hide TrimEnd;
    TrimEndIs(u, s);
    assert o != [] ==> o[|o| - 1] == TrimEnd(u, s)[|TrimEnd(u, s)| - 1];
    TrimmedAlready(u, o);
  }

  /** Whatever a name collapses to is the end of it, without trailing white space. */
  lemma {:induction false} CollapseIsTail(u: Unicode, s: Text)
    ensures Tail(Collapse(u, s), TrimEnd(u, s))
    decreases |s|
  {
    hide CollapseOnce, TrimEnd, Tail;
    var o := CollapseOnce(u, s);
    OnceIsTail(u, s);
    TailOfTrimmed(u, o, s);
    CleanIsFixed(u, s);
    if o != s {
      CollapseIsTail(u, o);
      TailTrans(Collapse(u, s), o, TrimEnd(u, s));
    }
  }

  lemma TrimEndKeeps(u: Unicode, s: Text, h: nat)
    requires h < |s| && !u.white(s[h])
    ensures |TrimEnd(u, s)| > h && TrimEnd(u, s)[h] == s[h]
  {
    hide TrimEnd;
    assert s == s[..h] + [s[h]] + s[h + 1..];
    TrimEndAround(u, s[..h], s[h], s[h + 1..]);
  }

  /** The character that two surrogates met in, in the normalized name. */
  lemma MeetingInNormal(u: Unicode, raw: Text, i: nat, j: nat)
    requires Laws(u) && MeetAt(u, raw, i, j)
    ensures var a, p, b := u.nfc(Strip(u, raw[..i])), Paired(raw[i], raw[j]), u.nfc(Strip(u, raw[j + 1..]));
      && u.nfc(Strip(u, raw)) == a + [p] + b && p >= 0x10000 && (NoSeparators(b) <==> NoSeparators(raw[j + 1..]))
  {
    hide Strip, Infix, Stable, Lone, NoControls, Shown;
    AroundMeeting(u, raw, i, j);
    StripIsStable(u, raw);
    assert Splits(u, Strip(u, raw[..i]), Paired(raw[i], raw[j]), Strip(u, raw[j + 1..]));
    StripIsStable(u, raw[j + 1..]);
    StripSeparators(u, raw[j + 1..]);
    if NoSeparators(u.nfc(Strip(u, raw[j + 1..]))) {
      NoSeparatorsBefore(u, Strip(u, raw[j + 1..]));
    }
  }

  lemma Utf8Last(s: Text, p: Point)
    ensures Utf8Length(s + [p]) == Utf8Length(s) + PointBytes(p)
  {
    assert (s + [p])[..|s|] == s;
  }

  /** A kept character is in the name. */
  lemma KeptIsSeen(u: Unicode, raw: Text, i: nat, j: nat)
    requires Laws(u) && KeptAt(u, raw, i, j)
    ensures !Shown(u, Sanitize(u, raw))
  {
    hide Strip, Infix, Stable, Lone, NoControls, Collapse, Truncate, TrimEnd, Lead, Utf8Length, NoSeparators, Splits;
    MeetingInNormal(u, raw, i, j);
    var a, p, b := u.nfc(Strip(u, raw[..i])), Paired(raw[i], raw[j]), u.nfc(Strip(u, raw[j + 1..]));
    CollapseAround(u, a, p, b);
    SeparatorsAreNotWhite(u);
    var lead := Lead(u, a);
    var c := lead + [p] + TrimEnd(u, b);
    var r := Truncate(c, MAX_FILE_NAME_BYTES);
    TruncateFits(c, MAX_FILE_NAME_BYTES);
    assert c[..|lead| + 1] == lead + [p];
    Utf8Last(lead, p);
    assert r[|lead|] == p;
    TrimEndKeeps(u, r, |lead|);
  }

  /** Where in the normalized name a hidden character of the result stands: within what is kept of its end. */
  lemma SeenAt(u: Unicode, raw: Text) returns (q: nat)
    requires Laws(u) && !Shown(u, Sanitize(u, raw))
    ensures var n := u.nfc(Strip(u, raw));
      var c := Collapse(u, n);
      && Tail(c, TrimEnd(u, n)) && |TrimEnd(u, n)| <= |n| && q < |c| && u.hidden(n[|TrimEnd(u, n)| - |c| + q])
      && Utf8Length(c[..q + 1]) <= MAX_FILE_NAME_BYTES
  {
    hide Strip, Infix, Stable, Lone, NoControls, Collapse, Truncate, TrimEnd, Utf8Length, NoSeparators, Splits;
    var n := u.nfc(Strip(u, raw));
    var c := Collapse(u, n);
    var r := Truncate(c, MAX_FILE_NAME_BYTES);
    var e := TrimEnd(u, r);
    FallbackIsCanonical(u);
    TruncateFits(c, MAX_FILE_NAME_BYTES);
    TrimEndIs(u, r);
    CollapseIsTail(u, n);
    TrimEndIs(u, n);
    q :| 0 <= q < |e| && u.hidden(e[q]);
    assert e[q] == r[q] == c[q] == n[|TrimEnd(u, n)| - |c| + q];
    assert r[..q + 1] == c[..q + 1];
    Utf8LengthGrows(r, q + 1);
  }

  /** And a hidden character in the name is one that was kept. */
  lemma SeenIsKept(u: Unicode, raw: Text)
    requires Laws(u) && !Shown(u, Sanitize(u, raw))
    ensures Unsettled(u, raw)
  {
    hide Strip, Infix, Stable, Lone, NoControls, Collapse, TrimEnd, Lead, Utf8Length, NoSeparators, Splits, MeetAt, Sanitize, Shown;
    var s := Strip(u, raw);
    var n := u.nfc(s);
    var c := Collapse(u, n);
    StripIsStable(u, raw);
    var q := SeenAt(u, raw);
    var k := |TrimEnd(u, n)| - |c| + q;
    var m := HiddenInNormal(u, s, k);
    var i, j := HiddenIsMeeting(u, raw, m);
    MeetingInNormal(u, raw, i, j);
    var a, p, b := u.nfc(Strip(u, raw[..i])), Paired(raw[i], raw[j]), u.nfc(Strip(u, raw[j + 1..]));
    AfterIsClean(u, n, c, k);
    assert b == n[k + 1..];
    CollapseAround(u, a, p, b);
    SeparatorsAreNotWhite(u);
    TrimEndAround(u, a, p, b);
    assert |Lead(u, a)| == q && c[..q + 1] == Lead(u, a) + [p];
    Utf8Last(Lead(u, a), p);
    assert KeptAt(u, raw, i, j);
  }

  /** No separator follows anything the name keeps. */
  lemma AfterIsClean(u: Unicode, n: Text, c: Text, k: nat)
    requires Laws(u) && c == Collapse(u, n) && Tail(c, TrimEnd(u, n)) && |TrimEnd(u, n)| - |c| <= k < |TrimEnd(u, n)|
    ensures k < |n| && NoSeparators(n[k + 1..])
  {
    hide Collapse, TrimEnd, Laws;
    SeparatorsAreNotWhite(u);
    CollapseIsClean(u, n);
    TrimEndIs(u, n);
    TrimmedIsWhite(u, n);
    forall y | k < y < |n|
      ensures !Separator(n[y])
    {
      if y < |TrimEnd(u, n)| {
        assert n[y] == TrimEnd(u, n)[y] == c[y - (|TrimEnd(u, n)| - |c|)];
      }
    }
    var after := n[k + 1..];
    assert forall x :: 0 <= x < |after| ==> after[x] == n[k + 1 + x];
  }

  lemma {:induction false} TrimmedIsWhite(u: Unicode, s: Text)
    ensures forall y :: |TrimEnd(u, s)| <= y < |s| ==> u.white(s[y])
  {
    if s != [] && u.white(s[|s| - 1]) {
      TrimmedIsWhite(u, s[..|s| - 1]);
      assert forall y :: 0 <= y < |s| - 1 ==> s[..|s| - 1][y] == s[y];
    }
  }

  /**
   * Sanitizing twice is the same as once exactly unless two unpaired surrogates
   * of the name meet in a format character that the name is not cut before.
   */
  lemma FixedPointIffSettled(u: Unicode, raw: Text)
    requires Laws(u)
    ensures Sanitize(u, Sanitize(u, raw)) == Sanitize(u, raw) <==> !Unsettled(u, raw)
  {
    hide Laws, Sanitize, MeetAt, Utf8Length, Lead, Strip, NoSeparators;
    FixedPointIffNothingHidden(u, raw);
    if Unsettled(u, raw) {
      var i: nat, j: nat :| KeptAt(u, raw, i, j);
      KeptIsSeen(u, raw, i, j);
    }
    if !Shown(u, Sanitize(u, raw)) {
      SeenIsKept(u, raw);
    }
  }

  /** Without such a meeting anywhere in it, a name settles. */
  lemma NothingMeetsSettles(u: Unicode, raw: Text)
    requires Laws(u) && !Meets(u, raw)
    ensures Sanitize(u, Sanitize(u, raw)) == Sanitize(u, raw)
  {
    hide Laws, Sanitize, Utf8Length, Lead, Strip, NoSeparators;
    FixedPointIffSettled(u, raw);
  }
}
