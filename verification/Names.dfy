/**
 * The filename sanitizer of src/file-container.js. A string is the sequence of
 * code points it reads as, an unpaired surrogate being a code point of its own;
 * deleting what stood between two of them makes them read as one.
 */
module Names {
  import opened Basics

  /** A Unicode code point; a surrogate is one when it is unpaired. */
  type Point = c: nat | c < 0x110000

  type Text = seq<Point>

  /** The Unicode tables: Cc and Cf, what `trim` removes, and NFC. */
  datatype Unicode = Unicode(hidden: Point -> bool, white: Point -> bool, nfc: Text -> Text)

  predicate High(c: nat) { 0xD800 <= c < 0xDC00 }

  predicate Low(c: nat) { 0xDC00 <= c < 0xE000 }

  function Paired(high: Point, low: Point): Point
    requires High(high) && Low(low)
  {
    0x10000 + (high - 0xD800) * 0x400 + (low - 0xDC00)
  }

  /** Every JavaScript string reads as one of these. */
  predicate Stable(s: Text) {
    forall i :: 0 <= i < |s| - 1 ==> !(High(s[i]) && Low(s[i + 1]))
  }

  /** Unpaired surrogates. */
  function Lone(s: Text): nat {
    if s == [] then 0 else Lone(s[..|s| - 1]) + if High(s[|s| - 1]) || Low(s[|s| - 1]) then 1 else 0
  }

  predicate Shown(u: Unicode, s: Text) {
    forall i :: 0 <= i < |s| ==> !u.hidden(s[i])
  }

  predicate NoControls(s: Text) {
    forall i :: 0 <= i < |s| ==> s[i] >= 0x20
  }

  predicate Separator(c: nat) {
    c == '/' as nat || c == '\\' as nat
  }

  predicate NoSeparators(s: Text) {
    forall i :: 0 <= i < |s| ==> !Separator(s[i])
  }

  predicate Letter(c: nat) {
    'A' as nat <= c <= 'Z' as nat || 'a' as nat <= c <= 'z' as nat
  }

  /** Controls, format characters and separators have no decomposition, are in none, and compose with nothing. */
  ghost predicate Splits(u: Unicode, a: Text, h: Point, b: Text) {
    (u.hidden(h) || Separator(h)) && Stable(a + [h] + b) ==> u.nfc(a + [h] + b) == u.nfc(a) + [h] + u.nfc(b)
  }

  /** The facts about Unicode (UAX #15 for NFC) the sanitizer rests on. */
  ghost predicate Laws(u: Unicode) {
    && (forall s: Text :: u.nfc(u.nfc(s)) == u.nfc(s))
    && (forall s: Text, t: Text :: u.nfc(s) == s && Infix(t, s) ==> u.nfc(t) == t)
    && (forall s: Text :: Stable(s) ==> Stable(u.nfc(s)) && Lone(u.nfc(s)) <= Lone(s))
    && (forall s: Text :: (Shown(u, s) ==> Shown(u, u.nfc(s))) && (NoControls(s) ==> NoControls(u.nfc(s))))
    && (forall s: Text :: NoSeparators(s) ==> NoSeparators(u.nfc(s)))
    && (forall a: Text, h: Point, b: Text :: Splits(u, a, h, b))
    && (forall c: Point :: c < 0x20 ==> u.hidden(c))
    && (forall c: Point :: 'a' as nat <= c <= 'z' as nat ==> !u.hidden(c) && !u.white(c))
    && (forall c: Point :: Letter(c) || Separator(c) || c >= 0x10000 ==> !u.white(c))
    && (forall c: Point :: Separator(c) ==> !u.hidden(c))
    && u.nfc(FALLBACK) == FALLBACK
  }

  /** The laws can be met: here with no composition at all. */
  lemma PlainUnicode() returns (u: Unicode)
    ensures Laws(u)
  {
    hide Infix, Stable, Lone, Shown, NoControls, NoSeparators;
    u := Unicode(c => c < 0x20, c => c == 32, s => s);
    forall a: Text, h: Point, b: Text
      ensures Splits(u, a, h, b)
    {
    }
  }

  // ------------------------------------------------------------------ the steps

  /** Appends a code point as a string does: a low surrogate completes a high one. */
  function Push(s: Text, c: Point): Text {
    if s != [] && High(s[|s| - 1]) && Low(c) then s[..|s| - 1] + [Paired(s[|s| - 1], c)] else s + [c]
  }

  /** `replace(FORMAT_AND_CONTROL, '')`, read again. */
  function Strip(u: Unicode, s: Text): Text {
    if s == [] then []
    else if u.hidden(s[|s| - 1]) then Strip(u, s[..|s| - 1])
    else Push(Strip(u, s[..|s| - 1]), s[|s| - 1])
  }

  function TrimStart(u: Unicode, s: Text): (r: Text)
    ensures |r| <= |s|
  {
    if s != [] && u.white(s[0]) then TrimStart(u, s[1..]) else s
  }

  function TrimEnd(u: Unicode, s: Text): (r: Text)
    ensures |r| <= |s|
  {
    if s != [] && u.white(s[|s| - 1]) then TrimEnd(u, s[..|s| - 1]) else s
  }

  /** What follows the last separator. */
  function Basename(s: Text): (r: Text)
    ensures |r| <= |s|
  {
    if s == [] || Separator(s[|s| - 1]) then [] else Basename(s[..|s| - 1]) + [s[|s| - 1]]
  }

  lemma {:induction false} TrimStartIs(u: Unicode, s: Text)
    ensures var r := TrimStart(u, s); (r == [] || !u.white(r[0])) && r == s[|s| - |r|..]
  {
    if s != [] && u.white(s[0]) {
      TrimStartIs(u, s[1..]);
    }
  }

  lemma {:induction false} TrimEndIs(u: Unicode, s: Text)
    ensures var r := TrimEnd(u, s); (r == [] || !u.white(r[|r| - 1])) && r == s[..|r|]
  {
    if s != [] && u.white(s[|s| - 1]) {
      TrimEndIs(u, s[..|s| - 1]);
    }
  }

  lemma {:induction false} BasenameIs(s: Text)
    ensures var r := Basename(s); NoSeparators(r) && r == s[|s| - |r|..]
  {
    if s != [] && !Separator(s[|s| - 1]) {
      BasenameIs(s[..|s| - 1]);
    }
  }

  /** The three cuts of one pass, as positions. */
  lemma CutsAre(u: Unicode, s: Text)
    ensures var a := TrimStart(u, s); var b := TrimEnd(u, a); var c := Basename(b);
      && a == s[|s| - |a|..] && b == a[..|b|] && c == b[|b| - |c|..]
      && (a == [] || !u.white(a[0])) && (b == [] || !u.white(b[|b| - 1])) && NoSeparators(c)
  {
    hide TrimStart, TrimEnd, Basename, NoSeparators;
    var a := TrimStart(u, s);
    var b := TrimEnd(u, a);
    TrimStartIs(u, s);
    TrimEndIs(u, a);
    BasenameIs(b);
  }

  predicate HasDrive(s: Text) {
    |s| >= 2 && Letter(s[0]) && s[1] == ':' as nat
  }

  function DropDrive(s: Text): Text {
    if HasDrive(s) then s[2..] else s
  }

  /** A contiguous stretch of a string. */
  ghost predicate Infix(a: Text, b: Text) {
    exists i: nat, j: nat :: i <= j <= |b| && a == b[i..j]
  }

  lemma SliceOfSlice(s: Text, k: nat, l: nat, i: nat, j: nat)
    requires k <= l <= |s| && i <= j <= l - k
    ensures s[k..l][i..j] == s[k + i..k + j]
  {
    var a, b := s[k..l][i..j], s[k + i..k + j];
    assert |a| == |b|;
    forall x | 0 <= x < |a|
      ensures a[x] == b[x]
    {
      assert a[x] == s[k..l][i + x] == s[k + (i + x)];
    }
  }

  lemma InfixTrans(a: Text, b: Text, c: Text)
    requires Infix(a, b) && Infix(b, c)
    ensures Infix(a, c)
  {
    var i: nat, j: nat :| i <= j <= |b| && a == b[i..j];
    var k: nat, l: nat :| k <= l <= |c| && b == c[k..l];
    SliceOfSlice(c, k, l, i, j);
    assert a == c[k + i..k + j];
  }

  lemma EndsAreInfix(s: Text, n: nat)
    requires n <= |s|
    ensures Infix(s[n..], s) && Infix(s[..n], s) && Infix(s, s)
  {
    assert s[n..] == s[n..|s|] && s[..n] == s[0..n] && s == s[0..|s|];
  }

  function CollapseOnce(u: Unicode, s: Text): Text {
    DropDrive(Basename(TrimEnd(u, TrimStart(u, s))))
  }

  lemma OnceIsInfix(u: Unicode, s: Text)
    ensures Infix(CollapseOnce(u, s), s)
  {
    hide Infix, TrimStart, TrimEnd, Basename;
    CutsAre(u, s);
    var a := TrimStart(u, s);
    var b := TrimEnd(u, a);
    var c := Basename(b);
    EndsAreInfix(s, |s| - |a|);
    EndsAreInfix(a, |b|);
    EndsAreInfix(b, |b| - |c|);
    EndsAreInfix(c, if HasDrive(c) then 2 else 0);
    InfixTrans(b, a, s);
    InfixTrans(c, b, s);
    InfixTrans(DropDrive(c), c, s);
  }

  /** Trimmed, without a separator, without a drive: nothing is left to uncover. */
  predicate Clean(u: Unicode, s: Text) {
    && (s == [] || (!u.white(s[0]) && !u.white(s[|s| - 1])))
    && NoSeparators(s) && !HasDrive(s)
  }

  lemma OnceShrinks(u: Unicode, s: Text)
    ensures |CollapseOnce(u, s)| <= |s|
    ensures |CollapseOnce(u, s)| == |s| ==> CollapseOnce(u, s) == s && Clean(u, s)
  {
    hide TrimStart, TrimEnd, Basename;
    CutsAre(u, s);
    var a := TrimStart(u, s);
    var b := TrimEnd(u, a);
    var c := Basename(b);
    if |DropDrive(c)| == |s| {
      assert a == s[0..] == s;
      assert b == a[..|a|] == s;
      assert c == b[0..] == s;
    }
  }

  lemma CleanIsFixed(u: Unicode, s: Text)
    ensures CollapseOnce(u, s) == s <==> Clean(u, s)
    ensures |CollapseOnce(u, s)| <= |s| && (CollapseOnce(u, s) != s ==> |CollapseOnce(u, s)| < |s|)
  {
    hide TrimStart, TrimEnd, Basename;
    OnceShrinks(u, s);
    NoSeparator(s);
    TrimmedAlready(u, s);
  }

  lemma TrimmedAlready(u: Unicode, s: Text)
    ensures s == [] || !u.white(s[0]) ==> TrimStart(u, s) == s
    ensures s == [] || !u.white(s[|s| - 1]) ==> TrimEnd(u, s) == s
  {
  }

  lemma {:induction false} NoSeparator(s: Text)
    ensures NoSeparators(s) ==> Basename(s) == s
  {
    if s != [] {
      NoSeparator(s[..|s| - 1]);
    }
  }

  /** `collapseToBasename`: the three rules until nothing changes. */
  function Collapse(u: Unicode, s: Text): Text
    decreases |s|
  {
    CleanIsFixed(u, s);
    if CollapseOnce(u, s) == s then s else Collapse(u, CollapseOnce(u, s))
  }

  lemma {:induction false} CollapseIsClean(u: Unicode, s: Text)
    ensures Clean(u, Collapse(u, s)) && Infix(Collapse(u, s), s)
    decreases |s|
  {
    hide Infix, CollapseOnce;
    CleanIsFixed(u, s);
    EndsAreInfix(s, 0);
    if CollapseOnce(u, s) != s {
      CollapseIsClean(u, CollapseOnce(u, s));
      OnceIsInfix(u, s);
      InfixTrans(Collapse(u, s), CollapseOnce(u, s), s);
    }
  }

  method CollapseToBasename(u: Unicode, raw: Text) returns (value: Text)
    ensures value == Collapse(u, raw)
  {
    hide CollapseOnce;
    value := CollapseOnce(u, raw);
    var previous := raw;
    CleanIsFixed(u, raw);
    while value != previous
      invariant value == CollapseOnce(u, previous) && |value| <= |previous| && (value != previous ==> |value| < |previous|)
      invariant Collapse(u, previous) == Collapse(u, raw)
      decreases |previous|
    {
      previous := value;
      value := CollapseOnce(u, value);
      CleanIsFixed(u, previous);
    }
  }

  // ------------------------------------------------------------------- truncation

  /** Bytes of one code point in UTF-8; an unpaired surrogate is written as U+FFFD. */
  function PointBytes(c: nat): nat {
    if c < 0x80 then 1 else if c < 0x800 then 2 else if c < 0x10000 then 3 else 4
  }

  function Utf8Length(s: Text): nat {
    if s == [] then 0 else Utf8Length(s[..|s| - 1]) + PointBytes(s[|s| - 1])
  }

  lemma {:induction false} Utf8LengthGrows(s: Text, n: nat)
    requires n <= |s|
    ensures Utf8Length(s[..n]) <= Utf8Length(s)
    decreases |s|
  {
    if n < |s| {
      Utf8LengthGrows(s[..|s| - 1], n);
      assert s[..|s| - 1][..n] == s[..n];
    } else {
      assert s[..n] == s;
    }
  }

  /** The longest prefix, in whole code points, that fits. */
  predicate FitsLongest(s: Text, r: Text, maxBytes: nat) {
    && r <= s && Utf8Length(r) <= maxBytes
    && forall n :: |r| < n <= |s| ==> Utf8Length(s[..n]) > maxBytes
  }

  lemma LongestIsUnique(s: Text, a: Text, b: Text, maxBytes: nat)
    requires FitsLongest(s, a, maxBytes) && FitsLongest(s, b, maxBytes)
    ensures a == b
  {
    assert a == s[..|a|] && b == s[..|b|];
  }

  method TruncateToBytes(value: Text, maxBytes: nat) returns (out: Text)
    ensures FitsLongest(value, out, maxBytes)
  {
    if Utf8Length(value) <= maxBytes {
      return value;
    }
    out := [];
    var used := 0;
    var i := 0;
    while i < |value|
      invariant i <= |value| && out == value[..i] && used == Utf8Length(out) <= maxBytes
    {
      var size := PointBytes(value[i]);
      assert value[..i + 1][..i] == value[..i];
      if used + size > maxBytes {
        forall n | i < n <= |value|
          ensures Utf8Length(value[..n]) > maxBytes
        {
          Utf8LengthGrows(value[..n], i + 1);
          assert value[..n][..i + 1] == value[..i + 1];
        }
        return;
      }
      out := out + [value[i]];
      used := used + size;
      i := i + 1;
    }
  }

  function Truncate(s: Text, maxBytes: nat): Text {
    if Utf8Length(s) <= maxBytes then s else Truncate(s[..|s| - 1], maxBytes)
  }

  lemma {:induction false} TruncateFits(s: Text, maxBytes: nat)
    ensures FitsLongest(s, Truncate(s, maxBytes), maxBytes)
  {
    if Utf8Length(s) > maxBytes {
      TruncateFits(s[..|s| - 1], maxBytes);
      var r := Truncate(s, maxBytes);
      assert forall n :: |r| < n <= |s| - 1 ==> s[..|s| - 1][..n] == s[..n];
      assert s[..|s|] == s;
    }
  }

  // ----------------------------------------------------------------- the sanitizer

  const MAX_FILE_NAME_BYTES: nat := 255

  // "unnamed"
  const FALLBACK: Text := [117, 110, 110, 97, 109, 101, 100]

  // "." and ".."
  const DOT: Text := [46]
  const DOT_DOT: Text := [46, 46]

  function Named(s: Text): Text {
    if s == [] || s == DOT || s == DOT_DOT then FALLBACK else s
  }

  /** `sanitizeFileName`. */
  function Sanitize(u: Unicode, raw: Text): Text {
    Named(TrimEnd(u, Truncate(Collapse(u, u.nfc(Strip(u, raw))), MAX_FILE_NAME_BYTES)))
  }

  method SanitizeFileName(u: Unicode, raw: Text) returns (value: Text)
    ensures value == Sanitize(u, raw)
  {
    value := CollapseToBasename(u, u.nfc(Strip(u, raw)));
    ghost var collapsed := value;
    value := TruncateToBytes(value, MAX_FILE_NAME_BYTES);
    TruncateFits(collapsed, MAX_FILE_NAME_BYTES);
    LongestIsUnique(collapsed, value, Truncate(collapsed, MAX_FILE_NAME_BYTES), MAX_FILE_NAME_BYTES);
    value := TrimEnd(u, value);
    if value == [] || value == DOT || value == DOT_DOT {
      return FALLBACK;
    }
  }

  // -------------------------------------------------------------- the fixed point

  lemma {:induction false} StripIsStable(u: Unicode, s: Text)
    ensures Stable(Strip(u, s))
  {
    if s != [] {
      StripIsStable(u, s[..|s| - 1]);
    }
  }

  lemma {:induction false} StripKeepsShown(u: Unicode, s: Text)
    requires Stable(s) && Shown(u, s)
    ensures Strip(u, s) == s
  {
    if s != [] {
      var front := s[..|s| - 1];
      StripKeepsShown(u, front);
      assert front != [] ==> !(High(s[|s| - 2]) && Low(s[|s| - 2 + 1]));
      assert s == front + [s[|s| - 1]];
    }
  }

  /** A hidden character can only come out of a strip by two unpaired surrogates meeting. */
  lemma {:induction false} StripPairs(u: Unicode, s: Text)
    ensures Lone(Strip(u, s)) <= Lone(s)
    ensures !Shown(u, Strip(u, s)) ==> Lone(Strip(u, s)) < Lone(s)
  {
    if s != [] {
      var front, c := s[..|s| - 1], s[|s| - 1];
      StripPairs(u, front);
      if !u.hidden(c) {
        PushLone(u, Strip(u, front), c);
      }
    }
  }

  lemma PushLone(u: Unicode, s: Text, c: Point)
    requires !u.hidden(c)
    ensures Lone(Push(s, c)) <= Lone(s) + if High(c) || Low(c) then 1 else 0
    ensures !Shown(u, Push(s, c)) && Shown(u, s) ==> Lone(Push(s, c)) < Lone(s) + if High(c) || Low(c) then 1 else 0
  {
    if s != [] && High(s[|s| - 1]) && Low(c) {
      var front, pair := s[..|s| - 1], Paired(s[|s| - 1], c);
      assert (front + [pair])[..|front|] == front;
    } else {
      assert (s + [c])[..|s|] == s;
    }
  }

  lemma {:induction false} LoneOfPrefix(s: Text, n: nat)
    requires n <= |s|
    ensures Lone(s[..n]) <= Lone(s)
    decreases |s|
  {
    if n < |s| {
      LoneOfPrefix(s[..|s| - 1], n);
      assert s[..|s| - 1][..n] == s[..n];
    } else {
      assert s[..n] == s;
    }
  }

  lemma {:induction false} LoneOfSuffix(s: Text, n: nat)
    requires n <= |s|
    ensures Lone(s[n..]) <= Lone(s)
    decreases |s|
  {
    if n < |s| {
      LoneOfSuffix(s[..|s| - 1], n);
      assert s[..|s| - 1][n..] == s[n..][..|s| - n - 1];
    }
  }

  lemma OfInfix(u: Unicode, a: Text, b: Text)
    requires Infix(a, b)
    ensures Stable(b) ==> Stable(a)
    ensures Shown(u, b) ==> Shown(u, a)
    ensures Lone(a) <= Lone(b)
  {
    var i: nat, j: nat :| i <= j <= |b| && a == b[i..j];
    LoneOfPrefix(b, j);
    LoneOfSuffix(b[..j], i);
    assert b[..j][i..] == a;
    if Stable(b) {
      forall k | 0 <= k < |a| - 1
        ensures !(High(a[k]) && Low(a[k + 1]))
      {
        assert !(High(b[i + k]) && Low(b[i + k + 1]));
      }
    }
  }

  lemma CleanPrefix(u: Unicode, s: Text, n: nat)
    requires Clean(u, s) && n <= |s| && (n > 0 ==> !u.white(s[n - 1]))
    ensures Clean(u, s[..n])
  {
  }

  /** The name before the fallback is a stretch of the normalized, stripped input, and already canonical otherwise. */
  lemma BeforeFallback(u: Unicode, raw: Text)
    ensures var e := TrimEnd(u, Truncate(Collapse(u, u.nfc(Strip(u, raw))), MAX_FILE_NAME_BYTES));
      && Sanitize(u, raw) == Named(e) && Infix(e, u.nfc(Strip(u, raw)))
      && Clean(u, e) && Utf8Length(e) <= MAX_FILE_NAME_BYTES
  {
    hide Infix, Collapse, Truncate, TrimEnd, Strip, Clean, Utf8Length;
    var n := u.nfc(Strip(u, raw));
    var c := Collapse(u, n);
    var t := Truncate(c, MAX_FILE_NAME_BYTES);
    var e := TrimEnd(u, t);
    CollapseIsClean(u, n);
    TruncateFits(c, MAX_FILE_NAME_BYTES);
    TrimEndIs(u, t);
    EndsAreInfix(c, |t|);
    EndsAreInfix(t, |e|);
    InfixTrans(e, t, c);
    InfixTrans(e, c, n);
    Utf8LengthGrows(t, |e|);
    assert e == c[..|e|];
    CleanPrefix(u, c, |e|);
  }

  /** Everything a second pass looks at. */
  predicate Canonical(u: Unicode, v: Text) {
    && Stable(v) && Shown(u, v) && u.nfc(v) == v && Clean(u, v) && Utf8Length(v) <= MAX_FILE_NAME_BYTES
    && v != [] && v != DOT && v != DOT_DOT
  }

  lemma CanonicalIsFixed(u: Unicode, v: Text)
    requires Canonical(u, v)
    ensures Sanitize(u, v) == v
  {
    StripKeepsShown(u, v);
    CleanIsFixed(u, v);
    TrimmedAlready(u, v);
    hide Strip, TrimEnd;
    assert Collapse(u, v) == v;
    assert Truncate(v, MAX_FILE_NAME_BYTES) == v;
  }

  lemma FallbackIsCanonical(u: Unicode)
    requires Laws(u)
    ensures Canonical(u, FALLBACK)
  {
    assert forall i :: 0 <= i < |FALLBACK| ==> 'a' as nat <= FALLBACK[i] <= 'z' as nat;
    assert Utf8Length(FALLBACK) <= 7 by {
      Utf8Ascii(FALLBACK);
    }
  }

  /** Whatever goes in, a string comes out. */
  lemma SanitizedIsStable(u: Unicode, raw: Text)
    requires Laws(u)
    ensures Stable(Sanitize(u, raw))
  {
    hide Infix, Clean, Sanitize, Strip, Truncate, Collapse, TrimEnd, Stable;
    BeforeFallback(u, raw);
    StripIsStable(u, raw);
    FallbackIsCanonical(u);
    OfInfix(u, TrimEnd(u, Truncate(Collapse(u, u.nfc(Strip(u, raw))), MAX_FILE_NAME_BYTES)), u.nfc(Strip(u, raw)));
  }

  lemma {:induction false} Utf8Ascii(s: Text)
    requires forall i :: 0 <= i < |s| ==> s[i] < 0x80
    ensures Utf8Length(s) == |s|
  {
    if s != [] {
      Utf8Ascii(s[..|s| - 1]);
    }
  }

  /**
   * The sanitizer's result is a fixed point exactly when no hidden character is
   * in it. One can be: stripping what stood between two unpaired surrogates may
   * join them into a format character that only the next pass removes.
   */
  lemma FixedPointIffNothingHidden(u: Unicode, raw: Text)
    requires Laws(u)
    ensures Sanitize(u, Sanitize(u, raw)) == Sanitize(u, raw) <==> Shown(u, Sanitize(u, raw))
  {
    hide Infix, Clean, Sanitize, Strip;
    var v, n := Sanitize(u, raw), u.nfc(Strip(u, raw));
    BeforeFallback(u, raw);
    StripIsStable(u, raw);
    FallbackIsCanonical(u);
    var e := TrimEnd(u, Truncate(Collapse(u, n), MAX_FILE_NAME_BYTES));
    OfInfix(u, e, n);
    if Shown(u, v) {
      assert Canonical(u, v);
      CanonicalIsFixed(u, v);
    } else {
      SecondPassDiffers(u, v);
    }
  }

  lemma SecondPassDiffers(u: Unicode, v: Text)
    requires Laws(u) && !Shown(u, v)
    ensures Sanitize(u, v) != v
  {
    hide Infix, Clean, Sanitize, Strip;
    var n := u.nfc(Strip(u, v));
    BeforeFallback(u, v);
    StripIsStable(u, v);
    StripPairs(u, v);
    FallbackIsCanonical(u);
    var e := TrimEnd(u, Truncate(Collapse(u, n), MAX_FILE_NAME_BYTES));
    OfInfix(u, e, n);
  }

  /** Every name without unpaired surrogates, which is every name a browser reports, sanitizes to a fixed point. */
  lemma FixedPointForWellFormed(u: Unicode, raw: Text)
    requires Laws(u) && Lone(raw) == 0
    ensures Sanitize(u, Sanitize(u, raw)) == Sanitize(u, raw)
  {
    hide Infix, Clean, Sanitize, Strip, Truncate, Collapse, TrimEnd;
    var n := u.nfc(Strip(u, raw));
    StripPairs(u, raw);
    BeforeFallback(u, raw);
    FallbackIsCanonical(u);
    OfInfix(u, TrimEnd(u, Truncate(Collapse(u, n), MAX_FILE_NAME_BYTES)), n);
    FixedPointIffNothingHidden(u, raw);
  }

  // U+DB40 and U+DC01, apart, with a zero width space between them; together they are U+E0001, a format character.
  const SPLIT_TAG: Text := [0xDB40, 0x200B, 0xDC01]
  const TAG: Text := [0xE0001]

  lemma StripSplitTag(u: Unicode)
    requires u.hidden(0x200B) && u.hidden(0xE0001) && !u.hidden(0xDB40) && !u.hidden(0xDC01)
    ensures Strip(u, SPLIT_TAG) == TAG && Strip(u, TAG) == []
  {
    var a, b := SPLIT_TAG[..2], SPLIT_TAG[..1];
    assert a[..1] == b && b[..0] == [] && SPLIT_TAG[..|SPLIT_TAG| - 1] == a && TAG[..0] == [];
    assert Strip(u, b) == [0xDB40];
    assert Strip(u, a) == [0xDB40];
  }

  lemma TagIsKept(u: Unicode)
    requires !u.white(0xE0001)
    ensures TrimEnd(u, Truncate(Collapse(u, TAG), MAX_FILE_NAME_BYTES)) == TAG
  {
    hide TrimEnd, CollapseOnce;
    CleanIsFixed(u, TAG);
    TrimmedAlready(u, TAG);
    assert TAG[..0] == [];
    assert Utf8Length(TAG) == 4;
  }

  lemma NothingIsKept(u: Unicode)
    ensures TrimEnd(u, Truncate(Collapse(u, []), MAX_FILE_NAME_BYTES)) == []
  {
    hide TrimEnd, CollapseOnce;
    CleanIsFixed(u, []);
    TrimmedAlready(u, []);
  }

  /** The input that shows it: one pass gives a format character, the next gives `unnamed`. */
  lemma SplitTagIsNotFixed(u: Unicode)
    requires Laws(u) && u.hidden(0x200B) && u.hidden(0xE0001) && !u.hidden(0xDB40) && !u.hidden(0xDC01)
    requires !u.white(0xE0001) && u.nfc(TAG) == TAG && u.nfc([]) == []
    ensures Stable(SPLIT_TAG) && Sanitize(u, SPLIT_TAG) == TAG && Sanitize(u, TAG) == FALLBACK
  {
    hide Strip, TrimEnd, Truncate, Collapse, Infix, Laws;
    StripSplitTag(u);
    TagIsKept(u);
    NothingIsKept(u);
    assert TAG[0] != DOT[0];
  }
}
