/**
 * The filename sanitizer's Python twin in drop/spool.py: the same rules over the
 * same tables, but the length cap cuts bytes (UTF-8, RFC 3629 section 3) and
 * drops the partial character that is left.
 */
module Labels {
  import opened Names
  import opened Json
  import opened Utf8

  /** `encode('utf-8', errors='ignore')` passes over surrogates. */
  function Encodable(s: Text): Text {
    if s == [] then []
    else Encodable(s[..|s| - 1]) + if High(s[|s| - 1]) || Low(s[|s| - 1]) then [] else [s[|s| - 1]]
  }

  lemma {:induction false} EncodableWhenClean(s: Text)
    requires NoSurrogates(s)
    ensures Encodable(s) == s
  {
    if s != [] {
      EncodableWhenClean(s[..|s| - 1]);
      assert s == s[..|s| - 1] + [s[|s| - 1]];
    }
  }

  /** `_truncate_bytes`. */
  function CutBytes(s: Text, limit: nat): Text {
    var encoded := Encoded(Encodable(s));
    if |encoded| <= limit then s else DecodeIgnoring(encoded[..limit])
  }

  /** Cutting bytes and dropping the partial character keeps exactly the whole characters that fit. */
  lemma CutIsTruncate(s: Text, limit: nat)
    requires NoSurrogates(s)
    ensures CutBytes(s, limit) == Truncate(s, limit)
  {
    hide Sequence, Encoded, DecodeIgnoring, Utf8Length, Truncate, Encodable;
    EncodableWhenClean(s);
    Utf8Bytes(s);
    TruncateFits(s, limit);
    var kept := Truncate(s, limit);
    TruncateAll(s, limit);
    if Utf8Length(s) > limit {
      var k := |kept|;
      var rest := s[k..];
      assert s == kept + rest && s[..k] == kept;
      assert rest == [] ==> kept == s;
      Utf8Concat(kept, rest);
      Utf8Bytes(kept);
      NextDoesNotFit(s, k, limit);
      var n := limit - Utf8Length(kept);
      Utf8First(rest);
      PartIsIgnored(rest[0], n);
      assert Encoded(s)[..limit] == Encoded(kept) + Sequence(rest[0])[..n];
      WholeReads(kept, Sequence(rest[0])[..n]);
    }
  }

  lemma TruncateAll(s: Text, limit: nat)
    ensures Utf8Length(s) <= limit ==> Truncate(s, limit) == s
  {
  }

  lemma Utf8First(s: Text)
    requires NoSurrogates(s) && s != []
    ensures Encoded(s) == Sequence(s[0]) + Encoded(s[1..])
  {
  }

  lemma NextDoesNotFit(s: Text, k: nat, limit: nat)
    requires k < |s| && FitsLongest(s, s[..k], limit)
    ensures Utf8Length(s[..k]) <= limit < Utf8Length(s[..k]) + PointBytes(s[k])
  {
    assert s[..k + 1][..k] == s[..k];
  }

  // ---------------------------------------------------------------------- the twin

  /** Python's `str.strip` on what is left once controls are out. */
  function PythonView(u: Unicode, pyWhite: Point -> bool): Unicode {
    u.(white := pyWhite)
  }

  /** Controls, format characters and surrogates go; nothing is left that could join. */
  function Visible(u: Unicode, s: Text): Text {
    if s == [] then []
    else Visible(u, s[..|s| - 1]) + if u.hidden(s[|s| - 1]) || High(s[|s| - 1]) || Low(s[|s| - 1]) then [] else [s[|s| - 1]]
  }

  /** `sanitize_label`. */
  function SanitizeLabel(u: Unicode, pyWhite: Point -> bool, raw: Text): Text {
    var py := PythonView(u, pyWhite);
    Named(TrimEnd(py, CutBytes(Collapse(py, u.nfc(Visible(u, raw))), MAX_FILE_NAME_BYTES)))
  }

  lemma {:induction false} VisibleIsStrip(u: Unicode, s: Text)
    requires NoSurrogates(s)
    ensures Visible(u, s) == Strip(u, s) && NoSurrogates(Strip(u, s)) && Shown(u, Strip(u, s))
  {
    if s != [] {
      VisibleIsStrip(u, s[..|s| - 1]);
    }
  }

  /** The two languages' white space differs only in controls and format characters. */
  ghost predicate WhiteAgrees(u: Unicode, pyWhite: Point -> bool) {
    forall c: Point :: !u.hidden(c) ==> (u.white(c) <==> pyWhite(c))
  }

  lemma {:induction false} TrimsAgree(u: Unicode, pyWhite: Point -> bool, s: Text)
    requires WhiteAgrees(u, pyWhite) && Shown(u, s)
    ensures TrimStart(u, s) == TrimStart(PythonView(u, pyWhite), s) && TrimEnd(u, s) == TrimEnd(PythonView(u, pyWhite), s)
    decreases |s|
  {
    if s != [] {
      TrimsAgree(u, pyWhite, s[1..]);
      TrimsAgree(u, pyWhite, s[..|s| - 1]);
    }
  }

  lemma {:induction false} CollapsesAgree(u: Unicode, pyWhite: Point -> bool, s: Text)
    requires WhiteAgrees(u, pyWhite) && Shown(u, s)
    ensures Collapse(u, s) == Collapse(PythonView(u, pyWhite), s)
    decreases |s|
  {
    hide TrimStart, TrimEnd, Basename, DropDrive, Shown, Infix;
    var py := PythonView(u, pyWhite);
    var a := TrimStart(u, s);
    TrimsAgree(u, pyWhite, s);
    TrimStartIs(u, s);
    EndsAreInfix(s, |s| - |a|);
    OfInfix(u, a, s);
    TrimsAgree(u, pyWhite, a);
    CleanIsFixed(u, s);
    CleanIsFixed(py, s);
    OnceIsInfix(u, s);
    OfInfix(u, CollapseOnce(u, s), s);
    if CollapseOnce(u, s) != s {
      CollapsesAgree(u, pyWhite, CollapseOnce(u, s));
    }
  }

  /** On every name without surrogates the two sanitizers give the same label. */
  lemma LabelIsFileName(u: Unicode, pyWhite: Point -> bool, raw: Text)
    requires Laws(u) && WhiteAgrees(u, pyWhite) && NoSurrogates(raw)
    ensures SanitizeLabel(u, pyWhite, raw) == Sanitize(u, raw)
  {
    hide Collapse, Strip, Truncate, TrimEnd, CutBytes, Shown, Infix, Visible, NoSurrogates;
    var n := u.nfc(Strip(u, raw));
    VisibleIsStrip(u, raw);
    NormalizedIsClean(u, Strip(u, raw));
    CollapsesAgree(u, pyWhite, n);
    CollapseIsClean(u, n);
    var c := Collapse(u, n);
    CleanOfInfix(c, n);
    OfInfix(u, c, n);
    CutIsTruncate(c, MAX_FILE_NAME_BYTES);
    TruncateFits(c, MAX_FILE_NAME_BYTES);
    EndsAreInfix(c, |Truncate(c, MAX_FILE_NAME_BYTES)|);
    OfInfix(u, Truncate(c, MAX_FILE_NAME_BYTES), c);
    TrimsAgree(u, pyWhite, Truncate(c, MAX_FILE_NAME_BYTES));
  }

  lemma {:induction false} NoneLone(s: Text)
    ensures Lone(s) == 0 <==> NoSurrogates(s)
  {
    if s != [] {
      NoneLone(s[..|s| - 1]);
    }
  }

  lemma NormalizedIsClean(u: Unicode, s: Text)
    requires Laws(u) && NoSurrogates(s)
    ensures NoSurrogates(u.nfc(s))
  {
    hide Lone;
    NoneLone(s);
    NoneLone(u.nfc(s));
    assert Stable(s);
  }

  lemma CleanOfInfix(a: Text, b: Text)
    requires Infix(a, b) && NoSurrogates(b)
    ensures NoSurrogates(a)
  {
    var i: nat, j: nat :| i <= j <= |b| && a == b[i..j];
    assert forall k :: 0 <= k < |a| ==> a[k] == b[i + k];
  }
}
