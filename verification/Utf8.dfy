/**
 * UTF-8 (RFC 3629 section 3): what TextEncoder writes, what the strict TextDecoder
 * reads back, and what Python's decoder makes of bytes that were cut anywhere.
 */
module Utf8 {
  import opened Basics
  import opened Names
  import opened Json

  const REPLACEMENT: Point := 0xFFFD
  const BYTE_ORDER_MARK: Point := 0xFEFF

  /** The bytes of one code point. */
  function Sequence(c: Point): Bytes {
    if c < 0x80 then [c as byte]
    else if c < 0x800 then [(0xC0 + c / 64) as byte, (0x80 + c % 64) as byte]
    else if c < 0x10000 then [(0xE0 + c / 4096) as byte, (0x80 + c / 64 % 64) as byte, (0x80 + c % 64) as byte]
    else [(0xF0 + c / 262144) as byte, (0x80 + c / 4096 % 64) as byte, (0x80 + c / 64 % 64) as byte, (0x80 + c % 64) as byte]
  }

  /** An unpaired surrogate has no bytes of its own and is written as U+FFFD. */
  function Scalar(c: Point): Point {
    if High(c) || Low(c) then REPLACEMENT else c
  }

  /** `TextEncoder.encode`. */
  function Encoded(s: Text): Bytes {
    if s == [] then [] else Sequence(Scalar(s[0])) + Encoded(s[1..])
  }

  predicate Continues(b: byte) {
    0x80 <= b < 0xC0
  }

  /** How long a sequence this byte starts. */
  function Needs(b: byte): nat {
    if b < 0x80 then 1 else if 0xC0 <= b < 0xE0 then 2 else if 0xE0 <= b < 0xF0 then 3 else if 0xF0 <= b < 0xF8 then 4 else 0
  }

  /** The code point a whole sequence stands for; overlong forms, surrogates and what lies beyond Unicode are none. */
  function PointOf(b: Bytes): Option<Point>
    requires 1 <= |b| <= 4
  {
    if |b| > 1 && exists i :: 1 <= i < |b| && !Continues(b[i]) then None
    else
      var c: int := if |b| == 1 then b[0] as int
        else if |b| == 2 then (b[0] as int - 0xC0) * 64 + b[1] as int - 0x80
        else if |b| == 3 then (b[0] as int - 0xE0) * 4096 + (b[1] as int - 0x80) * 64 + b[2] as int - 0x80
        else (b[0] as int - 0xF0) * 262144 + (b[1] as int - 0x80) * 4096 + (b[2] as int - 0x80) * 64 + b[3] as int - 0x80;
      if 0 <= c < 0x110000 && !High(c) && !Low(c) && PointBytes(c) == |b| then Some(c) else None
  }

  /** A decoder that stops at the first byte that starts nothing. */
  function DecodeAll(b: Bytes): Option<Text> {
    if b == [] then Some([])
    else
      var n := Needs(b[0]);
      if !(1 <= n <= |b|) || PointOf(b[..n]).None? then None
      else
        match DecodeAll(b[n..])
        case None => None
        case Some(rest) => Some([PointOf(b[..n]).value] + rest)
  }

  /** `new TextDecoder('utf-8', { fatal: true })`: a leading byte order mark is dropped. */
  function DecodeStrict(b: Bytes): Option<Text> {
    match DecodeAll(b)
    case None => None
    case Some(s) => Some(if s != [] && s[0] == BYTE_ORDER_MARK then s[1..] else s)
  }

  /** `decode('utf-8', errors='ignore')`: bytes that start nothing are passed over. */
  function DecodeIgnoring(b: Bytes): Text {
    if b == [] then []
    else
      var n := Needs(b[0]);
      if 1 <= n <= |b| && PointOf(b[..n]).Some? then [PointOf(b[..n]).value] + DecodeIgnoring(b[n..]) else DecodeIgnoring(b[1..])
  }

  lemma EncodeIs(c: Point)
    ensures var e := Sequence(c); |e| == PointBytes(c) && Needs(e[0]) == |e| && forall i :: 1 <= i < |e| ==> Continues(e[i])
  {
  }

  lemma Digits64(c: nat)
    ensures c == c / 64 * 64 + c % 64 && c == c / 4096 * 4096 + c / 64 % 64 * 64 + c % 64
    ensures c == c / 262144 * 262144 + c / 4096 % 64 * 4096 + c / 64 % 64 * 64 + c % 64
  {
    var a, b := c / 64, c / 4096;
    assert a == a / 64 * 64 + a % 64 && a / 64 == b;
    assert b == b / 64 * 64 + b % 64 && b / 64 == c / 262144;
  }

  lemma PointReads(c: Point)
    requires !High(c) && !Low(c)
    ensures PointOf(Sequence(c)) == Some(c)
  {
    Digits64(c);
    EncodeIs(c);
  }

  /** Whole characters are read as they are, whatever follows. */
  lemma {:induction false} WholeReads(s: Text, rest: Bytes)
    requires NoSurrogates(s)
    ensures DecodeIgnoring(Encoded(s) + rest) == s + DecodeIgnoring(rest)
  {
    hide Sequence, PointOf, Needs, DecodeIgnoring;
    if s == [] {
      assert Encoded(s) + rest == rest && s + DecodeIgnoring(rest) == DecodeIgnoring(rest);
    } else {
      var first, tail := Sequence(s[0]), Encoded(s[1..]) + rest;
      EncodeIs(s[0]);
      PointReads(s[0]);
      FirstReads(first, tail, s[0]);
      assert Encoded(s) + rest == first + tail;
      WholeReads(s[1..], rest);
    }
  }

  lemma FirstReads(first: Bytes, tail: Bytes, c: Point)
    requires 1 <= |first| <= 4 && Needs(first[0]) == |first| && PointOf(first) == Some(c)
    ensures DecodeIgnoring(first + tail) == [c] + DecodeIgnoring(tail)
  {
    hide PointOf, Needs;
    assert (first + tail)[..|first|] == first && (first + tail)[|first|..] == tail;
  }

  lemma {:induction false} ContinuationsAreIgnored(b: Bytes)
    requires forall i :: 0 <= i < |b| ==> Continues(b[i])
    ensures DecodeIgnoring(b) == []
  {
    hide PointOf;
    if b != [] {
      ContinuationsAreIgnored(b[1..]);
    }
  }

  /** A character cut short leaves nothing. */
  lemma PartIsIgnored(c: Point, n: nat)
    requires n < PointBytes(c)
    ensures n <= |Sequence(c)| && DecodeIgnoring(Sequence(c)[..n]) == []
  {
    hide Sequence, PointOf;
    EncodeIs(c);
    var part := Sequence(c)[..n];
    if n > 0 {
      assert part[0] == Sequence(c)[0];
      ContinuationsAreIgnored(part[1..]);
    }
  }

  lemma {:induction false} Utf8Concat(a: Text, b: Text)
    ensures Encoded(a + b) == Encoded(a) + Encoded(b)
  {
    hide Sequence;
    if a == [] {
      assert a + b == b;
    } else {
      assert (a + b)[1..] == a[1..] + b;
      Utf8Concat(a[1..], b);
    }
  }

  lemma {:induction false} Utf8Bytes(s: Text)
    ensures |Encoded(s)| == Utf8Length(s)
    decreases |s|
  {
    hide Sequence;
    if s != [] {
      var front, last := s[..|s| - 1], s[|s| - 1..];
      assert s == front + last;
      Utf8Concat(front, last);
      Utf8Bytes(front);
      EncodeIs(Scalar(last[0]));
      assert last[1..] == [];
      assert Encoded(last) == Sequence(Scalar(last[0])) + Encoded([]);
    }
  }

  /** The text as it is read back: every unpaired surrogate has become U+FFFD. */
  function Scalars(s: Text): Text {
    seq(|s|, i requires 0 <= i < |s| => Scalar(s[i]))
  }

  lemma ScalarsOfClean(s: Text)
    requires NoSurrogates(s)
    ensures Scalars(s) == s
  {
  }

  /** Decoding undoes encoding. */
  lemma {:induction false} EncodedDecodes(s: Text)
    ensures DecodeAll(Encoded(s)) == Some(Scalars(s))
  {
    hide Sequence, PointOf, Needs, DecodeAll;
    if s == [] {
      NothingDecodes();
    } else {
      var first, tail := Sequence(Scalar(s[0])), Encoded(s[1..]);
      EncodeIs(Scalar(s[0]));
      PointReads(Scalar(s[0]));
      EncodedDecodes(s[1..]);
      FirstDecodes(first, tail, Scalar(s[0]), Scalars(s[1..]));
      assert Scalars(s) == [Scalar(s[0])] + Scalars(s[1..]);
    }
  }

  lemma NothingDecodes()
    ensures DecodeAll([]) == Some([])
  {
  }

  lemma FirstDecodes(first: Bytes, tail: Bytes, c: Point, rest: Text)
    requires 1 <= |first| <= 4 && Needs(first[0]) == |first| && PointOf(first) == Some(c) && DecodeAll(tail) == Some(rest)
    ensures DecodeAll(first + tail) == Some([c] + rest)
  {
    hide PointOf, Needs;
    assert (first + tail)[..|first|] == first && (first + tail)[|first|..] == tail;
  }

  /** The strict decoder reads every encoded text, and gives it back unless it holds a surrogate or leads with the byte order mark. */
  lemma EncodedReadsBack(s: Text)
    ensures DecodeStrict(Encoded(s)).Some?
    ensures DecodeStrict(Encoded(s)) == Some(s) <==> NoSurrogates(s) && (s == [] || s[0] != BYTE_ORDER_MARK)
  {
    hide Sequence, PointOf, DecodeAll, Encoded;
    EncodedDecodes(s);
    if NoSurrogates(s) {
      ScalarsOfClean(s);
    } else {
      var i :| 0 <= i < |s| && (High(s[i]) || Low(s[i]));
      assert Scalars(s)[i] == REPLACEMENT != s[i];
    }
  }
}
