/**
 * JSON as src/file-container.js and src/outbound-payload.js read and write it
 * (RFC 8259): a parser for the whole grammar, and the compact text of a value.
 * Strings are code points, and two escaped halves of a pair read as one.
 */
module Json {
  import opened Basics
  import opened Names

  /** A number is its sign and its exact size, so that -0 is not 0. */
  datatype Value = Null | Bool(b: bool) | Num(negative: bool, size: real) | Str(s: Text) | Arr(items: seq<Value>) | Obj(members: seq<Member>)

  datatype Member = Member(key: Text, value: Value)

  datatype Parsed<+T> = Fail | Got(value: T, rest: Text)

  // ---------------------------------------------------------------------- parsing

  function SkipWhite(s: Text): (r: Text)
    ensures |r| <= |s|
  {
    if s != [] && (s[0] == 32 || s[0] == 9 || s[0] == 10 || s[0] == 13) then SkipWhite(s[1..]) else s
  }

  predicate Digit(c: nat) {
    48 <= c < 58
  }

  /** Any digits that come next, read on from `acc`; `count` is how many there were. */
  function TakeDigits(s: Text, acc: nat, count: nat): (r: (nat, nat, Text))
    ensures |r.2| <= |s| && r.1 == count + |s| - |r.2|
  {
    if s != [] && Digit(s[0]) then TakeDigits(s[1..], 10 * acc + s[0] - 48, count + 1) else (acc, count, s)
  }

  function ParseInteger(s: Text): (r: Parsed<nat>)
    ensures r.Got? ==> |r.rest| < |s|
  {
    if s == [] || !Digit(s[0]) then Fail
    else if s[0] == 48 then Got(0, s[1..])
    else
      var (n, _, rest) := TakeDigits(s, 0, 0);
      Got(n, rest)
  }

  function ParseFraction(s: Text): (r: Parsed<real>)
    ensures r.Got? ==> |r.rest| <= |s|
  {
    if s == [] || s[0] != 46 then Got(0.0, s)
    else
      var (n, count, rest) := TakeDigits(s[1..], 0, 0);
      if count == 0 then Fail else Got(n as real / PowerOf10(count), rest)
  }

  function PowerOf10(k: nat): (r: real)
    ensures r > 0.0
  {
    if k == 0 then 1.0 else 10.0 * PowerOf10(k - 1)
  }

  function ParseExponent(s: Text): (r: Parsed<real>)
    ensures r.Got? ==> |r.rest| <= |s|
  {
    if s == [] || (s[0] != 101 && s[0] != 69) then Got(1.0, s)
    else
      var signed := |s| > 1 && (s[1] == 43 || s[1] == 45);
      var (n, count, rest) := TakeDigits(if signed then s[2..] else s[1..], 0, 0);
      if count == 0 then Fail
      else Got(if signed && s[1] == 45 then 1.0 / PowerOf10(n) else PowerOf10(n), rest)
  }

  function ParseNumber(s: Text): (r: Parsed<Value>)
    ensures r.Got? ==> |r.rest| < |s|
  {
    var negative := s != [] && s[0] == 45;
    match ParseInteger(if negative then s[1..] else s)
    case Fail => Fail
    case Got(n, s1) =>
      match ParseFraction(s1)
      case Fail => Fail
      case Got(f, s2) =>
        match ParseExponent(s2)
        case Fail => Fail
        case Got(e, s3) =>
          Got(Num(negative, (n as real + f) * e), s3)
  }

  function HexValue(c: nat): Option<nat> {
    if Digit(c) then Some(c - 48)
    else if 97 <= c < 103 then Some(c - 87)
    else if 65 <= c < 71 then Some(c - 55)
    else None
  }

  /** The unit four hex digits name. */
  function Hex4(s: Text): Option<nat>
    requires |s| == 4
  {
    var a, b, c, d := HexValue(s[0]), HexValue(s[1]), HexValue(s[2]), HexValue(s[3]);
    if a.Some? && b.Some? && c.Some? && d.Some? then Some(4096 * a.value + 256 * b.value + 16 * c.value + d.value) else None
  }

  /** What a backslash and this character stand for, if anything. */
  function Unescape(c: nat): Option<nat> {
    if c == 34 || c == 92 || c == 47 then Some(c)
    else if c == 98 then Some(8)
    else if c == 102 then Some(12)
    else if c == 110 then Some(10)
    else if c == 114 then Some(13)
    else if c == 116 then Some(9)
    else None
  }

  /** The rest of a string whose opening quote is behind us. */
  function ParseString(s: Text, acc: Text): (r: Parsed<Text>)
    ensures r.Got? ==> |r.rest| < |s|
    decreases |s|
  {
    if s == [] || s[0] < 0x20 then Fail
    else if s[0] == 34 then Got(acc, s[1..])
    else if s[0] != 92 then ParseString(s[1..], Push(acc, s[0]))
    else if |s| < 2 then Fail
    else if s[1] == 117 then
      if |s| < 6 || Hex4(s[2..6]).None? then Fail else ParseString(s[6..], Push(acc, Hex4(s[2..6]).value))
    else if Unescape(s[1]).None? then Fail
    else ParseString(s[2..], Push(acc, Unescape(s[1]).value))
  }

  predicate Opens(s: Text, word: Text) {
    |word| <= |s| && s[..|word|] == word
  }

  function ParseValue(s: Text): (r: Parsed<Value>)
    ensures r.Got? ==> |r.rest| < |s|
    decreases |s|, 1
  {
    if s == [] then Fail
    else if s[0] == 123 then
      var inner := SkipWhite(s[1..]);
      if inner != [] && inner[0] == 125 then Got(Obj([]), inner[1..])
      else
        match ParseMembers(inner)
        case Fail => Fail
        case Got(members, rest) => Got(Obj(members), rest)
    else if s[0] == 91 then
      var inner := SkipWhite(s[1..]);
      if inner != [] && inner[0] == 93 then Got(Arr([]), inner[1..])
      else
        match ParseItems(inner)
        case Fail => Fail
        case Got(items, rest) => Got(Arr(items), rest)
    else if s[0] == 34 then
      match ParseString(s[1..], [])
      case Fail => Fail
      case Got(text, rest) => Got(Str(text), rest)
    else if Opens(s, Ascii("true")) then Got(Bool(true), s[4..])
    else if Opens(s, Ascii("false")) then Got(Bool(false), s[5..])
    else if Opens(s, Ascii("null")) then Got(Null, s[4..])
    else ParseNumber(s)
  }

  /** Items up to and including the closing bracket. */
  function ParseItems(s: Text): (r: Parsed<seq<Value>>)
    ensures r.Got? ==> |r.rest| < |s|
    decreases |s|, 2
  {
    match ParseValue(s)
    case Fail => Fail
    case Got(v, after) =>
      var next := SkipWhite(after);
      if next == [] then Fail
      else if next[0] == 93 then Got([v], next[1..])
      else if next[0] != 44 then Fail
      else
        match ParseItems(SkipWhite(next[1..]))
        case Fail => Fail
        case Got(items, rest) => Got([v] + items, rest)
  }

  function ParseMembers(s: Text): (r: Parsed<seq<Member>>)
    ensures r.Got? ==> |r.rest| < |s|
    decreases |s|, 2
  {
    if s == [] || s[0] != 34 then Fail
    else
      match ParseString(s[1..], [])
      case Fail => Fail
      case Got(key, s1) =>
        var colon := SkipWhite(s1);
        if colon == [] || colon[0] != 58 then Fail
        else
          match ParseValue(SkipWhite(colon[1..]))
          case Fail => Fail
          case Got(v, after) =>
            var next := SkipWhite(after);
            if next == [] then Fail
            else if next[0] == 125 then Got([Member(key, v)], next[1..])
            else if next[0] != 44 then Fail
            else
              match ParseMembers(SkipWhite(next[1..]))
              case Fail => Fail
              case Got(members, rest) => Got([Member(key, v)] + members, rest)
  }

  /** `JSON.parse`. */
  function Parse(s: Text): Option<Value> {
    match ParseValue(SkipWhite(s))
    case Fail => None
    case Got(v, rest) => if SkipWhite(rest) == [] then Some(v) else None
  }

  // ---------------------------------------------------------------------- objects

  /** A key written twice has its last value. */
  function Lookup(members: seq<Member>, key: Text): Option<Value> {
    if members == [] then None
    else if members[|members| - 1].key == key then Some(members[|members| - 1].value)
    else Lookup(members[..|members| - 1], key)
  }

  function Keys(members: seq<Member>): set<Text> {
    set i | 0 <= i < |members| :: members[i].key
  }

  /** `Object.keys` names these and no others. */
  predicate HasExactKeys(v: Value, keys: set<Text>) {
    v.Obj? && Keys(v.members) == keys
  }

  lemma Lookup2(a: Member, b: Member)
    ensures Lookup([a, b], b.key) == Some(b.value) && (a.key != b.key ==> Lookup([a, b], a.key) == Some(a.value))
    ensures Keys([a, b]) == {a.key, b.key}
  {
    assert [a, b][..1] == [a];
    assert forall k :: k in Keys([a, b]) <==> k == [a, b][0].key || k == [a, b][1].key;
  }

  lemma LookupMore(members: seq<Member>, m: Member, key: Text)
    ensures Lookup(members + [m], key) == if m.key == key then Some(m.value) else Lookup(members, key)
    ensures Keys(members + [m]) == Keys(members) + {m.key}
  {
    assert (members + [m])[..|members|] == members;
    assert forall i :: 0 <= i < |members| ==> (members + [m])[i] == members[i];
    assert (members + [m])[|members|] == m;
  }

  // ---------------------------------------------------------------------- printing

  function Ascii(s: string): Text {
    seq(|s|, i requires 0 <= i < |s| => s[i] as int)
  }

  function Digits(n: nat): Text {
    if n < 10 then [48 + n] else Digits(n / 10) + [48 + n % 10]
  }

  function HexDigit(n: nat): nat
    requires n < 16
  {
    if n < 10 then 48 + n else 87 + n
  }

  function Unicode4(c: nat): Text
    requires c < 0x10000
  {
    Ascii("\\u") + [HexDigit(c / 4096), HexDigit(c / 256 % 16), HexDigit(c / 16 % 16), HexDigit(c % 16)]
  }

  /** `JSON.stringify` on one code point: quotes, backslashes, controls and unpaired surrogates are escaped. */
  function Escape(c: Point): Text {
    if c == 34 || c == 92 then [92, c]
    else if c == 8 then [92, 98]
    else if c == 9 then [92, 116]
    else if c == 10 then [92, 110]
    else if c == 12 then [92, 102]
    else if c == 13 then [92, 114]
    else if c < 0x20 || High(c) || Low(c) then Unicode4(c)
    else [c]
  }

  function Escaped(s: Text): Text {
    if s == [] then [] else Escaped(s[..|s| - 1]) + Escape(s[|s| - 1])
  }

  function Quoted(s: Text): Text {
    [34] + Escaped(s) + [34]
  }

  /** Values whose text is modelled: any nesting, whole numbers, and strings as JavaScript has them. */
  predicate Plain(v: Value) {
    match v
    case Num(negative, size) => !negative && size >= 0.0 && size == size.Floor as real
    case Str(s) => Stable(s)
    case Arr(items) => forall i :: 0 <= i < |items| ==> Plain(items[i])
    case Obj(members) => forall i :: 0 <= i < |members| ==> Stable(members[i].key) && Plain(members[i].value)
    case _ => true
  }

  function Compact(v: Value): Text
    requires Plain(v)
    decreases v
  {
    match v
    case Null => Ascii("null")
    case Bool(b) => if b then Ascii("true") else Ascii("false")
    case Num(_, size) => Digits(size.Floor)
    case Str(s) => Quoted(s)
    case Arr(items) => [91] + CompactItems(items)
    case Obj(members) => [123] + CompactMembers(members)
  }

  function CompactItems(items: seq<Value>): Text
    requires forall i :: 0 <= i < |items| ==> Plain(items[i])
    decreases items
  {
    if items == [] then [93]
    else if |items| == 1 then Compact(items[0]) + [93]
    else Compact(items[0]) + [44] + CompactItems(items[1..])
  }

  function CompactMembers(members: seq<Member>): Text
    requires forall i :: 0 <= i < |members| ==> Stable(members[i].key) && Plain(members[i].value)
    decreases members
  {
    if members == [] then [125]
    else
      var m := members[0];
      Quoted(m.key) + [58] + Compact(m.value) + if |members| == 1 then [125] else [44] + CompactMembers(members[1..])
  }

  // ---------------------------------------------------------------------- round trip

  lemma {:induction false} EscapedConcat(a: Text, b: Text)
    ensures Escaped(a + b) == Escaped(a) + Escaped(b)
    decreases |b|
  {
    hide Escaped, Escape;
    if b == [] {
      assert a + b == a && Escaped(b) == [] by { NothingEscaped(); }
    } else {
      assert (a + b)[..|a + b| - 1] == a + b[..|b| - 1];
      EscapedConcat(a, b[..|b| - 1]);
      EscapedLast(a + b);
      EscapedLast(b);
      Regroup3(Escaped(a), Escaped(b[..|b| - 1]), Escape(b[|b| - 1]));
    }
  }

  lemma NothingEscaped()
    ensures Escaped([]) == []
  {
  }

  lemma EscapedLast(s: Text)
    requires s != []
    ensures Escaped(s) == Escaped(s[..|s| - 1]) + Escape(s[|s| - 1])
  {
  }

  lemma EscapedFirst(s: Text)
    requires s != []
    ensures Escaped(s) == Escape(s[0]) + Escaped(s[1..])
  {
    hide Escape;
    assert s == [s[0]] + s[1..];
    EscapedConcat([s[0]], s[1..]);
    assert [s[0]][..0] == [];
    assert Escaped([s[0]]) == [] + Escape(s[0]);
  }

  lemma HexParts(c: nat)
    requires c < 0x10000
    ensures 4096 * (c / 4096) + 256 * (c / 256 % 16) + 16 * (c / 16 % 16) + c % 16 == c
  {
    var a, b := c / 16, c / 256;
    assert c == 16 * a + c % 16 && a == 16 * (a / 16) + a % 16 && a / 16 == b;
    assert b == 16 * (b / 16) + b % 16 && b / 16 == c / 4096;
  }

  lemma Hex4Reads(a: nat, b: nat, c: nat, d: nat)
    requires a < 16 && b < 16 && c < 16 && d < 16
    ensures Hex4([HexDigit(a), HexDigit(b), HexDigit(c), HexDigit(d)]) == Some(4096 * a + 256 * b + 16 * c + d)
  {
    hide HexValue, HexDigit;
    HexReads(a);
    HexReads(b);
    HexReads(c);
    HexReads(d);
  }

  lemma UnicodeReads(c: nat)
    requires c < 0x10000
    ensures |Unicode4(c)| == 6 && Unicode4(c)[0] == 92 && Unicode4(c)[1] == 117 && Hex4(Unicode4(c)[2..6]) == Some(c)
  {
    hide Hex4, HexDigit;
    assert Ascii("\\u") == [92, 117];
    HexParts(c);
    Hex4Reads(c / 4096, c / 256 % 16, c / 16 % 16, c % 16);
    assert Unicode4(c)[2..6] == [HexDigit(c / 4096), HexDigit(c / 256 % 16), HexDigit(c / 16 % 16), HexDigit(c % 16)];
  }

  lemma HexReads(n: nat)
    requires n < 16
    ensures HexValue(HexDigit(n)) == Some(n)
  {
  }

  /** One escaped character is read as that character. */
  lemma EscapeReads(c: Point, acc: Text, rest: Text)
    ensures ParseString(Escape(c) + rest, acc) == ParseString(rest, Push(acc, c))
  {
    hide Push;
    var s := Escape(c) + rest;
    if Escape(c) == [c] {
      assert s[1..] == rest;
    } else if |Escape(c)| == 2 {
      assert s[2..] == rest && s[1] == Escape(c)[1];
      assert Unescape(Escape(c)[1]) == Some(c);
    } else {
      UnicodeReads(c);
      assert s[6..] == rest && s[2..6] == Unicode4(c)[2..6] && s[1] == 117;
    }
  }

  lemma {:induction false} StringReads(s: Text, acc: Text, rest: Text)
    requires Stable(acc + s)
    ensures ParseString(Escaped(s) + [34] + rest, acc) == Got(acc + s, rest)
    decreases |s|
  {
    hide Escape, Escaped;
    if s == [] {
      NothingEscaped();
      assert Escaped(s) + [34] + rest == [34] + rest && ([34] + rest)[1..] == rest && acc + s == acc;
    } else {
      var tail := Escaped(s[1..]) + [34] + rest;
      EscapedFirst(s);
      assert Escaped(s) + [34] + rest == Escape(s[0]) + tail;
      EscapeReads(s[0], acc, tail);
      assert (acc + s)[|acc|] == s[0];
      assert acc != [] ==> (acc + s)[|acc| - 1] == acc[|acc| - 1];
      assert Push(acc, s[0]) == acc + [s[0]] && (acc + [s[0]]) + s[1..] == acc + s;
      StringReads(s[1..], acc + [s[0]], rest);
    }
  }

  /** What may follow a value inside another, or nothing. */
  predicate Ends(rest: Text) {
    rest == [] || rest[0] == 44 || rest[0] == 93 || rest[0] == 125
  }

  /** The number read when the digits of `n` follow those of `acc`. */
  function Joined(acc: nat, n: nat): nat {
    if n < 10 then 10 * acc + n else 10 * Joined(acc, n / 10) + n % 10
  }

  lemma {:induction false} JoinedToNothing(n: nat)
    ensures Joined(0, n) == n
  {
    if n >= 10 {
      JoinedToNothing(n / 10);
    }
  }

  lemma {:induction false} DigitsRead(n: nat, acc: nat, count: nat, rest: Text)
    ensures TakeDigits(Digits(n) + rest, acc, count) == TakeDigits(rest, Joined(acc, n), count + |Digits(n)|)
  {
    hide TakeDigits;
    var last := [48 + n % 10] + rest;
    if n < 10 {
      assert Digits(n) + rest == last;
      OneDigit(n, acc, count, rest);
    } else {
      DigitsRead(n / 10, acc, count, last);
      assert Digits(n) + rest == Digits(n / 10) + last;
      OneDigit(n % 10, Joined(acc, n / 10), count + |Digits(n / 10)|, rest);
    }
  }

  lemma OneDigit(d: nat, acc: nat, count: nat, rest: Text)
    requires d < 10
    ensures TakeDigits([48 + d] + rest, acc, count) == TakeDigits(rest, 10 * acc + d, count + 1)
  {
    assert ([48 + d] + rest)[1..] == rest;
  }

  lemma {:induction false} DigitsStart(n: nat)
    ensures Digits(n) != [] && Digit(Digits(n)[0]) && (n > 0 ==> Digits(n)[0] != 48) && (n == 0 ==> Digits(n) == [48])
  {
    if n >= 10 {
      DigitsStart(n / 10);
    }
  }

  lemma NumberReads(n: nat, rest: Text)
    requires Ends(rest)
    ensures ParseNumber(Digits(n) + rest) == Got(Num(false, n as real), rest)
  {
    hide Digits, Joined;
    var s := Digits(n) + rest;
    DigitsStart(n);
    DigitsRead(n, 0, 0, rest);
    JoinedToNothing(n);
    if n == 0 {
      assert s[1..] == rest;
    }
    assert s[0] == Digits(n)[0];
    assert ParseInteger(s) == Got(n, rest);
  }

  lemma CompactStarts(v: Value)
    requires Plain(v)
    ensures Compact(v) != [] && Compact(v)[0] !in {32, 9, 10, 13, 93, 125, 44, 58}
    ensures v.Num? ==> Digit(Compact(v)[0])
    ensures !v.Num? ==> !Digit(Compact(v)[0])
  {
    hide Digits, CompactItems, CompactMembers, Escaped;
    if v.Num? {
      DigitsStart(v.size.Floor);
    }
    assert Ascii("null")[0] == 110 && Ascii("true")[0] == 116 && Ascii("false")[0] == 102;
  }

  lemma StartIsKept(s: Text, rest: Text)
    requires s != [] && s[0] !in {32, 9, 10, 13}
    ensures SkipWhite(s + rest) == s + rest
  {
  }

  lemma QuotedReads(s: Text, rest: Text)
    requires Stable(s)
    ensures var t := Quoted(s) + rest; t != [] && t[0] == 34 && t == [34] + t[1..] && ParseString(t[1..], []) == Got(s, rest)
  {
    var t := Quoted(s) + rest;
    assert t[1..] == Escaped(s) + [34] + rest;
    assert [] + s == s;
    StringReads(s, [], rest);
  }

  lemma WordsRead(rest: Text)
    ensures ParseValue(Ascii("null") + rest) == Got(Null, rest)
    ensures ParseValue(Ascii("true") + rest) == Got(Bool(true), rest)
    ensures ParseValue(Ascii("false") + rest) == Got(Bool(false), rest)
  {
    hide ParseItems, ParseMembers, ParseString, ParseNumber;
    var a, b, c := Ascii("null"), Ascii("true"), Ascii("false");
    assert (a + rest)[..4] == a && (a + rest)[4..] == rest && a[0] == 110;
    assert (b + rest)[..4] == b && (b + rest)[4..] == rest && b[0] == 116;
    assert (c + rest)[..5] == c && (c + rest)[5..] == rest && c[0] == 102;
  }

  lemma DigitStartsNumber(s: Text)
    requires s != [] && Digit(s[0])
    ensures ParseValue(s) == ParseNumber(s)
  {
    hide ParseItems, ParseMembers, ParseString, ParseNumber;
    assert Ascii("null")[0] == 110 && Ascii("true")[0] == 116 && Ascii("false")[0] == 102;
  }

  /** How a value that is not a literal starts, decides how it is read. */
  lemma BracketsRead(inner: Text)
    ensures SkipWhite(inner) == inner && inner != [] && inner[0] != 93 ==>
      ParseValue([91] + inner) == match ParseItems(inner) case Fail => Fail case Got(items, rest) => Got(Arr(items), rest)
    ensures SkipWhite(inner) == inner && inner != [] && inner[0] == 34 ==>
      ParseValue([123] + inner) == match ParseMembers(inner) case Fail => Fail case Got(members, rest) => Got(Obj(members), rest)
    ensures ParseValue([34] + inner) == match ParseString(inner, []) case Fail => Fail case Got(text, rest) => Got(Str(text), rest)
  {
    hide ParseItems, ParseMembers, ParseString, ParseNumber;
    assert ([91] + inner)[1..] == inner && ([123] + inner)[1..] == inner && ([34] + inner)[1..] == inner;
  }

  lemma EmptiesRead(rest: Text)
    ensures ParseValue([91] + ([93] + rest)) == Got(Arr([]), rest) && ParseValue([123] + ([125] + rest)) == Got(Obj([]), rest)
  {
    hide ParseItems, ParseMembers, ParseString, ParseNumber;
    var a, b := [93] + rest, [125] + rest;
    assert ([91] + a)[1..] == a && ([123] + b)[1..] == b && a[1..] == rest && b[1..] == rest;
  }

  /** Parsing undoes printing, whatever follows. */
  lemma {:induction false} ValueReads(v: Value, rest: Text)
    requires Plain(v) && Ends(rest)
    ensures ParseValue(Compact(v) + rest) == Got(v, rest)
    decreases v, 1
  {
    hide ParseValue, ParseItems, ParseMembers, ParseString, ParseNumber, CompactItems, CompactMembers, Digits, Quoted;
    match v
    case Null => WordsRead(rest);
    case Bool(b) => WordsRead(rest);
    case Num(_, size) =>
      DigitsStart(size.Floor);
      NumberReads(size.Floor, rest);
      DigitStartsNumber(Compact(v) + rest);
    case Str(t) =>
      QuotedReads(t, rest);
      BracketsRead((Quoted(t) + rest)[1..]);
    case Arr(items) => ArrayReads(items, rest);
    case Obj(members) => ObjectReads(members, rest);
  }

  lemma {:induction false} ArrayReads(items: seq<Value>, rest: Text)
    requires Ends(rest) && forall i :: 0 <= i < |items| ==> Plain(items[i])
    ensures ParseValue([91] + CompactItems(items) + rest) == Got(Arr(items), rest)
    decreases items, 1
  {
    hide ParseValue, ParseItems;
    var inner := CompactItems(items) + rest;
    assert [91] + CompactItems(items) + rest == [91] + inner;
    if items == [] {
      EmptiesRead(rest);
    } else {
      ItemsRead(items, rest);
      BracketsRead(inner);
    }
  }

  lemma {:induction false} ObjectReads(members: seq<Member>, rest: Text)
    requires Ends(rest) && forall i :: 0 <= i < |members| ==> Stable(members[i].key) && Plain(members[i].value)
    ensures ParseValue([123] + CompactMembers(members) + rest) == Got(Obj(members), rest)
    decreases members, 1
  {
    hide ParseValue, ParseMembers;
    var inner := CompactMembers(members) + rest;
    assert [123] + CompactMembers(members) + rest == [123] + inner;
    if members == [] {
      EmptiesRead(rest);
    } else {
      MembersRead(members, rest);
      BracketsRead(inner);
    }
  }

  /** One step of the item loop. */
  lemma ItemStep(s: Text, v: Value, after: Text)
    requires ParseValue(s) == Got(v, after) && after != []
    ensures after[0] == 93 ==> ParseItems(s) == Got([v], after[1..])
    ensures after[0] == 44 ==> ParseItems(s) == match ParseItems(SkipWhite(after[1..])) case Fail => Fail case Got(items, rest) => Got([v] + items, rest)
  {
    hide ParseValue;
  }

  lemma {:induction false} ItemsRead(items: seq<Value>, rest: Text)
    requires items != [] && forall i :: 0 <= i < |items| ==> Plain(items[i])
    ensures var s := CompactItems(items) + rest; s != [] && s[0] != 93 && SkipWhite(s) == s && ParseItems(s) == Got(items, rest)
    decreases items, 0
  {
    hide ParseValue, ParseItems, Compact, SkipWhite, Plain;
    var v := items[0];
    var more := if |items| == 1 then [] else CompactItems(items[1..]) + rest;
    var after := if |items| == 1 then [93] + rest else [44] + more;
    var s := Compact(v) + after;
    assert CompactItems(items) + rest == s;
    CompactStarts(v);
    StartIsKept(Compact(v), after);
    ValueReads(v, after);
    ItemStep(s, v, after);
    assert items == [v] + items[1..];
    if |items| == 1 {
      assert after[1..] == rest && items == [v];
    } else {
      ItemsRead(items[1..], rest);
      assert after[1..] == more;
    }
  }

  lemma MemberStep(s: Text, key: Text, colon: Text, v: Value, after: Text)
    requires s != [] && s[0] == 34 && ParseString(s[1..], []) == Got(key, colon)
    requires colon != [] && colon[0] == 58 && ParseValue(SkipWhite(colon[1..])) == Got(v, after) && after != []
    requires SkipWhite(colon) == colon && SkipWhite(after) == after
    ensures after[0] == 125 ==> ParseMembers(s) == Got([Member(key, v)], after[1..])
    ensures after[0] == 44 ==> ParseMembers(s) == match ParseMembers(SkipWhite(after[1..])) case Fail => Fail case Got(members, rest) => Got([Member(key, v)] + members, rest)
  {
    hide ParseValue, ParseString, SkipWhite;
  }

  lemma {:induction false} MembersRead(members: seq<Member>, rest: Text)
    requires members != [] && forall i :: 0 <= i < |members| ==> Stable(members[i].key) && Plain(members[i].value)
    ensures var s := CompactMembers(members) + rest; s != [] && s[0] == 34 && SkipWhite(s) == s && ParseMembers(s) == Got(members, rest)
    decreases members, 0
  {
    hide ParseValue, ParseMembers, ParseString, Compact, Quoted, SkipWhite, Plain, Stable;
    var m := members[0];
    var more := if |members| == 1 then [] else CompactMembers(members[1..]) + rest;
    var after := if |members| == 1 then [125] + rest else [44] + more;
    var colon := [58] + (Compact(m.value) + after);
    var s := Quoted(m.key) + colon;
    assert CompactMembers(members) + rest == s;
    QuotedReads(m.key, colon);
    StartIsKept(s, []);
    assert s + [] == s;
    assert colon[1..] == Compact(m.value) + after;
    CompactStarts(m.value);
    StartIsKept(Compact(m.value), after);
    ValueReads(m.value, after);
    StartIsKept(colon, []);
    StartIsKept(after, []);
    assert colon + [] == colon && after + [] == after;
    MemberStep(s, m.key, colon, m.value, after);
    assert members == [m] + members[1..] && m == Member(m.key, m.value);
    if |members| == 1 {
      assert after[1..] == rest && members == [m];
    } else {
      MembersRead(members[1..], rest);
      assert after[1..] == more;
    }
  }

  /** `JSON.parse` undoes the compact text of any value. */
  lemma ParseUndoesCompact(v: Value)
    requires Plain(v)
    ensures Parse(Compact(v)) == Some(v)
  {
    hide ParseValue, Compact, Plain;
    CompactStarts(v);
    StartIsKept(Compact(v), []);
    assert Compact(v) + [] == Compact(v);
    ValueReads(v, []);
  }

  // ------------------------------------------------------- a text UTF-8 carries unchanged

  predicate NoSurrogates(s: Text) {
    forall i :: 0 <= i < |s| ==> !High(s[i]) && !Low(s[i])
  }

  lemma {:induction false} EscapedIsClean(s: Text)
    ensures NoSurrogates(Escaped(s))
  {
    hide Escape;
    if s != [] {
      EscapedIsClean(s[..|s| - 1]);
      EscapeIsClean(s[|s| - 1]);
    }
  }

  lemma EscapeIsClean(c: Point)
    ensures NoSurrogates(Escape(c))
  {
  }

  lemma {:induction false} DigitsAreClean(n: nat)
    ensures NoSurrogates(Digits(n))
  {
    if n >= 10 {
      DigitsAreClean(n / 10);
    }
  }

  lemma {:induction false} CompactIsClean(v: Value)
    requires Plain(v)
    ensures NoSurrogates(Compact(v))
    decreases v, 1
  {
    hide Escaped, Digits, CompactItems, CompactMembers;
    match v
    case Num(_, size) => DigitsAreClean(size.Floor);
    case Str(s) => EscapedIsClean(s);
    case Arr(items) => ItemsAreClean(items);
    case Obj(members) => MembersAreClean(members);
    case _ =>
  }

  lemma {:induction false} ItemsAreClean(items: seq<Value>)
    requires forall i :: 0 <= i < |items| ==> Plain(items[i])
    ensures NoSurrogates(CompactItems(items))
    decreases items, 0
  {
    hide Compact;
    if items != [] {
      CompactIsClean(items[0]);
      ItemsAreClean(items[1..]);
    }
  }

  lemma {:induction false} MembersAreClean(members: seq<Member>)
    requires forall i :: 0 <= i < |members| ==> Stable(members[i].key) && Plain(members[i].value)
    ensures NoSurrogates(CompactMembers(members))
    decreases members, 0
  {
    hide Compact, Escaped;
    if members != [] {
      EscapedIsClean(members[0].key);
      CompactIsClean(members[0].value);
      MembersAreClean(members[1..]);
    }
  }

  // ------------------------------------------------------- texts put together by hand

  /** Characters that stand for themselves in a string. */
  predicate Bare(s: Text) {
    forall i :: 0 <= i < |s| ==> 0x20 <= s[i] < 0x80 && s[i] != 34 && s[i] != 92
  }

  lemma {:induction false} BareIsKept(s: Text)
    requires Bare(s)
    ensures Escaped(s) == s && Stable(s)
  {
    hide Escape, Escaped;
    if s == [] {
      NothingEscaped();
    } else {
      var front, last := s[..|s| - 1], s[|s| - 1];
      BareIsKept(front);
      EscapedLast(s);
      BareStays(last);
      assert s == front + [last];
    }
  }

  lemma BareStays(c: Point)
    requires 0x20 <= c < 0x80 && c != 34 && c != 92
    ensures Escape(c) == [c] && !High(c) && !Low(c)
  {
  }

  lemma AsciiConcat(a: string, b: string)
    ensures Ascii(a + b) == Ascii(a) + Ascii(b)
  {
  }

  lemma QuoteTexts(before: string, key: string)
    requires |before| == 1
    ensures Ascii("\":") == [34, 58] && Ascii(before + "\"") == [before[0] as int, 34]
  {
  }

  lemma WrapKey(b: nat, k: Text)
    ensures [b, 34] + k + [34, 58] == [b] + ([34] + k + [34]) + [58]
  {
  }

  lemma QuotedBare(s: Text)
    requires Bare(s)
    ensures Quoted(s) == [34] + s + [34] && Stable(s)
  {
    BareIsKept(s);
  }

  /** A key with its colon, after the brace or comma before it. */
  lemma KeyPrints(before: string, key: string)
    requires Bare(Ascii(key)) && |before| == 1
    ensures Ascii(before + "\"" + key + "\":") == [before[0] as int] + Quoted(Ascii(key)) + [58]
    ensures Stable(Ascii(key))
  {
    hide Ascii, Quoted, Bare, Stable;
    QuotedBare(Ascii(key));
    AsciiConcat(before + "\"" + key, "\":");
    AsciiConcat(before + "\"", key);
    QuoteTexts(before, key);
    WrapKey(before[0] as int, Ascii(key));
  }

  /** A member printed at the end of what is there, before the members that follow. */
  lemma MemberPrints(p: Text, key: Text, v: Value, rest: seq<Member>)
    requires Stable(key) && Plain(v) && forall i :: 0 <= i < |rest| ==> Stable(rest[i].key) && Plain(rest[i].value)
    ensures var ms := [Member(key, v)] + rest;
      && (forall i :: 0 <= i < |ms| ==> Stable(ms[i].key) && Plain(ms[i].value))
      && p + (Quoted(key) + [58]) + Compact(v) + (if rest == [] then [125] else [44] + CompactMembers(rest)) == p + CompactMembers(ms)
  {
    hide Quoted, Plain, Stable;
    var ms := [Member(key, v)] + rest;
    assert ms[1..] == rest && ms[0] == Member(key, v);
    Regroup(p, Quoted(key), [58], Compact(v), if rest == [] then [125] else [44] + CompactMembers(rest));
  }

  lemma Regroup(p: Text, a: Text, b: Text, c: Text, d: Text)
    ensures p + (a + b) + c + d == p + (a + b + c + d)
  {
  }

  /** The same after a comma. */
  lemma FollowingPrints(p: Text, key: Text, v: Value, rest: seq<Member>)
    requires Stable(key) && Plain(v) && forall i :: 0 <= i < |rest| ==> Stable(rest[i].key) && Plain(rest[i].value)
    ensures var ms := [Member(key, v)] + rest;
      && (forall i :: 0 <= i < |ms| ==> Stable(ms[i].key) && Plain(ms[i].value))
      && p + ([44] + Quoted(key) + [58]) + Compact(v) + (if rest == [] then [125] else [44] + CompactMembers(rest)) == p + ([44] + CompactMembers(ms))
  {
    hide Quoted, Plain, Stable, CompactMembers, Compact;
    MemberPrints(p + [44], key, v, rest);
    assert p + ([44] + Quoted(key) + [58]) == p + [44] + (Quoted(key) + [58]);
  }

  lemma PlainObject(ms: seq<Member>)
    requires forall i :: 0 <= i < |ms| ==> Stable(ms[i].key) && Plain(ms[i].value)
    ensures Plain(Obj(ms)) && Compact(Obj(ms)) == [123] + CompactMembers(ms)
  {
  }

  /** Printing from the `n`th item on. */
  lemma ItemsFrom(items: seq<Value>, n: nat)
    requires n + 1 < |items| && forall i :: 0 <= i < |items| ==> Plain(items[i])
    ensures CompactItems(items[n..]) == Compact(items[n]) + [44] + CompactItems(items[n + 1..])
  {
    hide Compact, Plain;
    assert items[n..][1..] == items[n + 1..];
  }

  lemma Regroup4(a: Text, b: Text, c: Text, d: Text)
    ensures a + b + c + d == a + (b + c + d)
  {
  }

  lemma Regroup3(a: Text, b: Text, c: Text)
    ensures a + b + c == a + (b + c)
  {
  }

  lemma LastItem(items: seq<Value>)
    requires items != [] && forall i :: 0 <= i < |items| ==> Plain(items[i])
    ensures CompactItems(items[|items| - 1..]) == Compact(items[|items| - 1]) + [93]
  {
    hide Compact, Plain;
  }

  /** A key with its colon and nothing before it. */
  lemma BareKeyPrints(key: string)
    requires Bare(Ascii(key))
    ensures Ascii("\"" + key + "\":") == Quoted(Ascii(key)) + [58] && Stable(Ascii(key))
  {
    hide Ascii, Quoted, Bare, Stable;
    KeyPrints("{", key);
    AsciiConcat("{", "\"" + key + "\":");
    assert "{" + ("\"" + key + "\":") == "{" + "\"" + key + "\":";
    assert Ascii("{") == [123] by { BraceText(); }
    assert Ascii("\"" + key + "\":") == Ascii("{" + ("\"" + key + "\":"))[1..];
    assert ([123] + Quoted(Ascii(key)) + [58])[1..] == Quoted(Ascii(key)) + [58];
  }

  lemma BraceText()
    ensures Ascii("{") == [123]
  {
  }
}
