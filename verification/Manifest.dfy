/** The JSON manifest of an HDROP2 container: its exact text, and how long that text can get. */
module ManifestText {
  import opened Basics
  import opened Names
  import opened Json

  datatype Entry = Entry(wellTyped: bool, name: Text, size: int, offset: int, sha256: Text, hint: Text)

  datatype TextMeta = TextMeta(wellTyped: bool, offset: int, size: int)

  /** A parsed manifest; the three flags stand for the exact-key and type checks. */
  datatype Manifest = Manifest(shapeOk: bool, files: seq<Entry>, text: Option<TextMeta>)

  const MAX_FILES: nat := 5
  const MAX_BYTES: nat := 42 * 1024 * 1024
  const MAX_FILE_TYPE_BYTES: nat := 255
  const MAX_PRIVATE_TEXT_BYTES: nat := 65536
  const MANIFEST_ENVELOPE_BYTES: nat := 32
  const MANIFEST_ENTRY_CEILING_BYTES: nat := 1280

  function WorstCaseManifestBytes(maxFiles: nat): nat {
    MANIFEST_ENVELOPE_BYTES + maxFiles * (MANIFEST_ENTRY_CEILING_BYTES + 1)
  }

  // --------------------------------------------------------------------- printing

  function PrintEntry(e: Entry): Text
    requires e.size >= 0 && e.offset >= 0
  {
    Ascii("{\"name\":") + Quoted(e.name) + Ascii(",\"size\":") + Digits(e.size) + Ascii(",\"offset\":") + Digits(e.offset)
    + Ascii(",\"sha256\":") + Quoted(e.sha256) + Ascii(",\"type\":") + Quoted(e.hint) + Ascii("}")
  }

  predicate Printable(files: seq<Entry>) {
    forall i :: 0 <= i < |files| ==> files[i].size >= 0 && files[i].offset >= 0
  }

  function PrintEntries(files: seq<Entry>): Text
    requires Printable(files)
  {
    if files == [] then []
    else
      var front, last := files[..|files| - 1], files[|files| - 1];
      PrintEntries(front) + (if front == [] then [] else Ascii(",")) + PrintEntry(last)
  }

  function PrintText(t: TextMeta): Text
    requires t.offset >= 0 && t.size >= 0
  {
    Ascii(",\"text\":{\"offset\":") + Digits(t.offset) + Ascii(",\"size\":") + Digits(t.size) + Ascii("}")
  }

  predicate CanPrint(m: Manifest) {
    Printable(m.files) && (m.text.Some? ==> m.text.value.offset >= 0 && m.text.value.size >= 0)
  }

  function Print(m: Manifest): Text
    requires CanPrint(m)
  {
    Ascii("{\"kind\":\"files\",\"files\":[") + PrintEntries(m.files) + Ascii("]") + (if m.text.Some? then PrintText(m.text.value) else []) + Ascii("}")
  }

  // ---------------------------------------------------------------------- lengths

  lemma {:induction false} LengthOfConcat(a: Text, b: Text)
    ensures Utf8Length(a + b) == Utf8Length(a) + Utf8Length(b)
    decreases |b|
  {
    if b == [] {
      assert a + b == a;
    } else {
      assert (a + b)[..|a + b| - 1] == a + b[..|b| - 1];
      LengthOfConcat(a, b[..|b| - 1]);
    }
  }

  lemma AsciiLength(s: string)
    requires forall i :: 0 <= i < |s| ==> s[i] as int < 0x80
    ensures Utf8Length(Ascii(s)) == |s|
  {
    Utf8Ascii(Ascii(s));
  }

  lemma {:induction false} DigitsLength(n: nat, k: nat, bound: nat)
    requires k >= 1 && bound == Power10(k) && n < bound
    ensures Utf8Length(Digits(n)) == |Digits(n)| <= k && forall i :: 0 <= i < |Digits(n)| ==> 48 <= Digits(n)[i] < 58
  {
    if n >= 10 {
      DigitsLength(n / 10, k - 1, Power10(k - 1));
    }
    Utf8Ascii(Digits(n));
  }

  function Power10(k: nat): nat {
    if k == 0 then 1 else 10 * Power10(k - 1)
  }

  /** Escaping at most doubles a character that is not a control; an unpaired surrogate's six ASCII bytes stand for three. */
  lemma EscapeDoubles(c: Point)
    requires c >= 0x20
    ensures Utf8Length(Escape(c)) <= 2 * PointBytes(c)
  {
    if c == 34 || c == 92 || High(c) || Low(c) {
      Utf8Ascii(Escape(c));
    } else {
      assert Escape(c)[..0] == [];
    }
  }

  lemma {:induction false} EscapedDoubles(s: Text)
    requires NoControls(s)
    ensures Utf8Length(Escaped(s)) <= 2 * Utf8Length(s)
  {
    if s != [] {
      EscapedDoubles(s[..|s| - 1]);
      EscapeDoubles(s[|s| - 1]);
      LengthOfConcat(Escaped(s[..|s| - 1]), Escape(s[|s| - 1]));
    }
  }

  lemma QuotedLength(s: Text, bytes: nat)
    requires NoControls(s) && Utf8Length(s) <= bytes
    ensures Utf8Length(Quoted(s)) <= 2 * bytes + 2
  {
    EscapedDoubles(s);
    LengthOfConcat([34], Escaped(s));
    LengthOfConcat([34] + Escaped(s), [34]);
    assert [34][..0] == [];
  }

  /** What the encoder puts in an entry. */
  predicate Bounded(e: Entry) {
    && NoControls(e.name) && Utf8Length(e.name) <= MAX_FILE_NAME_BYTES
    && NoControls(e.hint) && Utf8Length(e.hint) <= MAX_FILE_TYPE_BYTES
    && |e.sha256| == 64 && (forall i :: 0 <= i < 64 ==> 48 <= e.sha256[i] < 128 && e.sha256[i] != 92)
    && 0 <= e.size <= MAX_BYTES && 0 <= e.offset <= MAX_BYTES
  }

  lemma DigestLength(s: Text)
    requires |s| == 64 && forall i :: 0 <= i < 64 ==> 48 <= s[i] < 128 && s[i] != 92
    ensures Utf8Length(Quoted(s)) == 66
  {
    BareIsKept(s);
    Utf8Ascii(Quoted(s));
  }

  lemma EntryLength(e: Entry)
    requires Bounded(e)
    ensures Utf8Length(PrintEntry(e)) <= 1155
  {
    hide Utf8Length, Digits, Escaped, Ascii;
    AsciiLength("{\"name\":");
    AsciiLength(",\"size\":");
    AsciiLength(",\"offset\":");
    AsciiLength(",\"sha256\":");
    AsciiLength(",\"type\":");
    AsciiLength("}");
    QuotedLength(e.name, MAX_FILE_NAME_BYTES);
    QuotedLength(e.hint, MAX_FILE_TYPE_BYTES);
    DigestLength(e.sha256);
    assert Power10(8) == 100_000_000;
    DigitsLength(e.size, 8, 100_000_000);
    DigitsLength(e.offset, 8, 100_000_000);
    var p1 := Ascii("{\"name\":") + Quoted(e.name);
    LengthOfConcat(Ascii("{\"name\":"), Quoted(e.name));
    var p2 := p1 + Ascii(",\"size\":");
    LengthOfConcat(p1, Ascii(",\"size\":"));
    var p3 := p2 + Digits(e.size);
    LengthOfConcat(p2, Digits(e.size));
    var p4 := p3 + Ascii(",\"offset\":");
    LengthOfConcat(p3, Ascii(",\"offset\":"));
    var p5 := p4 + Digits(e.offset);
    LengthOfConcat(p4, Digits(e.offset));
    var p6 := p5 + Ascii(",\"sha256\":");
    LengthOfConcat(p5, Ascii(",\"sha256\":"));
    var p7 := p6 + Quoted(e.sha256);
    LengthOfConcat(p6, Quoted(e.sha256));
    var p8 := p7 + Ascii(",\"type\":");
    LengthOfConcat(p7, Ascii(",\"type\":"));
    var p9 := p8 + Quoted(e.hint);
    LengthOfConcat(p8, Quoted(e.hint));
    LengthOfConcat(p9, Ascii("}"));
  }

  lemma {:induction false} EntriesLength(files: seq<Entry>)
    requires forall i :: 0 <= i < |files| ==> Bounded(files[i])
    ensures Printable(files) && Utf8Length(PrintEntries(files)) <= 1156 * |files|
  {
    hide PrintEntry, Utf8Length, Ascii;
    EmptyLength();
    if files != [] {
      var front, last := files[..|files| - 1], files[|files| - 1];
      EntriesLength(front);
      EntryLength(last);
      AsciiLength(",");
      var comma := if front == [] then [] else Ascii(",");
      LengthOfConcat(PrintEntries(front), comma);
      LengthOfConcat(PrintEntries(front) + comma, PrintEntry(last));
    }
  }

  /**
   * The manifest of any bounded entries, with or without private text, fits the
   * worst case that the limits are derived from. The text section is not in that
   * arithmetic; the slack of a single entry covers it.
   */
  lemma ManifestFits(m: Manifest)
    requires 1 <= |m.files| && forall i :: 0 <= i < |m.files| ==> Bounded(m.files[i])
    requires m.text.Some? ==> 0 <= m.text.value.offset <= MAX_BYTES && 0 <= m.text.value.size <= MAX_PRIVATE_TEXT_BYTES
    ensures CanPrint(m) && Utf8Length(Print(m)) <= WorstCaseManifestBytes(|m.files|)
  {
    hide Utf8Length, Digits, Ascii, PrintEntries;
    EntriesLength(m.files);
    AsciiLength("{\"kind\":\"files\",\"files\":[");
    AsciiLength("]");
    AsciiLength("}");
    var text := if m.text.Some? then PrintText(m.text.value) else [];
    if m.text.Some? {
      TextLength(m.text.value);
    } else {
      EmptyLength();
    }
    var p1 := Ascii("{\"kind\":\"files\",\"files\":[") + PrintEntries(m.files);
    LengthOfConcat(Ascii("{\"kind\":\"files\",\"files\":["), PrintEntries(m.files));
    LengthOfConcat(p1, Ascii("]"));
    LengthOfConcat(p1 + Ascii("]"), text);
    LengthOfConcat(p1 + Ascii("]") + text, Ascii("}"));
  }

  lemma EmptyLength()
    ensures Utf8Length([]) == 0
  {
  }

  lemma TextLength(t: TextMeta)
    requires 0 <= t.offset <= MAX_BYTES && 0 <= t.size <= MAX_PRIVATE_TEXT_BYTES
    ensures Utf8Length(PrintText(t)) <= 41
  {
    hide Utf8Length, Digits, Ascii;
    AsciiLength(",\"text\":{\"offset\":");
    AsciiLength(",\"size\":");
    AsciiLength("}");
    assert Power10(8) == 100_000_000 && Power10(5) == 100_000;
    DigitsLength(t.offset, 8, 100_000_000);
    DigitsLength(t.size, 5, 100_000);
    var p1 := Ascii(",\"text\":{\"offset\":") + Digits(t.offset);
    LengthOfConcat(Ascii(",\"text\":{\"offset\":"), Digits(t.offset));
    LengthOfConcat(p1, Ascii(",\"size\":"));
    LengthOfConcat(p1 + Ascii(",\"size\":"), Digits(t.size));
    LengthOfConcat(p1 + Ascii(",\"size\":") + Digits(t.size), Ascii("}"));
  }

  // ---------------------------------------------------------------------- reading

  const KIND: Text := Ascii("kind")
  const FILES: Text := Ascii("files")
  const TEXT: Text := Ascii("text")
  const NAME: Text := Ascii("name")
  const SIZE: Text := Ascii("size")
  const OFFSET: Text := Ascii("offset")
  const SHA256: Text := Ascii("sha256")
  const TYPE: Text := Ascii("type")

  /** A whole number that is not -0, or -1 for anything that is no byte count. */
  function CountOf(v: Option<Value>): int {
    if v.Some? && v.value.Num? && !v.value.negative && v.value.size >= 0.0 && v.value.size == v.value.size.Floor as real then v.value.size.Floor else -1
  }

  predicate IsStr(v: Option<Value>) {
    v.Some? && v.value.Str?
  }

  function ReadEntry(v: Value): Entry {
    if !HasExactKeys(v, {NAME, SIZE, OFFSET, SHA256, TYPE}) then Entry(false, [], 0, 0, [], [])
    else
      var name, sha, hint := Lookup(v.members, NAME), Lookup(v.members, SHA256), Lookup(v.members, TYPE);
      if IsStr(name) && IsStr(sha) && IsStr(hint)
      then Entry(true, name.value.s, CountOf(Lookup(v.members, SIZE)), CountOf(Lookup(v.members, OFFSET)), sha.value.s, hint.value.s)
      else Entry(false, [], 0, 0, [], [])
  }

  function ReadText(v: Option<Value>): TextMeta {
    if v.Some? && HasExactKeys(v.value, {OFFSET, SIZE})
    then TextMeta(true, CountOf(Lookup(v.value.members, OFFSET)), CountOf(Lookup(v.value.members, SIZE)))
    else TextMeta(false, 0, 0)
  }

  /** What the validator finds in a parsed manifest: which keys, and what under them. */
  function Read(v: Value): Manifest {
    var combined := HasExactKeys(v, {KIND, FILES, TEXT});
    if !combined && !HasExactKeys(v, {KIND, FILES}) then Manifest(false, [], None)
    else
      var kind, files := Lookup(v.members, KIND), Lookup(v.members, FILES);
      if kind != Some(Str(FILES)) || files.None? || !files.value.Arr? then Manifest(false, [], None)
      else
        var items := files.value.items;
        Manifest(true, seq(|items|, i requires 0 <= i < |items| => ReadEntry(items[i])),
                 if combined then Some(ReadText(Lookup(v.members, TEXT))) else None)
  }

  // ------------------------------------------------------- the printed text is read back

  function EntryJson(e: Entry): Value
    requires e.size >= 0 && e.offset >= 0
  {
    Obj([Member(NAME, Str(e.name)), Member(SIZE, Num(false, e.size as real)), Member(OFFSET, Num(false, e.offset as real)),
         Member(SHA256, Str(e.sha256)), Member(TYPE, Str(e.hint))])
  }

  function EntriesJson(files: seq<Entry>): seq<Value>
    requires Printable(files)
  {
    seq(|files|, i requires 0 <= i < |files| => EntryJson(files[i]))
  }

  function ManifestMembers(m: Manifest): seq<Member>
    requires CanPrint(m)
  {
    [Member(KIND, Str(FILES)), Member(FILES, Arr(EntriesJson(m.files)))]
    + if m.text.None? then []
      else [Member(TEXT, Obj([Member(OFFSET, Num(false, m.text.value.offset as real)), Member(SIZE, Num(false, m.text.value.size as real))]))]
  }

  predicate Typed(m: Manifest) {
    && m.shapeOk && (m.text.Some? ==> m.text.value.wellTyped)
    && forall i :: 0 <= i < |m.files| ==> m.files[i].wellTyped
  }

  /** Every string of the manifest is one JavaScript can hold. */
  predicate Strings(files: seq<Entry>) {
    forall i :: 0 <= i < |files| ==> Stable(files[i].name) && Stable(files[i].sha256) && Stable(files[i].hint)
  }

  lemma KeysDiffer()
    ensures |NAME| == 4 && |SIZE| == 4 && |OFFSET| == 6 && |SHA256| == 6 && |TYPE| == 4 && |KIND| == 4 && |FILES| == 5 && |TEXT| == 4
    ensures NAME[0] == 110 && SIZE[0] == 115 && OFFSET[0] == 111 && SHA256[0] == 115 && TYPE[0] == 116 && KIND[0] == 107 && TEXT[0] == 116 && TYPE[1] == 121 && TEXT[1] == 101
  {
  }

  lemma EntryReads(e: Entry)
    requires e.wellTyped && e.size >= 0 && e.offset >= 0
    ensures ReadEntry(EntryJson(e)) == e
  {
    hide Lookup, Keys, Ascii;
    KeysDiffer();
    var a, b := Member(NAME, Str(e.name)), Member(SIZE, Num(false, e.size as real));
    var c, d, t := Member(OFFSET, Num(false, e.offset as real)), Member(SHA256, Str(e.sha256)), Member(TYPE, Str(e.hint));
    Lookup2(a, b);
    forall key
      ensures Lookup([a, b, c, d, t], key) == if key == TYPE then Some(t.value) else if key == SHA256 then Some(d.value) else if key == OFFSET then Some(c.value) else Lookup([a, b], key)
    {
      LookupMore([a, b], c, key);
      LookupMore([a, b] + [c], d, key);
      LookupMore([a, b] + [c] + [d], t, key);
      assert [a, b] + [c] + [d] + [t] == [a, b, c, d, t];
    }
    LookupMore([a, b], c, NAME);
    LookupMore([a, b] + [c], d, NAME);
    LookupMore([a, b] + [c] + [d], t, NAME);
    assert EntryJson(e) == Obj([a, b] + [c] + [d] + [t]);
    assert Keys([a, b] + [c] + [d] + [t]) == {NAME, SIZE, OFFSET, SHA256, TYPE};
  }

  lemma ManifestReads(m: Manifest)
    requires CanPrint(m) && Typed(m)
    ensures Read(Obj(ManifestMembers(m))) == m
  {
    hide Lookup, Keys, Ascii, ReadEntry, EntryJson;
    KeysDiffer();
    var a, b := Member(KIND, Str(FILES)), Member(FILES, Arr(EntriesJson(m.files)));
    Lookup2(a, b);
    if m.text.Some? {
      var o, s := Member(OFFSET, Num(false, m.text.value.offset as real)), Member(SIZE, Num(false, m.text.value.size as real));
      Lookup2(o, s);
      var t := Member(TEXT, Obj([o, s]));
      LookupMore([a, b], t, KIND);
      LookupMore([a, b], t, FILES);
      LookupMore([a, b], t, TEXT);
      assert ReadText(Some(Obj([o, s]))) == m.text.value;
      assert ManifestMembers(m) == [a, b] + [t];
    } else {
      assert ManifestMembers(m) == [a, b];
      assert TEXT !in {KIND, FILES};
    }
    forall i | 0 <= i < |m.files|
      ensures ReadEntry(EntryJson(m.files[i])) == m.files[i]
    {
      EntryReads(m.files[i]);
    }
  }

  // ------------------------------------------------------- the text is JSON's own

  lemma KeysAreBare()
    ensures Bare(NAME) && Bare(SIZE) && Bare(OFFSET) && Bare(SHA256) && Bare(TYPE) && Bare(KIND) && Bare(FILES) && Bare(TEXT)
  {
  }

  lemma KeyTexts()
    ensures Ascii("{\"name\":") == [123] + Quoted(NAME) + [58] && Ascii(",\"size\":") == [44] + Quoted(SIZE) + [58]
    ensures Ascii(",\"offset\":") == [44] + Quoted(OFFSET) + [58] && Ascii(",\"sha256\":") == [44] + Quoted(SHA256) + [58]
    ensures Ascii(",\"type\":") == [44] + Quoted(TYPE) + [58] && Ascii("}") == [125]
    ensures Stable(NAME) && Stable(SIZE) && Stable(OFFSET) && Stable(SHA256) && Stable(TYPE)
  {
    hide Ascii, Quoted, Stable, Bare;
    KeysAreBare();
    KeyPrints("{", "name");
    KeyPrints(",", "size");
    KeyPrints(",", "offset");
    KeyPrints(",", "sha256");
    KeyPrints(",", "type");
    KeyLiterals();
  }

  /** The texts as written out, and as put together from key names. */
  lemma KeyLiterals()
    ensures "{\"name\":" == "{" + "\"" + "name" + "\":" && ",\"size\":" == "," + "\"" + "size" + "\":"
    ensures ",\"offset\":" == "," + "\"" + "offset" + "\":" && ",\"sha256\":" == "," + "\"" + "sha256" + "\":"
    ensures ",\"type\":" == "," + "\"" + "type" + "\":"
    ensures Ascii("}") == [125] && Ascii("]") == [93] && Ascii("[") == [91]
  {
  }

  lemma EntryCompact(e: Entry)
    requires e.size >= 0 && e.offset >= 0 && Stable(e.name) && Stable(e.sha256) && Stable(e.hint)
    ensures Plain(EntryJson(e)) && Compact(EntryJson(e)) == PrintEntry(e)
  {
    hide Digits, Quoted, Ascii, CompactMembers, Stable, Plain, Compact;
    KeyTexts();
    ValuesCompact(e);
    var a, b := Member(NAME, Str(e.name)), Member(SIZE, Num(false, e.size as real));
    var c, d, t := Member(OFFSET, Num(false, e.offset as real)), Member(SHA256, Str(e.sha256)), Member(TYPE, Str(e.hint));
    var p1 := Ascii("{\"name\":") + Quoted(e.name);
    var p2 := p1 + Ascii(",\"size\":") + Digits(e.size);
    var p3 := p2 + Ascii(",\"offset\":") + Digits(e.offset);
    var p4 := p3 + Ascii(",\"sha256\":") + Quoted(e.sha256);
    FollowingPrints(p4, TYPE, t.value, []);
    FollowingPrints(p3, SHA256, d.value, [t]);
    FollowingPrints(p2, OFFSET, c.value, [d, t]);
    FollowingPrints(p1, SIZE, b.value, [c, d, t]);
    MemberPrints([123], NAME, a.value, [b, c, d, t]);
    assert [t] + [] == [t] && [d] + [t] == [d, t] && [c] + [d, t] == [c, d, t] && [b] + [c, d, t] == [b, c, d, t] && [a] + [b, c, d, t] == [a, b, c, d, t];
    PlainObject([a, b, c, d, t]);
    assert [123] + (Quoted(NAME) + [58]) == [123] + Quoted(NAME) + [58];
  }

  lemma ValuesCompact(e: Entry)
    requires e.size >= 0 && e.offset >= 0 && Stable(e.name) && Stable(e.sha256) && Stable(e.hint)
    ensures Plain(Str(e.name)) && Plain(Str(e.sha256)) && Plain(Str(e.hint)) && Plain(Num(false, e.size as real)) && Plain(Num(false, e.offset as real))
    ensures Compact(Str(e.name)) == Quoted(e.name) && Compact(Str(e.sha256)) == Quoted(e.sha256) && Compact(Str(e.hint)) == Quoted(e.hint)
    ensures Compact(Num(false, e.size as real)) == Digits(e.size) && Compact(Num(false, e.offset as real)) == Digits(e.offset)
  {
  }

  lemma EntriesArePlain(files: seq<Entry>)
    requires Printable(files) && Strings(files)
    ensures forall i :: 0 <= i < |files| ==> Plain(EntriesJson(files)[i]) && Compact(EntriesJson(files)[i]) == PrintEntry(files[i])
  {
    hide Plain, Compact, PrintEntry, EntryJson, Stable;
    forall i | 0 <= i < |files|
      ensures Plain(EntriesJson(files)[i]) && Compact(EntriesJson(files)[i]) == PrintEntry(files[i])
    {
      EntryCompact(files[i]);
    }
  }

  /** The first entries as the printer lists them, then the rest as an array's text goes on. */
  lemma {:induction false} EntriesCompact(files: seq<Entry>, n: nat)
    requires Printable(files) && n < |files|
    requires forall i :: 0 <= i < |files| ==> Plain(EntriesJson(files)[i]) && Compact(EntriesJson(files)[i]) == PrintEntry(files[i])
    ensures PrintEntries(files[..n]) + (if n == 0 then [] else [44]) + CompactItems(EntriesJson(files)[n..]) == CompactItems(EntriesJson(files))
  {
    hide Plain, Compact, PrintEntry, PrintEntries, EntryJson, CompactItems;
    var items := EntriesJson(files);
    if n == 0 {
      assert items[0..] == items && files[..0] == [];
      NothingPrinted();
    } else {
      EntriesCompact(files, n - 1);
      assert files[..n][..n - 1] == files[..n - 1] && files[..n][n - 1] == files[n - 1];
      EntriesEnd(files[..n]);
      ItemsFrom(items, n - 1);
      Regroup4(PrintEntries(files[..n - 1]) + (if n == 1 then [] else [44]), PrintEntry(files[n - 1]), [44], CompactItems(items[n..]));
    }
  }

  lemma NothingPrinted()
    ensures PrintEntries([]) == [] && forall s: Text :: [] + [] + s == s
  {
  }

  lemma ListCompact(files: seq<Entry>)
    requires Printable(files) && Strings(files)
    ensures forall i :: 0 <= i < |files| ==> Plain(EntriesJson(files)[i])
    ensures PrintEntries(files) + [93] == CompactItems(EntriesJson(files))
  {
    hide Plain, Compact, PrintEntry, PrintEntries, CompactItems, EntriesJson, Stable;
    EntriesArePlain(files);
    var items := EntriesJson(files);
    if files == [] {
      NoEntries();
    } else {
      var n := |files| - 1;
      EntriesCompact(files, n);
      assert |items| == |files| by { EntriesCount(files); }
      EntriesEnd(files);
      LastItem(items);
      Regroup3(PrintEntries(files[..n]) + (if n == 0 then [] else [44]), PrintEntry(files[n]), [93]);
    }
  }

  lemma EntriesCount(files: seq<Entry>)
    requires Printable(files)
    ensures |EntriesJson(files)| == |files|
  {
  }

  lemma NoEntries()
    ensures PrintEntries([]) + [93] == CompactItems(EntriesJson([]))
  {
  }

  lemma EntriesEnd(files: seq<Entry>)
    requires Printable(files) && files != []
    ensures var n := |files| - 1; PrintEntries(files) == PrintEntries(files[..n]) + (if n == 0 then [] else [44]) + PrintEntry(files[n])
  {
    hide PrintEntry, Ascii;
    CommaText();
  }

  lemma CommaText()
    ensures Ascii(",") == [44]
  {
  }

  lemma TextCompact(t: TextMeta)
    requires t.offset >= 0 && t.size >= 0
    ensures var v := Obj([Member(OFFSET, Num(false, t.offset as real)), Member(SIZE, Num(false, t.size as real))]);
      Plain(v) && Stable(TEXT) && PrintText(t) + [125] == [44] + CompactMembers([Member(TEXT, v)])
  {
    hide Digits, Quoted, Ascii, CompactMembers, Stable, Plain, Compact;
    TextKeyTexts();
    var o, s := Member(OFFSET, Num(false, t.offset as real)), Member(SIZE, Num(false, t.size as real));
    CountsCompact(t.offset);
    CountsCompact(t.size);
    var p := Ascii(",\"text\":{\"offset\":") + Digits(t.offset);
    FollowingPrints(p, SIZE, s.value, []);
    var q := [44] + Quoted(TEXT) + [58];
    MemberPrints(q + [123], OFFSET, o.value, [s]);
    assert [s] + [] == [s] && [o] + [s] == [o, s];
    PlainObject([o, s]);
    MemberPrints([44], TEXT, Obj([o, s]), []);
    assert [Member(TEXT, Obj([o, s]))] + [] == [Member(TEXT, Obj([o, s]))];
    assert q + [123] + CompactMembers([o, s]) == q + ([123] + CompactMembers([o, s]));
    assert [44] + (Quoted(TEXT) + [58]) == q;
  }

  lemma CountsCompact(n: nat)
    ensures Plain(Num(false, n as real)) && Compact(Num(false, n as real)) == Digits(n)
  {
  }

  lemma TextKeyTexts()
    ensures Ascii(",\"text\":{\"offset\":") == [44] + Quoted(TEXT) + [58] + [123] + (Quoted(OFFSET) + [58])
    ensures Ascii(",\"size\":") == [44] + Quoted(SIZE) + [58] && Ascii("}") == [125]
    ensures Stable(TEXT) && Stable(OFFSET) && Stable(SIZE)
  {
    hide Ascii, Quoted, Stable, Bare;
    KeysAreBare();
    KeyTexts();
    KeyPrints(",", "text");
    KeyPrints("{", "offset");
    var a, b := "," + "\"" + "text" + "\":", "{" + "\"" + "offset" + "\":";
    AsciiConcat(a, b);
    TextLiterals();
    Regroup3([123], Quoted(OFFSET), [58]);
    Regroup3([44] + Quoted(TEXT) + [58], [123], Quoted(OFFSET) + [58]);
  }

  lemma TextLiterals()
    ensures ",\"text\":{\"offset\":" == ("," + "\"" + "text" + "\":") + ("{" + "\"" + "offset" + "\":")
  {
  }

  lemma HeadTexts()
    ensures Ascii("{\"kind\":\"files\",\"files\":[") == [123] + (Quoted(KIND) + [58]) + Quoted(FILES) + ([44] + Quoted(FILES) + [58]) + [91]
    ensures Ascii("]") == [93] && Ascii("}") == [125] && Stable(KIND) && Stable(FILES)
  {
    hide Ascii, Quoted, Stable, Bare;
    KeysAreBare();
    KeyLiterals();
    KeyPrints("{", "kind");
    KeyPrints(",", "files");
    QuotedBare(FILES);
    FilesText();
    var a, b, c := "{" + "\"" + "kind" + "\":", "\"files\"", "," + "\"" + "files" + "\":";
    AsciiConcat(a, b);
    AsciiConcat(a + b, c);
    AsciiConcat(a + b + c, "[");
    HeadLiterals();
    Regroup3([123], Quoted(KIND), [58]);
  }

  lemma FilesText()
    ensures Ascii("\"files\"") == [34] + FILES + [34]
  {
  }

  lemma HeadLiterals()
    ensures "{\"kind\":\"files\",\"files\":[" == ("{" + "\"" + "kind" + "\":") + "\"files\"" + ("," + "\"" + "files" + "\":") + "["
  {
  }

  /** What is printed is the compact JSON of the manifest's object. */
  lemma PrintIsCompact(m: Manifest)
    requires CanPrint(m) && Strings(m.files)
    ensures Plain(Obj(ManifestMembers(m))) && Print(m) == Compact(Obj(ManifestMembers(m)))
  {
    hide Quoted, Ascii, CompactMembers, CompactItems, PrintEntries, PrintText, Stable, Plain, Compact;
    HeadTexts();
    ListCompact(m.files);
    var kind, files := Member(KIND, Str(FILES)), Member(FILES, Arr(EntriesJson(m.files)));
    HeadValues(EntriesJson(m.files));
    var tail := ManifestMembers(m)[2..];
    if m.text.Some? {
      TextCompact(m.text.value);
    }
    var head := [123] + (Quoted(KIND) + [58]) + Quoted(FILES);
    MemberPrints(head + [44], FILES, files.value, tail);
    MemberPrints([123], KIND, kind.value, [files] + tail);
    assert [kind] + ([files] + tail) == ManifestMembers(m);
    PlainObject(ManifestMembers(m));
    var list := PrintEntries(m.files);
    var last := if m.text.Some? then PrintText(m.text.value) + [125] else [125];
    assert last == if tail == [] then [125] else [44] + CompactMembers(tail);
    Print4(head, [44] + Quoted(FILES) + [58], list, if m.text.Some? then PrintText(m.text.value) else [], last);
    assert head + ([44] + Quoted(FILES) + [58]) == head + [44] + (Quoted(FILES) + [58]);
    assert head + ([44] + CompactMembers([files] + tail)) == head + [44] + CompactMembers([files] + tail);
  }

  lemma Print4(head: Text, key: Text, list: Text, text: Text, last: Text)
    requires last == text + [125]
    ensures head + key + [91] + list + [93] + text + [125] == head + key + ([91] + (list + [93])) + last
  {
  }

  lemma HeadValues(items: seq<Value>)
    requires forall i :: 0 <= i < |items| ==> Plain(items[i])
    requires Stable(FILES)
    ensures Plain(Str(FILES)) && Compact(Str(FILES)) == Quoted(FILES)
    ensures Plain(Arr(items)) && Compact(Arr(items)) == [91] + CompactItems(items)
  {
  }

  /** A printed manifest is plain text that JSON reads back as the manifest it was. */
  lemma PrintedReadsBack(m: Manifest)
    requires CanPrint(m) && Typed(m) && Strings(m.files)
    ensures Parse(Print(m)).Some? && Read(Parse(Print(m)).value) == m
    ensures NoSurrogates(Print(m)) && Print(m) != [] && Print(m)[0] == 123
  {
    hide Print, Parse, Read, Plain, Compact, ManifestMembers;
    PrintIsCompact(m);
    ParseUndoesCompact(Obj(ManifestMembers(m)));
    ManifestReads(m);
    CompactIsClean(Obj(ManifestMembers(m)));
    BraceFirst(ManifestMembers(m));
  }

  lemma BraceFirst(ms: seq<Member>)
    requires Plain(Obj(ms))
    ensures Compact(Obj(ms)) != [] && Compact(Obj(ms))[0] == 123
  {
    hide CompactMembers;
  }
}
