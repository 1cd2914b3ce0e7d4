/**
 * The structured payload of an outbound drop, src/outbound-payload.js: what is
 * accepted, the one text it is stored as, and the secrets generated for it.
 */
module OutboundPayload {
  import opened Basics
  import opened Names
  import opened Json

  const MAX_FIELDS: nat := 8
  const MAX_LABEL_CHARS: nat := 40
  const MAX_TITLE_CHARS: nat := 60
  const MAX_VALUE_BYTES: nat := 512
  const MAX_PAYLOAD_BYTES: nat := 1536
  const MAX_NOTE_LINES: nat := 8
  const MIN_GENERATE_LENGTH: nat := 8
  const MAX_GENERATE_LENGTH: nat := 64

  datatype Reason =
    | BadGenerate | BadLabel | BadTitle | BadType | BadUrl | BadValue | BadVersion | DuplicateLabel | LabelTooLong
    | NoFields | NotAnObject | NotJson | PayloadTooLarge | TitleTooLong | TooManyFields | UnknownKey | ValueTooLong

  datatype Checked<+T> = Ok(value: T) | Refused(reason: Reason)

  /** The Unicode classes the expressions name, lower case, and what the URL parser accepts over http. */
  datatype Tables = Tables(other: Point -> bool, breaks: Point -> bool, white: Point -> bool, word: Point -> bool, lower: Text -> Text, webUrl: Text -> bool)

  /** Surrogates are of category Cs. */
  ghost predicate TableLaws(t: Tables) {
    forall c: Point :: High(c) || Low(c) ==> t.other(c)
  }

  datatype FieldType = Plaintext | Secret | Url | Note

  datatype Field = Field(caption: Text, kind: FieldType, value: Text)

  datatype Payload = Payload(title: Option<Text>, fields: seq<Field>)

  const VERSION_KEY: Text := Ascii("v")
  const TITLE: Text := Ascii("title")
  const FIELDS: Text := Ascii("fields")
  const LABEL: Text := Ascii("label")
  const TYPE: Text := Ascii("type")
  const VALUE: Text := Ascii("value")
  const GENERATE: Text := Ascii("generate")
  const KIND: Text := Ascii("kind")
  const LENGTH: Text := Ascii("length")

  function TypeName(kind: FieldType): Text {
    match kind
    case Plaintext => Ascii("text")
    case Secret => Ascii("secret")
    case Url => Ascii("url")
    case Note => Ascii("note")
  }

  function TypeNamed(s: Text): (kind: Option<FieldType>)
    ensures kind.Some? ==> TypeName(kind.value) == s
  {
    if s == Ascii("text") then Some(Plaintext)
    else if s == Ascii("secret") then Some(Secret)
    else if s == Ascii("url") then Some(Url)
    else if s == Ascii("note") then Some(Note)
    else None
  }

  lemma TypeNamesDiffer(kind: FieldType)
    ensures TypeNamed(TypeName(kind)) == Some(kind) && Bare(TypeName(kind))
  {
    assert |Ascii("text")| == 4 && |Ascii("secret")| == 6 && |Ascii("url")| == 3 && |Ascii("note")| == 4;
    assert Ascii("text")[0] == 116 && Ascii("note")[0] == 110;
  }

  // ------------------------------------------------------------------ the checks

  predicate Trimmed(t: Tables, s: Text) {
    s == [] || (!t.white(s[0]) && !t.white(s[|s| - 1]))
  }

  /** Some character of the class, other than the ones carved out of it. */
  predicate Has(s: Text, test: Point -> bool, but: set<nat>) {
    exists i :: 0 <= i < |s| && test(s[i]) && s[i] !in but
  }

  predicate DoubleSpace(s: Text) {
    exists i :: 0 <= i < |s| - 1 && s[i] == 32 && s[i + 1] == 32
  }

  datatype Problem = Fine | Bad | TooLong

  /** `headingProblem`. */
  function HeadingProblem(t: Tables, v: Option<Value>, maxChars: nat): Problem {
    if v.None? || !v.value.Str? || v.value.s == [] then Bad
    else
      var s := v.value.s;
      if |s| > maxChars then TooLong
      else if Has(s, t.other, {}) || Has(s, t.breaks, {}) then Bad
      else if Has(s, t.white, {32}) then Bad
      else if DoubleSpace(s) || !Trimmed(t, s) || !Has(s, t.word, {}) then Bad
      else Fine
  }

  function LabelRefusal(t: Tables, v: Option<Value>): Option<Reason> {
    match HeadingProblem(t, v, MAX_LABEL_CHARS)
    case Fine => None
    case Bad => Some(BadLabel)
    case TooLong => Some(LabelTooLong)
  }

  function TitleRefusal(t: Tables, v: Option<Value>): Option<Reason> {
    match HeadingProblem(t, v, MAX_TITLE_CHARS)
    case Fine => None
    case Bad => Some(BadTitle)
    case TooLong => Some(TitleTooLong)
  }

  function Newlines(s: Text): nat {
    if s == [] then 0 else Newlines(s[..|s| - 1]) + if s[|s| - 1] == 10 then 1 else 0
  }

  /** `validateValue`. */
  function ValueRefusal(t: Tables, v: Option<Value>, kind: FieldType): Option<Reason> {
    if v.None? || !v.value.Str? || v.value.s == [] then Some(BadValue)
    else
      var s := v.value.s;
      if Utf8Length(s) > MAX_VALUE_BYTES then Some(ValueTooLong)
      else if !Trimmed(t, s) then Some(BadValue)
      else if kind.Note? then
        if Has(s, t.breaks, {}) || Has(s, t.other, {10}) || Has(s, t.white, {32, 10}) || Newlines(s) + 1 > MAX_NOTE_LINES
        then Some(BadValue) else None
      else if Has(s, t.other, {}) || Has(s, t.breaks, {}) || Has(s, t.white, {32}) then Some(BadValue)
      else if kind.Url? && (32 in s || !t.webUrl(s)) then Some(BadUrl)
      else None
  }

  predicate OnlyKeys(members: seq<Member>, allowed: set<Text>) {
    Keys(members) <= allowed
  }

  /** `validateField`: a field with no type is a secret. */
  function ValidateField(t: Tables, v: Value): Checked<Field> {
    if !v.Obj? then Refused(BadLabel)
    else if !OnlyKeys(v.members, {LABEL, TYPE, VALUE, GENERATE}) then Refused(UnknownKey)
    else if Lookup(v.members, GENERATE).Some? then Refused(BadValue)
    else
      var caption, kind, value := Lookup(v.members, LABEL), Lookup(v.members, TYPE), Lookup(v.members, VALUE);
      if LabelRefusal(t, caption).Some? then Refused(LabelRefusal(t, caption).value)
      else if kind.Some? && (!kind.value.Str? || TypeNamed(kind.value.s).None?) then Refused(BadType)
      else
        var fieldType := if kind.None? then Secret else TypeNamed(kind.value.s).value;
        if ValueRefusal(t, value, fieldType).Some? then Refused(ValueRefusal(t, value, fieldType).value)
        else Ok(Field(caption.value.s, fieldType, value.value.s))
  }

  function Labels(t: Tables, fields: seq<Field>): set<Text> {
    set i | 0 <= i < |fields| :: t.lower(fields[i].caption)
  }

  /** The fields of a list, if every one is accepted and no label comes back in another case. */
  function ValidateFields(t: Tables, items: seq<Value>): Checked<seq<Field>> {
    if items == [] then Ok([])
    else
      match ValidateFields(t, items[..|items| - 1])
      case Refused(reason) => Refused(reason)
      case Ok(front) =>
        match ValidateField(t, items[|items| - 1])
        case Refused(reason) => Refused(reason)
        case Ok(field) => if t.lower(field.caption) in Labels(t, front) then Refused(DuplicateLabel) else Ok(front + [field])
  }

  /** `validateOutboundPayload`. */
  function Validate(t: Tables, v: Value): Checked<Payload> {
    if !v.Obj? then Refused(NotAnObject)
    else if !OnlyKeys(v.members, {VERSION_KEY, TITLE, FIELDS}) then Refused(UnknownKey)
    else if Lookup(v.members, VERSION_KEY) != Some(Num(false, 1.0)) then Refused(BadVersion)
    else
      var title, fields := Lookup(v.members, TITLE), Lookup(v.members, FIELDS);
      if title.Some? && TitleRefusal(t, title).Some? then Refused(TitleRefusal(t, title).value)
      else if fields.None? || !fields.value.Arr? || fields.value.items == [] then Refused(NoFields)
      else if |fields.value.items| > MAX_FIELDS then Refused(TooManyFields)
      else
        match ValidateFields(t, fields.value.items)
        case Refused(reason) => Refused(reason)
        case Ok(checked) =>
          var payload := Payload(if title.Some? then Some(title.value.s) else None, checked);
          if Utf8Length(Canonical(payload)) > MAX_PAYLOAD_BYTES then Refused(PayloadTooLarge) else Ok(payload)
  }

  // ------------------------------------------------------------------ the one text

  function FieldText(f: Field): Text {
    Ascii("{\"label\":") + Quoted(f.caption) + Ascii(",\"type\":") + Quoted(TypeName(f.kind)) + Ascii(",\"value\":") + Quoted(f.value) + Ascii("}")
  }

  /** The fields' texts joined by commas. */
  function FieldTexts(fields: seq<Field>): Text {
    if fields == [] then []
    else
      FieldTexts(fields[..|fields| - 1]) + (if |fields| == 1 then [] else Ascii(",")) + FieldText(fields[|fields| - 1])
  }

  /** `canonicalizeOutboundPayload`. */
  function Canonical(p: Payload): Text {
    var title := if p.title.Some? then Ascii("\"title\":") + Quoted(p.title.value) + Ascii(",") else [];
    Ascii("{\"v\":") + Ascii("1,") + title + Ascii("\"fields\":[") + FieldTexts(p.fields) + Ascii("]}")
  }

  /** `parseOutboundPayload`. */
  function ParsePayload(t: Tables, text: Text): Checked<Payload> {
    if Utf8Length(text) > MAX_PAYLOAD_BYTES then Refused(PayloadTooLarge)
    else
      match Parse(text)
      case None => Refused(NotJson)
      case Some(v) => Validate(t, v)
  }

  // ------------------------------------------------------------------ the loop

  /** The loop of `validateOutboundPayload` over the fields. */
  method CheckFields(t: Tables, items: seq<Value>) returns (r: Checked<seq<Field>>)
    ensures r == ValidateFields(t, items)
  {
    hide ValidateField;
    var fields: seq<Field> := [];
    var seen: set<Text> := {};
    var i := 0;
    while i < |items|
      invariant i <= |items| && ValidateFields(t, items[..i]) == Ok(fields) && seen == Labels(t, fields)
    {
      assert items[..i + 1][..i] == items[..i] && items[..i + 1][i] == items[i];
      RefusalStays(t, items, i + 1);
      match ValidateField(t, items[i]) {
        case Refused(reason) =>
          return Refused(reason);
        case Ok(field) =>
          var key := t.lower(field.caption);
          if key in seen {
            return Refused(DuplicateLabel);
          }
          LabelsMore(t, fields, field);
          seen := seen + {key};
          fields := fields + [field];
      }
      i := i + 1;
    }
    assert items[..i] == items;
    return Ok(fields);
  }

  lemma LabelsMore(t: Tables, fields: seq<Field>, f: Field)
    ensures Labels(t, fields + [f]) == Labels(t, fields) + {t.lower(f.caption)}
  {
    assert forall i :: 0 <= i < |fields| ==> (fields + [f])[i] == fields[i];
    assert (fields + [f])[|fields|] == f;
  }

  lemma {:induction false} RefusalStays(t: Tables, items: seq<Value>, n: nat)
    requires n <= |items|
    ensures ValidateFields(t, items[..n]).Refused? ==> ValidateFields(t, items) == ValidateFields(t, items[..n])
    decreases |items|
  {
    if n == |items| {
      assert items[..n] == items;
    } else {
      assert items[..|items| - 1][..n] == items[..n];
      RefusalStays(t, items[..|items| - 1], n);
    }
  }

  // ------------------------------------------------------------------ the round trip

  function FieldJson(f: Field): Value {
    Obj([Member(LABEL, Str(f.caption)), Member(TYPE, Str(TypeName(f.kind))), Member(VALUE, Str(f.value))])
  }

  function FieldsJson(fields: seq<Field>): seq<Value> {
    seq(|fields|, i requires 0 <= i < |fields| => FieldJson(fields[i]))
  }

  /** The object a payload is, in the order it is written. */
  function PayloadMembers(p: Payload): seq<Member> {
    [Member(VERSION_KEY, Num(false, 1.0))] + (if p.title.Some? then [Member(TITLE, Str(p.title.value))] else [])
    + [Member(FIELDS, Arr(FieldsJson(p.fields)))]
  }

  /** What `validateField` promises of a field it returns. */
  predicate Accepted(t: Tables, f: Field) {
    && LabelRefusal(t, Some(Str(f.caption))) == None && ValueRefusal(t, Some(Str(f.value)), f.kind) == None
  }

  lemma FieldIsAccepted(t: Tables, v: Value)
    ensures ValidateField(t, v).Ok? ==>
      var f := ValidateField(t, v).value;
      && v.Obj? && Lookup(v.members, LABEL) == Some(Str(f.caption)) && Lookup(v.members, VALUE) == Some(Str(f.value))
      && (Lookup(v.members, TYPE) == Some(Str(TypeName(f.kind))) || (Lookup(v.members, TYPE).None? && f.kind.Secret?))
      && Lookup(v.members, GENERATE).None? && Accepted(t, f)
  {
    hide ValueRefusal, LabelRefusal;
    HeadingIsText(t, if v.Obj? then Lookup(v.members, LABEL) else None, MAX_LABEL_CHARS);
    ValueIsText(t, v);
  }

  lemma HeadingIsText(t: Tables, v: Option<Value>, maxChars: nat)
    ensures HeadingProblem(t, v, maxChars).Fine? ==> v.Some? && v.value.Str?
    ensures LabelRefusal(t, v).None? <==> HeadingProblem(t, v, MAX_LABEL_CHARS).Fine?
    ensures TitleRefusal(t, v).None? <==> HeadingProblem(t, v, MAX_TITLE_CHARS).Fine?
  {
  }

  lemma ValueIsText(t: Tables, v: Value)
    ensures v.Obj? ==> forall kind :: ValueRefusal(t, Lookup(v.members, VALUE), kind).None? ==> Lookup(v.members, VALUE).Some? && Lookup(v.members, VALUE).value.Str?
  {
  }

  lemma KeysApart()
    ensures |VERSION_KEY| == 1 && |TITLE| == 5 && |FIELDS| == 6 && |LABEL| == 5 && |TYPE| == 4 && |VALUE| == 5 && |GENERATE| == 8
    ensures LABEL[0] == 108 && VALUE[0] == 118
  {
  }

  /** The written field is accepted as itself. */
  lemma FieldReads(t: Tables, f: Field)
    requires Accepted(t, f)
    ensures ValidateField(t, FieldJson(f)) == Ok(f)
  {
    hide Ascii, Lookup, Keys, LabelRefusal, ValueRefusal, TypeName, TypeNamed;
    KeysApart();
    TypeNamesDiffer(f.kind);
    var a, b, c := Member(LABEL, Str(f.caption)), Member(TYPE, Str(TypeName(f.kind))), Member(VALUE, Str(f.value));
    Lookup2(a, b);
    LookupMore([a, b], c, LABEL);
    LookupMore([a, b], c, TYPE);
    LookupMore([a, b], c, VALUE);
    LookupMore([a, b], c, GENERATE);
    LookupIn([a, b], GENERATE);
    assert FieldJson(f) == Obj([a, b] + [c]);
  }

  lemma {:induction false} LookupIn(members: seq<Member>, key: Text)
    ensures Lookup(members, key).Some? <==> key in Keys(members)
  {
    if members != [] {
      var front, last := members[..|members| - 1], members[|members| - 1];
      LookupIn(front, key);
      LookupMore(front, last, key);
      assert members == front + [last];
    }
  }

  /** Accepted fields, no two under one label. */
  predicate AllAccepted(t: Tables, fields: seq<Field>) {
    && (forall i :: 0 <= i < |fields| ==> Accepted(t, fields[i]))
    && (forall i, j :: 0 <= i < j < |fields| ==> t.lower(fields[i].caption) != t.lower(fields[j].caption))
  }

  /** Every accepted field is the input's own, in its place: nothing is dropped, repaired or cut. */
  lemma {:induction false} FieldsAreTheInput(t: Tables, items: seq<Value>)
    ensures ValidateFields(t, items).Ok? ==>
      var fields := ValidateFields(t, items).value;
      && |fields| == |items| && AllAccepted(t, fields)
      && forall i :: 0 <= i < |items| ==> ValidateField(t, items[i]) == Ok(fields[i])
  {
    hide ValidateField, Accepted;
    if items != [] && ValidateFields(t, items).Ok? {
      FieldsAreTheInput(t, items[..|items| - 1]);
      FieldIsAccepted(t, items[|items| - 1]);
      var front := ValidateFields(t, items[..|items| - 1]).value;
      assert forall i :: 0 <= i < |front| ==> t.lower(front[i].caption) in Labels(t, front);
    }
  }

  lemma {:induction false} FieldsRead(t: Tables, fields: seq<Field>)
    requires AllAccepted(t, fields)
    ensures ValidateFields(t, FieldsJson(fields)) == Ok(fields)
  {
    hide ValidateField, Accepted, FieldJson;
    if fields != [] {
      var front, last := fields[..|fields| - 1], fields[|fields| - 1];
      FieldsRead(t, front);
      FieldReads(t, last);
      assert FieldsJson(fields)[..|front|] == FieldsJson(front);
      assert front + [last] == fields;
    }
  }

  /** What `validateOutboundPayload` promises of a payload it returns. */
  predicate Valid(t: Tables, p: Payload) {
    && (p.title.Some? ==> TitleRefusal(t, Some(Str(p.title.value))) == None)
    && 1 <= |p.fields| <= MAX_FIELDS && AllAccepted(t, p.fields)
    && Utf8Length(Canonical(p)) <= MAX_PAYLOAD_BYTES
  }

  lemma ValidatedIsValid(t: Tables, v: Value)
    ensures Validate(t, v).Ok? ==>
      var p := Validate(t, v).value;
      && Valid(t, p) && v.Obj? && Lookup(v.members, VERSION_KEY) == Some(Num(false, 1.0))
      && Lookup(v.members, TITLE) == (if p.title.Some? then Some(Str(p.title.value)) else None)
      && Lookup(v.members, FIELDS).Some? && Lookup(v.members, FIELDS).value.Arr?
      && var items := Lookup(v.members, FIELDS).value.items;
      |items| == |p.fields| && forall i :: 0 <= i < |items| ==> ValidateField(t, items[i]) == Ok(p.fields[i])
  {
    hide Canonical, ValidateField, ValidateFields, AllAccepted, TitleRefusal, Utf8Length, Lookup;
    if Validate(t, v).Ok? {
      FieldsAreTheInput(t, Lookup(v.members, FIELDS).value.items);
      HeadingIsText(t, Lookup(v.members, TITLE), MAX_TITLE_CHARS);
    }
  }

  lemma ValidReads(t: Tables, p: Payload)
    requires Valid(t, p)
    ensures Validate(t, Obj(PayloadMembers(p))) == Ok(p)
  {
    hide Canonical, ValidateFields, AllAccepted, TitleRefusal, Utf8Length, Lookup, Keys, Ascii, FieldJson;
    KeysApart();
    FieldsRead(t, p.fields);
    var a, c := Member(VERSION_KEY, Num(false, 1.0)), Member(FIELDS, Arr(FieldsJson(p.fields)));
    if p.title.Some? {
      var b := Member(TITLE, Str(p.title.value));
      Lookup2(a, b);
      LookupMore([a, b], c, VERSION_KEY);
      LookupMore([a, b], c, TITLE);
      LookupMore([a, b], c, FIELDS);
      assert PayloadMembers(p) == [a, b] + [c];
    } else {
      Lookup2(a, c);
      LookupIn([a, c], TITLE);
      assert PayloadMembers(p) == [a, c];
    }
    assert |FieldsJson(p.fields)| == |p.fields|;
  }

  lemma AcceptedIsPlain(t: Tables, f: Field)
    requires TableLaws(t) && Accepted(t, f)
    ensures Stable(f.caption) && Stable(f.value)
  {
    hide Utf8Length, Newlines;
    TextIsStable(t, f.caption, {});
    TextIsStable(t, f.value, {});
    TextIsStable(t, f.value, {10});
  }

  lemma TextIsStable(t: Tables, s: Text, but: set<nat>)
    requires TableLaws(t) && but <= {10}
    ensures !Has(s, t.other, but) ==> Stable(s)
  {
    if !Has(s, t.other, but) {
      forall i | 0 <= i < |s| - 1
        ensures !(High(s[i]) && Low(s[i + 1]))
      {
        assert !(t.other(s[i]) && s[i] !in but);
      }
    }
  }

  lemma TitleIsPlain(t: Tables, title: Text)
    requires TableLaws(t) && TitleRefusal(t, Some(Str(title))) == None
    ensures Stable(title)
  {
    TextIsStable(t, title, {});
  }

  lemma PayloadKeysAreBare()
    ensures Bare(VERSION_KEY) && Bare(TITLE) && Bare(FIELDS) && Bare(LABEL) && Bare(TYPE) && Bare(VALUE)
  {
  }

  lemma FieldLiterals()
    ensures "{\"label\":" == "{" + "\"" + "label" + "\":" && ",\"type\":" == "," + "\"" + "type" + "\":" && ",\"value\":" == "," + "\"" + "value" + "\":"
    ensures Ascii("}") == [125] && Ascii(",") == [44]
  {
  }

  lemma FieldKeyTexts()
    ensures Ascii("{\"label\":") == [123] + Quoted(LABEL) + [58] && Ascii(",\"type\":") == [44] + Quoted(TYPE) + [58]
    ensures Ascii(",\"value\":") == [44] + Quoted(VALUE) + [58] && Ascii("}") == [125]
    ensures Stable(LABEL) && Stable(TYPE) && Stable(VALUE)
  {
    hide Ascii, Quoted, Stable, Bare;
    PayloadKeysAreBare();
    KeyPrints("{", "label");
    KeyPrints(",", "type");
    KeyPrints(",", "value");
    FieldLiterals();
  }

  lemma StringCompact(s: Text)
    requires Stable(s)
    ensures Plain(Str(s)) && Compact(Str(s)) == Quoted(s)
  {
  }

  lemma FieldCompact(f: Field)
    requires Stable(f.caption) && Stable(f.value)
    ensures Plain(FieldJson(f)) && Compact(FieldJson(f)) == FieldText(f)
  {
    hide Quoted, Ascii, CompactMembers, Stable, Plain, Compact, TypeName;
    FieldKeyTexts();
    TypeNamesDiffer(f.kind);
    QuotedBare(TypeName(f.kind));
    StringCompact(f.caption);
    StringCompact(TypeName(f.kind));
    StringCompact(f.value);
    var a, b, c := Member(LABEL, Str(f.caption)), Member(TYPE, Str(TypeName(f.kind))), Member(VALUE, Str(f.value));
    var p1 := Ascii("{\"label\":") + Quoted(f.caption);
    FollowingPrints(p1 + Ascii(",\"type\":") + Quoted(TypeName(f.kind)), VALUE, c.value, []);
    FollowingPrints(p1, TYPE, b.value, [c]);
    MemberPrints([123], LABEL, a.value, [b, c]);
    assert [c] + [] == [c] && [b] + [c] == [b, c] && [a] + [b, c] == [a, b, c];
    PlainObject([a, b, c]);
    Regroup3([123], Quoted(LABEL), [58]);
  }

  /** Every label and value is a string JavaScript can hold. */
  predicate Strings(fields: seq<Field>) {
    forall i :: 0 <= i < |fields| ==> Stable(fields[i].caption) && Stable(fields[i].value)
  }

  lemma FieldsArePlain(fields: seq<Field>)
    requires Strings(fields)
    ensures forall i :: 0 <= i < |fields| ==> Plain(FieldsJson(fields)[i]) && Compact(FieldsJson(fields)[i]) == FieldText(fields[i])
  {
    hide Plain, Compact, FieldText, FieldJson, Stable;
    forall i | 0 <= i < |fields|
      ensures Plain(FieldsJson(fields)[i]) && Compact(FieldsJson(fields)[i]) == FieldText(fields[i])
    {
      FieldCompact(fields[i]);
    }
  }

  lemma TextsEnd(fields: seq<Field>)
    requires fields != []
    ensures var n := |fields| - 1; FieldTexts(fields) == FieldTexts(fields[..n]) + (if n == 0 then [] else [44]) + FieldText(fields[n])
  {
    hide FieldText, Ascii;
    FieldLiterals();
  }

  /** The first fields as the joining lists them, then the rest as an array's text goes on. */
  lemma {:induction false} FieldsCompact(fields: seq<Field>, n: nat)
    requires n < |fields|
    requires forall i :: 0 <= i < |fields| ==> Plain(FieldsJson(fields)[i]) && Compact(FieldsJson(fields)[i]) == FieldText(fields[i])
    ensures FieldTexts(fields[..n]) + (if n == 0 then [] else [44]) + CompactItems(FieldsJson(fields)[n..]) == CompactItems(FieldsJson(fields))
  {
    hide Plain, Compact, FieldText, FieldJson, FieldTexts, CompactItems;
    var items := FieldsJson(fields);
    if n == 0 {
      assert items[0..] == items && fields[..0] == [];
      NoTexts();
    } else {
      FieldsCompact(fields, n - 1);
      assert fields[..n][..n - 1] == fields[..n - 1] && fields[..n][n - 1] == fields[n - 1];
      TextsEnd(fields[..n]);
      ItemsFrom(items, n - 1);
      Regroup4(FieldTexts(fields[..n - 1]) + (if n == 1 then [] else [44]), FieldText(fields[n - 1]), [44], CompactItems(items[n..]));
    }
  }

  lemma NoTexts()
    ensures FieldTexts([]) == [] && forall s: Text :: [] + [] + s == s
  {
  }

  lemma FieldsCount(fields: seq<Field>)
    ensures |FieldsJson(fields)| == |fields|
  {
  }

  lemma FieldListCompact(fields: seq<Field>)
    requires fields != [] && Strings(fields)
    ensures forall i :: 0 <= i < |fields| ==> Plain(FieldsJson(fields)[i])
    ensures FieldTexts(fields) + [93] == CompactItems(FieldsJson(fields))
  {
    hide Plain, Compact, FieldText, FieldsJson, FieldTexts, CompactItems, Stable, Strings;
    FieldsArePlain(fields);
    FieldsCount(fields);
    var items, n := FieldsJson(fields), |fields| - 1;
    FieldsCompact(fields, n);
    TextsEnd(fields);
    LastItem(items);
    var front := FieldTexts(fields[..n]) + if n == 0 then [] else [44];
    Regroup3(front, FieldText(fields[n]), [93]);
  }

  lemma PayloadLiterals()
    ensures "\"title\":" == "\"" + "title" + "\":" && "\"fields\":[" == "\"" + "fields" + "\":" + "[" && "{\"v\":" == "{" + "\"" + "v" + "\":"
    ensures Ascii("]}") == [93, 125] && Ascii("1,") == [49, 44] && Ascii(",") == [44] && Ascii("[") == [91]
    ensures Digits(1) == [49]
  {
  }

  lemma PayloadKeyTexts()
    ensures Ascii("{\"v\":") == [123] + Quoted(VERSION_KEY) + [58] && Ascii("\"title\":") == Quoted(TITLE) + [58]
    ensures Ascii("\"fields\":[") == Quoted(FIELDS) + [58] + [91]
    ensures Stable(VERSION_KEY) && Stable(TITLE) && Stable(FIELDS)
  {
    hide Ascii, Quoted, Stable, Bare, Digits;
    PayloadKeysAreBare();
    KeyPrints("{", "v");
    BareKeyPrints("title");
    BareKeyPrints("fields");
    PayloadLiterals();
    AsciiConcat("\"" + "fields" + "\":", "[");
  }

  lemma OneCompact()
    ensures Plain(Num(false, 1.0)) && Compact(Num(false, 1.0)) == [49]
  {
    hide Ascii;
    PayloadLiterals();
  }

  lemma ListIsPlain(items: seq<Value>)
    requires forall i :: 0 <= i < |items| ==> Plain(items[i])
    ensures Plain(Arr(items)) && Compact(Arr(items)) == [91] + CompactItems(items)
  {
  }

  lemma CloseList(q: Text, l: Text)
    ensures q + [91] + l + [93, 125] == [] + q + ([91] + (l + [93])) + [125]
  {
  }

  /** The list and what closes the object, as the last member's text. */
  lemma ListText(fields: seq<Field>)
    requires fields != [] && Strings(fields)
    ensures Stable(FIELDS) && Plain(Arr(FieldsJson(fields)))
    ensures Ascii("\"fields\":[") + FieldTexts(fields) + Ascii("]}") == CompactMembers([Member(FIELDS, Arr(FieldsJson(fields)))])
  {
    hide Ascii, Quoted, Stable, Digits, FieldTexts, CompactItems, Compact, Plain, CompactMembers, FieldsJson, Strings;
    FieldsKeyText();
    FieldListCompact(fields);
    var items := FieldsJson(fields);
    FieldsCount(fields);
    ListIsPlain(items);
    MemberPrints([], FIELDS, Arr(items), []);
    NothingMore(Member(FIELDS, Arr(items)));
    CloseList(Quoted(FIELDS) + [58], FieldTexts(fields));
  }

  lemma NothingMore(m: Member)
    ensures [m] + [] == [m] && forall s: Text :: [] + s == s
  {
  }

  lemma FieldsKeyText()
    ensures Ascii("\"fields\":[") == Quoted(FIELDS) + [58] + [91] && Ascii("]}") == [93, 125] && Stable(FIELDS)
  {
    hide Ascii, Quoted, Stable, Digits;
    PayloadKeyTexts();
    PayloadLiterals();
  }

  /** The text of a payload is the compact JSON of its object. */
  lemma CanonicalIsCompact(p: Payload)
    requires p.fields != [] && Strings(p.fields)
    requires p.title.Some? ==> Stable(p.title.value)
    ensures Plain(Obj(PayloadMembers(p))) && Canonical(p) == Compact(Obj(PayloadMembers(p)))
  {
    hide Ascii, Quoted, Stable, Digits, FieldTexts, Compact, Plain, CompactMembers, FieldsJson;
    PayloadKeyTexts();
    PayloadLiterals();
    OneCompact();
    ListText(p.fields);
    var v, list := Member(VERSION_KEY, Num(false, 1.0)), Member(FIELDS, Arr(FieldsJson(p.fields)));
    var last := Ascii("\"fields\":[") + FieldTexts(p.fields) + Ascii("]}");
    var key := Quoted(VERSION_KEY) + [58];
    if p.title.Some? {
      var title := Member(TITLE, Str(p.title.value));
      StringCompact(p.title.value);
      MemberPrints([], TITLE, title.value, [list]);
      MemberPrints([123], VERSION_KEY, v.value, [title] + [list]);
      var text := Quoted(TITLE) + [58] + Quoted(p.title.value) + [44];
      assert [] + (Quoted(TITLE) + [58]) + Quoted(p.title.value) + ([44] + last) == text + last;
      assert PayloadMembers(p) == [v] + ([title] + [list]);
      Joins(key, text, Ascii("\"fields\":["), FieldTexts(p.fields), Ascii("]}"));
    } else {
      MemberPrints([123], VERSION_KEY, v.value, [list]);
      assert PayloadMembers(p) == [v] + [list];
      Joins(key, [], Ascii("\"fields\":["), FieldTexts(p.fields), Ascii("]}"));
      assert [] + last == last;
    }
    Regroup3([123], Quoted(VERSION_KEY), [58]);
    PlainObject(PayloadMembers(p));
  }

  lemma Joins(key: Text, title: Text, list: Text, fields: Text, end: Text)
    ensures [123] + key + [49, 44] + title + list + fields + end == [123] + key + [49] + ([44] + (title + (list + fields + end)))
  {
  }

  /**
   * Whatever the validator accepts is stored as one text, and the page reads that
   * very payload back from it.
   */
  lemma CanonicalRoundTrip(t: Tables, v: Value)
    requires TableLaws(t)
    ensures Validate(t, v).Ok? ==> ParsePayload(t, Canonical(Validate(t, v).value)) == Validate(t, v)
  {
    hide Validate, Canonical, Parse, Utf8Length, Compact, Plain, PayloadMembers, TitleRefusal, Accepted, Stable;
    ValidatedIsValid(t, v);
    if Validate(t, v).Ok? {
      var p := Validate(t, v).value;
      forall i | 0 <= i < |p.fields|
        ensures Stable(p.fields[i].caption) && Stable(p.fields[i].value)
      {
        AcceptedIsPlain(t, p.fields[i]);
      }
      if p.title.Some? {
        TitleIsPlain(t, p.title.value);
      }
      CanonicalIsCompact(p);
      ParseUndoesCompact(Obj(PayloadMembers(p)));
      ValidReads(t, p);
    }
  }

  /** Two inputs stored as the same text are the same payload. */
  lemma CanonicalIsInjective(t: Tables, v: Value, w: Value)
    requires TableLaws(t) && Validate(t, v).Ok? && Validate(t, w).Ok?
    ensures Canonical(Validate(t, v).value) == Canonical(Validate(t, w).value) <==> Validate(t, v) == Validate(t, w)
  {
    hide Validate, Canonical, ParsePayload;
    CanonicalRoundTrip(t, v);
    CanonicalRoundTrip(t, w);
  }

  // ------------------------------------------------------------------ generated secrets

  function Range(first: nat, n: nat): Text
    requires first + n <= 128
  {
    seq(n, i requires 0 <= i < n => first + i)
  }

  /** A to Z, a to z, 0 to 9. */
  const PASSWORD_ALPHABET: Text := Range(65, 26) + Range(97, 26) + Range(48, 10)
  /** 0 to 9, a to f. */
  const HEX_ALPHABET: Text := Range(48, 10) + Range(97, 6)
  /** The password's, then the hyphen and the underscore. */
  const BASE64URL_ALPHABET: Text := PASSWORD_ALPHABET + [45, 95]

  function AlphabetNamed(kind: Text): (alphabet: Option<Text>)
    ensures alphabet.Some? ==> 0 < |alphabet.value| <= 256
  {
    if kind == Ascii("password") then Some(PASSWORD_ALPHABET)
    else if kind == Ascii("hex") then Some(HEX_ALPHABET)
    else if kind == Ascii("base64url") then Some(BASE64URL_ALPHABET)
    else None
  }

  /** The bytes that are used: those below the largest multiple of the alphabet's size. */
  predicate Accepts(n: nat, b: byte)
    requires 0 < n <= 256
  {
    b as nat < 256 - 256 % n
  }

  /** The characters a stream of random bytes gives. */
  function Drawn(alphabet: Text, bytes: Bytes): Text
    requires 0 < |alphabet| <= 256
  {
    if bytes == [] then []
    else
      var b := bytes[|bytes| - 1];
      Drawn(alphabet, bytes[..|bytes| - 1]) + if Accepts(|alphabet|, b) then [alphabet[b as nat % |alphabet|]] else []
  }

  lemma {:induction false} DrawnConcat(alphabet: Text, a: Bytes, b: Bytes)
    requires 0 < |alphabet| <= 256
    ensures Drawn(alphabet, a + b) == Drawn(alphabet, a) + Drawn(alphabet, b)
    decreases |b|
  {
    if b == [] {
      assert a + b == a;
    } else {
      assert (a + b)[..|a + b| - 1] == a + b[..|b| - 1];
      DrawnConcat(alphabet, a, b[..|b| - 1]);
    }
  }

  /**
   * `randomString`, over the buffers the generator fills: the first characters
   * the whole stream of bytes gives, or nothing while there are not enough.
   */
  method RandomString(alphabet: Text, length: nat, buffers: seq<Bytes>) returns (r: Option<Text>)
    requires 0 < |alphabet| <= 256
    ensures r == if length <= |Drawn(alphabet, Flat(buffers))| then Some(Drawn(alphabet, Flat(buffers))[..length]) else None
  {
    hide Drawn;
    var out: Text := [];
    var k := 0;
    NothingDrawn(alphabet);
    while |out| < length && k < |buffers|
      invariant k <= |buffers| && |out| <= length
      invariant out <= Drawn(alphabet, Flat(buffers[..k])) && (|out| < length ==> out == Drawn(alphabet, Flat(buffers[..k])))
    {
      var buffer := buffers[k];
      assert buffers[..k + 1][..k] == buffers[..k];
      ghost var before := out;
      var i := 0;
      while i < |buffer| && |out| < length
        invariant i <= |buffer| && |out| <= length && out == before + Drawn(alphabet, buffer[..i])
      {
        DrawnOne(alphabet, buffer, i);
        if Accepts(|alphabet|, buffer[i]) {
          out := out + [alphabet[buffer[i] as nat % |alphabet|]];
        }
        i := i + 1;
      }
      DrawnPrefix(alphabet, buffer, i);
      DrawnConcat(alphabet, Flat(buffers[..k]), buffer);
      k := k + 1;
    }
    FlatPrefix(buffers, k);
    DrawnPrefix(alphabet, Flat(buffers), |Flat(buffers[..k])|);
    assert |out| < length ==> buffers[..k] == buffers;
    ghost var drawn := Drawn(alphabet, Flat(buffers));
    assert out <= Drawn(alphabet, Flat(buffers[..k])) && Drawn(alphabet, Flat(buffers[..k])) <= drawn;
    assert |out| == length ==> drawn[..length] == out;
    assert |out| < length ==> out == drawn;
    return if |out| == length then Some(out) else None;
  }

  lemma NothingDrawn(alphabet: Text)
    requires 0 < |alphabet| <= 256
    ensures Drawn(alphabet, Flat([])) == []
  {
  }

  lemma DrawnOne(alphabet: Text, bytes: Bytes, i: nat)
    requires 0 < |alphabet| <= 256 && i < |bytes|
    ensures Drawn(alphabet, bytes[..i + 1]) == Drawn(alphabet, bytes[..i]) + if Accepts(|alphabet|, bytes[i]) then [alphabet[bytes[i] as nat % |alphabet|]] else []
  {
    assert bytes[..i + 1][..i] == bytes[..i];
  }

  lemma DrawnPrefix(alphabet: Text, bytes: Bytes, i: nat)
    requires 0 < |alphabet| <= 256 && i <= |bytes|
    ensures Drawn(alphabet, bytes[..i]) <= Drawn(alphabet, bytes) && (i == |bytes| ==> Drawn(alphabet, bytes[..i]) == Drawn(alphabet, bytes))
  {
    hide Drawn;
    DrawnConcat(alphabet, bytes[..i], bytes[i..]);
    assert bytes[..i] + bytes[i..] == bytes;
    if i == |bytes| {
      assert bytes[..i] == bytes;
    }
  }

  lemma {:induction false} FlatPrefix(parts: seq<Bytes>, k: nat)
    requires k <= |parts|
    ensures Flat(parts[..k]) <= Flat(parts) && Flat(parts)[..|Flat(parts[..k])|] == Flat(parts[..k])
    ensures k == |parts| ==> parts[..k] == parts
    decreases |parts|
  {
    if k < |parts| {
      assert parts[..|parts| - 1][..k] == parts[..k];
      FlatPrefix(parts[..|parts| - 1], k);
    } else {
      assert parts[..k] == parts;
    }
  }

  lemma {:induction false} Residues(n: nat, j: nat, q: nat)
    requires 0 <= j < n
    ensures |set b: int | 0 <= b < q * n && b % n == j| == q
  {
    var all := set b: int | 0 <= b < q * n && b % n == j;
    if q == 0 {
      assert all == {};
    } else {
      var fewer := set b: int | 0 <= b < (q - 1) * n && b % n == j;
      Residues(n, j, q - 1);
      var last := (q - 1) * n + j;
      assert q * n == (q - 1) * n + n;
      forall b | b in all && b !in fewer
        ensures b == last
      {
        OneInBlock(n, j, q - 1, b);
      }
      LastInBlock(n, j, q - 1);
      assert all == fewer + {last};
    }
  }

  lemma OneInBlock(n: nat, j: nat, q: nat, b: int)
    requires 0 <= j < n && q * n <= b < q * n + n && b % n == j
    ensures b == q * n + j
  {
    var r := b - q * n;
    assert b / n == q by { assert b == q * n + r && 0 <= r < n; Quotient(b, n, q, r); }
    assert b == b / n * n + b % n;
  }

  lemma LastInBlock(n: nat, j: nat, q: nat)
    requires 0 <= j < n
    ensures (q * n + j) % n == j
  {
    Quotient(q * n + j, n, q, j);
    assert q * n + j == (q * n + j) / n * n + (q * n + j) % n;
  }

  lemma Quotient(b: int, n: int, q: int, r: int)
    requires n > 0 && b == q * n + r && 0 <= r < n
    ensures b / n == q
  {
    var d, m := b / n, b % n;
    assert b == d * n + m;
    Difference(d, q, n);
    Difference(q, d, n);
  }

  lemma Difference(d: int, q: int, n: int)
    requires n > 0
    ensures d > q ==> d * n >= q * n + n
  {
    if d > q {
      Products(d - q - 1, n);
      assert d * n == (d - q - 1) * n + q * n + n;
    }
  }

  lemma Products(k: int, n: int)
    requires k >= 0 && n >= 0
    ensures k * n >= 0
  {
  }

  /** Every character of an alphabet is drawn by equally many bytes: sampling has no bias. */
  lemma SamplingIsUniform(kind: Text, j: nat)
    requires AlphabetNamed(kind).Some? && j < |AlphabetNamed(kind).value|
    ensures var alphabet := AlphabetNamed(kind).value;
      |set b: int | 0 <= b < 256 && Accepts(|alphabet|, b as byte) && alphabet[b % |alphabet|] == alphabet[j]| == 256 / |alphabet|
  {
    var alphabet := AlphabetNamed(kind).value;
    var n := |alphabet|;
    AlphabetIsPlain(kind);
    Residues(n, j, 256 / n);
    assert 256 / n * n == 256 - 256 % n;
    assert (set b: int | 0 <= b < 256 && Accepts(n, b as byte) && alphabet[b % n] == alphabet[j]) == set b: int | 0 <= b < 256 / n * n && b % n == j;
  }

  /** The strings drawn for a payload: one for each field that asks, of that length, over that alphabet. */
  type Source = (nat, nat, Text) -> Text

  /** What `randomString` returns, whichever bytes it was given. */
  ghost predicate Draws(source: Source) {
    forall i, length, alphabet: Text :: alphabet != [] ==>
      |source(i, length, alphabet)| == length && forall k :: 0 <= k < length ==> source(i, length, alphabet)[k] in alphabet
  }

  /** The tables and the source asked for exist. */
  lemma LawsCanBeMet() returns (t: Tables, source: Source)
    ensures TableLaws(t) && PlainTables(t) && Draws(source)
  {
    t := Tables((c: Point) => High(c) || Low(c), c => false, c => c == 32, c => true, s => s, s => true);
    source := (i: nat, length: nat, alphabet: Text) => if alphabet == [] then [] else seq(length, k => alphabet[0]);
  }

  /** `materializeGenerated`: the request, checked, and the length and alphabet it names. */
  function Requested(members: seq<Member>): Checked<(nat, Text)> {
    var request, kind := Lookup(members, GENERATE), Lookup(members, TYPE);
    if request.None? || !request.value.Obj? then Refused(BadGenerate)
    else if !OnlyKeys(request.value.members, {KIND, LENGTH}) then Refused(UnknownKey)
    else if kind.Some? && kind != Some(Str(TypeName(Secret))) then Refused(BadGenerate)
    else
      var wanted, length := Lookup(request.value.members, KIND), Lookup(request.value.members, LENGTH);
      if wanted.None? || !wanted.value.Str? || AlphabetNamed(wanted.value.s).None? then Refused(BadGenerate)
      else if length.None? || !length.value.Num? || length.value.negative || length.value.size != length.value.size.Floor as real
              || length.value.size.Floor < MIN_GENERATE_LENGTH || length.value.size.Floor > MAX_GENERATE_LENGTH
      then Refused(BadGenerate)
      else Ok((length.value.size.Floor, AlphabetNamed(wanted.value.s).value))
  }

  /** One candidate of `buildOutboundPayload`: a value and a request are never both there, and never neither. */
  function BuildField(t: Tables, v: Value, i: nat, source: Source): Checked<Value> {
    if !v.Obj? then Refused(BadLabel)
    else if !OnlyKeys(v.members, {LABEL, TYPE, VALUE, GENERATE}) then Refused(UnknownKey)
    else if Lookup(v.members, VALUE).Some? == Lookup(v.members, GENERATE).Some? then Refused(BadValue)
    else if Lookup(v.members, GENERATE).None? then Ok(v)
    else if LabelRefusal(t, Lookup(v.members, LABEL)).Some? then Refused(LabelRefusal(t, Lookup(v.members, LABEL)).value)
    else
      match Requested(v.members)
      case Refused(reason) => Refused(reason)
      case Ok((length, alphabet)) =>
        HeadingIsText(t, Lookup(v.members, LABEL), MAX_LABEL_CHARS);
        Ok(FieldJson(Field(Lookup(v.members, LABEL).value.s, Secret, source(i, length, alphabet))))
  }

  function BuildFields(t: Tables, items: seq<Value>, source: Source): Checked<seq<Value>> {
    if items == [] then Ok([])
    else
      match BuildFields(t, items[..|items| - 1], source)
      case Refused(reason) => Refused(reason)
      case Ok(front) =>
        match BuildField(t, items[|items| - 1], |items| - 1, source)
        case Refused(reason) => Refused(reason)
        case Ok(field) => Ok(front + [field])
  }

  predicate AsksToGenerate(v: Value) {
    v.Obj? && Lookup(v.members, GENERATE).Some?
  }

  /** `buildOutboundPayload`: what was asked for is drawn first, and then the whole is validated like any other. */
  function Build(t: Tables, v: Value, source: Source): Checked<Payload> {
    if !v.Obj? then Refused(NotAnObject)
    else
      var fields := Lookup(v.members, FIELDS);
      if fields.None? || !fields.value.Arr? then Validate(t, v)
      else if forall i :: 0 <= i < |fields.value.items| ==> !AsksToGenerate(fields.value.items[i]) then Validate(t, v)
      else
        match BuildFields(t, fields.value.items, source)
        case Refused(reason) => Refused(reason)
        case Ok(built) => Validate(t, Obj(v.members + [Member(FIELDS, Arr(built))]))
  }

  /** The loop of `buildOutboundPayload`. */
  method BuildAll(t: Tables, items: seq<Value>, source: Source) returns (r: Checked<seq<Value>>)
    ensures r == BuildFields(t, items, source)
  {
    hide BuildField;
    var built: seq<Value> := [];
    var i := 0;
    while i < |items|
      invariant i <= |items| && BuildFields(t, items[..i], source) == Ok(built)
    {
      assert items[..i + 1][..i] == items[..i] && items[..i + 1][i] == items[i];
      BuildStays(t, items, source, i + 1);
      match BuildField(t, items[i], i, source) {
        case Refused(reason) =>
          return Refused(reason);
        case Ok(field) =>
          built := built + [field];
      }
      i := i + 1;
    }
    assert items[..i] == items;
    return Ok(built);
  }

  lemma {:induction false} BuildStays(t: Tables, items: seq<Value>, source: Source, n: nat)
    requires n <= |items|
    ensures BuildFields(t, items[..n], source).Refused? ==> BuildFields(t, items, source) == BuildFields(t, items[..n], source)
    decreases |items|
  {
    hide BuildField;
    if n == |items| {
      assert items[..n] == items;
    } else {
      assert items[..|items| - 1][..n] == items[..n];
      BuildStays(t, items[..|items| - 1], source, n);
    }
  }

  /** A payload with generated values is stored and read back like any other. */
  lemma BuiltRoundTrips(t: Tables, v: Value, source: Source)
    requires TableLaws(t)
    ensures Build(t, v, source).Ok? ==> ParsePayload(t, Canonical(Build(t, v, source).value)) == Build(t, v, source)
  {
    hide Validate, Canonical, ParsePayload, BuildFields;
    CanonicalRoundTrip(t, v);
    if v.Obj? && Lookup(v.members, FIELDS).Some? && Lookup(v.members, FIELDS).value.Arr? && BuildFields(t, Lookup(v.members, FIELDS).value.items, source).Ok? {
      CanonicalRoundTrip(t, Obj(v.members + [Member(FIELDS, Arr(BuildFields(t, Lookup(v.members, FIELDS).value.items, source).value))]));
    }
  }

  /** The characters of the three alphabets are ordinary ones. */
  ghost predicate PlainTables(t: Tables) {
    forall c: Point :: (48 <= c < 58 || 65 <= c < 91 || 97 <= c < 123 || c == 45 || c == 95) ==> !t.other(c) && !t.breaks(c) && !t.white(c)
  }

  lemma AlphabetIsPlain(kind: Text)
    ensures AlphabetNamed(kind).Some? ==> forall c :: c in AlphabetNamed(kind).value ==> 48 <= c < 58 || 65 <= c < 91 || 97 <= c < 123 || c == 45 || c == 95
    ensures AlphabetNamed(kind).Some? ==> var a := AlphabetNamed(kind).value; forall i, j :: 0 <= i < j < |a| ==> a[i] != a[j]
  {
  }

  /** Nothing that is generated is refused for what was drawn: the field is accepted, masked, and holds exactly the string. */
  lemma GeneratedIsAccepted(t: Tables, v: Value, i: nat, source: Source)
    requires PlainTables(t) && Draws(source) && AsksToGenerate(v)
    ensures BuildField(t, v, i, source).Ok? ==>
      var length, alphabet := Requested(v.members).value.0, Requested(v.members).value.1;
      && Requested(v.members).Ok?
      && ValidateField(t, BuildField(t, v, i, source).value) == Ok(Field(Lookup(v.members, LABEL).value.s, Secret, source(i, length, alphabet)))
      && MIN_GENERATE_LENGTH <= |source(i, length, alphabet)| <= MAX_GENERATE_LENGTH
  {
    hide ValidateField, FieldJson, LabelRefusal, ValueRefusal;
    if BuildField(t, v, i, source).Ok? {
      HeadingIsText(t, Lookup(v.members, LABEL), MAX_LABEL_CHARS);
      var (length, alphabet) := Requested(v.members).value;
      AlphabetIsPlain(Lookup(Lookup(v.members, GENERATE).value.members, KIND).value.s);
      DrawnPasses(t, source(i, length, alphabet));
      FieldReads(t, Field(Lookup(v.members, LABEL).value.s, Secret, source(i, length, alphabet)));
    }
  }

  lemma DrawnPasses(t: Tables, s: Text)
    requires PlainTables(t) && 0 < |s| <= MAX_GENERATE_LENGTH
    requires forall k :: 0 <= k < |s| ==> 48 <= s[k] < 58 || 65 <= s[k] < 91 || 97 <= s[k] < 123 || s[k] == 45 || s[k] == 95
    ensures ValueRefusal(t, Some(Str(s)), Secret) == None
  {
    Utf8Ascii(s);
  }
}
