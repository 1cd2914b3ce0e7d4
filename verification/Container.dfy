/** The HDROP2 container codec of src/file-container.js: a length-framed encoder and its validating decoder. */
module Container {
  import opened Basics
  import opened Names
  import opened Settling
  import opened Json
  import Utf8
  import opened ManifestText
  import HpkeInfo
  import BrokerCore

  // "HDROP2"
  const MAGIC: Bytes := [72, 68, 82, 79, 80, 50]
  const HEADER_BYTES: nat := 10
  const MAX_MANIFEST_BYTES: nat := WorstCaseManifestBytes(MAX_FILES)

  datatype Limits = Limits(maxFiles: nat, maxFileBytes: nat, maxTotalBytes: nat)

  /** `resolveFileLimits`: operators may lower the caps and raise none. */
  predicate Resolved(l: Limits) {
    && 1 <= l.maxFiles <= MAX_FILES && 1 <= l.maxFileBytes <= l.maxTotalBytes <= MAX_BYTES
  }

  datatype Refusal =
    | TextSize | FileCount | FileSize | TotalSize | ManifestLength
    | ContainerTooLarge | ContainerTooSmall | BadMagic | ManifestTruncated | ManifestNotUtf8 | ManifestNotJson
    | ManifestShape | TextMetadata | FileName | FileType | DigestFormat | Offsets | HashMismatch | TextNotUtf8

  datatype Outcome<+T> = Good(value: T) | Refuse(code: Refusal)

  datatype Upload = Upload(name: Text, hint: Text, bytes: Bytes)

  datatype Received = Received(entry: Entry, bytes: Bytes)

  datatype Decoded = Decoded(files: seq<Received>, text: Option<Bytes>)

  /** The Unicode tables, and SHA-256 in hex. */
  datatype Library = Library(u: Unicode, sha: Bytes -> Text)

  predicate Hex64(s: Text) {
    |s| == 64 && forall i :: 0 <= i < 64 ==> 48 <= s[i] <= 57 || 97 <= s[i] <= 102
  }

  ghost predicate LibraryLaws(lib: Library) {
    && Laws(lib.u)
    && (forall b :: Hex64(lib.sha(b)))
  }

  /** The laws can be met. */
  lemma LawsCanBeMet() returns (lib: Library)
    ensures LibraryLaws(lib)
  {
    var u := PlainUnicode();
    lib := Library(u, b => ZERO_DIGEST);
  }

  const ZERO_DIGEST: Text := seq(64, i => 48)

  // -------------------------------------------------------------------- MIME hints

  predicate PrintableAscii(s: Text) {
    forall i :: 0 <= i < |s| ==> 0x20 <= s[i] <= 0x7e
  }

  /** `sanitizeFileType`: a hint is kept or dropped, never repaired. */
  function SanitizeType(u: Unicode, raw: Text): Text {
    var value := TrimEnd(u, TrimStart(u, raw));
    if !PrintableAscii(value) || Utf8Length(value) > MAX_FILE_TYPE_BYTES then [] else value
  }

  lemma TypeIsFixed(u: Unicode, raw: Text)
    ensures SanitizeType(u, SanitizeType(u, raw)) == SanitizeType(u, raw)
    ensures PrintableAscii(SanitizeType(u, raw)) && Utf8Length(SanitizeType(u, raw)) <= MAX_FILE_TYPE_BYTES
  {
    hide TrimEnd, TrimStart, PrintableAscii, Utf8Length;
    var value := TrimEnd(u, TrimStart(u, raw));
    TrimIsFixed(u, raw);
    TrimmedAlready(u, []);
    EmptyLength();
    NothingIsPrintable();
  }

  lemma NothingIsPrintable()
    ensures PrintableAscii([])
  {
  }

  lemma TrimIsFixed(u: Unicode, raw: Text)
    ensures var value := TrimEnd(u, TrimStart(u, raw)); TrimEnd(u, TrimStart(u, value)) == value
  {
    hide TrimEnd, TrimStart;
    var a := TrimStart(u, raw);
    var value := TrimEnd(u, a);
    TrimStartIs(u, raw);
    TrimEndIs(u, a);
    assert value != [] ==> value[0] == a[..|value|][0] == a[0];
    TrimmedAlready(u, value);
  }

  // ---------------------------------------------------------------------- encoding

  function Lengths(files: seq<Upload>): seq<nat> {
    seq(|files|, i requires 0 <= i < |files| => |files[i].bytes|)
  }

  function Contents(files: seq<Upload>): seq<Bytes> {
    seq(|files|, i requires 0 <= i < |files| => files[i].bytes)
  }

  lemma {:induction false} FlatLength(parts: seq<Bytes>)
    ensures |Flat(parts)| == Sum(seq(|parts|, i requires 0 <= i < |parts| => |parts[i]|))
  {
    if parts != [] {
      var front := parts[..|parts| - 1];
      FlatLength(front);
      assert seq(|parts|, i requires 0 <= i < |parts| => |parts[i]|)[..|front|] == seq(|front|, i requires 0 <= i < |front| => |front[i]|);
    }
  }

  /** The entry of one file that starts where the files before it ended. */
  function EntryOf(lib: Library, f: Upload, offset: nat): Entry {
    Entry(true, Sanitize(lib.u, f.name), |f.bytes|, offset, lib.sha(f.bytes), SanitizeType(lib.u, f.hint))
  }

  function EntriesOf(lib: Library, files: seq<Upload>): seq<Entry> {
    seq(|files|, i requires 0 <= i < |files| => EntryOf(lib, files[i], Sum(Lengths(files)[..i])))
  }

  function ManifestOf(lib: Library, files: seq<Upload>, text: Option<Text>): Manifest {
    Manifest(true, EntriesOf(lib, files),
             if text.Some? then Some(TextMeta(true, Sum(Lengths(files)), |Utf8.Encoded(text.value)|)) else None)
  }

  function TextBytes(lib: Library, text: Option<Text>): Bytes {
    if text.Some? then Utf8.Encoded(text.value) else []
  }

  lemma ManifestPrints(lib: Library, files: seq<Upload>, text: Option<Text>)
    ensures CanPrint(ManifestOf(lib, files, text)) && Typed(ManifestOf(lib, files, text))
  {
    hide Sanitize, SanitizeType;
  }

  function ManifestBytes(lib: Library, files: seq<Upload>, text: Option<Text>): Bytes {
    ManifestPrints(lib, files, text);
    Utf8.Encoded(Print(ManifestOf(lib, files, text)))
  }

  /** The files back to back, then the text. */
  function Payload(lib: Library, files: seq<Upload>, text: Option<Text>): Bytes {
    Flat(Contents(files)) + TextBytes(lib, text)
  }

  /** Magic, manifest length, manifest, payload. */
  function Assemble(manifest: Bytes, payload: Bytes): Bytes
    requires |manifest| < 0x1_0000_0000
  {
    MAGIC + U32(|manifest|) + manifest + payload
  }

  /** What is refused before anything is built. */
  function EncodeRefusal(lib: Library, l: Limits, files: seq<Upload>, text: Option<Text>): Option<Refusal> {
    if text.Some? && Utf8Length(text.value) > MAX_PRIVATE_TEXT_BYTES then Some(TextSize)
    else if |files| == 0 || |files| > l.maxFiles then Some(FileCount)
    else if exists i :: 0 <= i < |files| && |files[i].bytes| > l.maxFileBytes then Some(FileSize)
    else if Sum(Lengths(files)) > l.maxTotalBytes then Some(TotalSize)
    else if Sum(Lengths(files)) + |TextBytes(lib, text)| > l.maxTotalBytes then Some(TotalSize)
    else if |ManifestBytes(lib, files, text)| > MAX_MANIFEST_BYTES then Some(ManifestLength)
    else None
  }

  /** `encodeFileContainer`. */
  function Encode(lib: Library, l: Limits, files: seq<Upload>, text: Option<Text>): Outcome<Bytes> {
    hide EncodeRefusal, ManifestBytes, Payload;
    var refusal := EncodeRefusal(lib, l, files, text);
    if refusal.Some? then Refuse(refusal.value)
    else
      NotRefusedFits(lib, l, files, text);
      Good(Assemble(ManifestBytes(lib, files, text), Payload(lib, files, text)))
  }

  lemma NotRefusedFits(lib: Library, l: Limits, files: seq<Upload>, text: Option<Text>)
    requires EncodeRefusal(lib, l, files, text) == None
    ensures |ManifestBytes(lib, files, text)| <= MAX_MANIFEST_BYTES
  {
    hide ManifestBytes, Sum, Lengths, Utf8Length, TextBytes;
  }

  // ---------------------------------------------------------------------- decoding

  predicate IsByteCount(n: int, max: nat) {
    0 <= n <= max
  }

  /** One entry of `validateManifest`, given where the previous one ended. */
  function EntryRefusal(lib: Library, l: Limits, e: Entry, running: nat): Option<Refusal> {
    if !e.wellTyped then Some(ManifestShape)
    else if Sanitize(lib.u, e.name) != e.name then Some(FileName)
    else if SanitizeType(lib.u, e.hint) != e.hint then Some(FileType)
    else if !Hex64(e.sha256) then Some(DigestFormat)
    else if !IsByteCount(e.size, l.maxFileBytes) then Some(FileSize)
    else if !IsByteCount(e.offset, l.maxTotalBytes) || e.offset != running then Some(Offsets)
    else if running + e.size > l.maxTotalBytes then Some(TotalSize)
    else None
  }

  /** Where the files of a manifest end, if its entries are acceptable in order. */
  function EndOf(lib: Library, l: Limits, files: seq<Entry>): Outcome<nat> {
    if files == [] then Good(0)
    else
      var front, last := files[..|files| - 1], files[|files| - 1];
      match EndOf(lib, l, front)
      case Refuse(code) => Refuse(code)
      case Good(running) =>
        if EntryRefusal(lib, l, last, running).Some? then Refuse(EntryRefusal(lib, l, last, running).value)
        else
          AcceptedIsSound(lib, l, last, running);
          Good(running + last.size)
  }

  /** `validateManifest`: the files tile the payload from its start, and the text is the rest of it. */
  function Validated(lib: Library, l: Limits, m: Manifest, payloadLength: nat): Option<Refusal> {
    if !m.shapeOk then Some(ManifestShape)
    else if m.text.Some? && (!m.text.value.wellTyped || !IsByteCount(m.text.value.offset, l.maxTotalBytes) || !IsByteCount(m.text.value.size, MAX_PRIVATE_TEXT_BYTES))
    then Some(TextMetadata)
    else if |m.files| == 0 || |m.files| > l.maxFiles then Some(FileCount)
    else
      match EndOf(lib, l, m.files)
      case Refuse(code) => Some(code)
      case Good(running) =>
        if m.text.Some? then
          if m.text.value.offset != running || running + m.text.value.size != payloadLength then Some(TextMetadata) else None
        else if running != payloadLength then Some(Offsets) else None
  }

  /** The loop of `validateManifest`: a running end, and the first entry that does not fit stops it. */
  method FindEnd(lib: Library, l: Limits, files: seq<Entry>) returns (end: Outcome<nat>)
    ensures end == EndOf(lib, l, files)
  {
    hide EntryRefusal, Sound, Sanitize, SanitizeType, Hex64;
    var running: nat := 0;
    var i := 0;
    while i < |files|
      invariant i <= |files| && EndOf(lib, l, files[..i]) == Good(running)
    {
      var found := EntryRefusal(lib, l, files[i], running);
      assert files[..i + 1][..i] == files[..i] && files[..i + 1][i] == files[i];
      RefusalLasts(lib, l, files, i + 1);
      if found.Some? {
        return Refuse(found.value);
      }
      AcceptedIsSound(lib, l, files[i], running);
      running := running + files[i].size;
      i := i + 1;
    }
    assert files[..i] == files;
    return Good(running);
  }

  method ValidateManifest(lib: Library, l: Limits, m: Manifest, payloadLength: nat) returns (refusal: Option<Refusal>)
    ensures refusal == Validated(lib, l, m, payloadLength)
  {
    hide EndOf;
    if !m.shapeOk {
      return Some(ManifestShape);
    }
    if m.text.Some? && (!m.text.value.wellTyped || !IsByteCount(m.text.value.offset, l.maxTotalBytes) || !IsByteCount(m.text.value.size, MAX_PRIVATE_TEXT_BYTES)) {
      return Some(TextMetadata);
    }
    if |m.files| == 0 || |m.files| > l.maxFiles {
      return Some(FileCount);
    }
    var end := FindEnd(lib, l, m.files);
    if end.Refuse? {
      return Some(end.code);
    }
    if m.text.Some? {
      return if m.text.value.offset != end.value || end.value + m.text.value.size != payloadLength then Some(TextMetadata) else None;
    }
    return if end.value != payloadLength then Some(Offsets) else None;
  }

  /** The first refused entry decides. */
  lemma {:induction false} RefusalLasts(lib: Library, l: Limits, files: seq<Entry>, n: nat)
    requires n <= |files|
    ensures EndOf(lib, l, files[..n]).Refuse? ==> EndOf(lib, l, files) == EndOf(lib, l, files[..n])
    decreases |files|
  {
    if n < |files| {
      RefusalLasts(lib, l, files[..|files| - 1], n);
      assert files[..|files| - 1][..n] == files[..n];
    } else {
      assert files[..n] == files;
    }
  }

  /** What the entry checks leave of an entry that passed them. */
  predicate Sound(lib: Library, e: Entry) {
    && e.wellTyped && Sanitize(lib.u, e.name) == e.name && SanitizeType(lib.u, e.hint) == e.hint && Hex64(e.sha256)
    && e.size >= 0 && e.offset >= 0
  }

  lemma AcceptedIsSound(lib: Library, l: Limits, e: Entry, running: nat)
    requires EntryRefusal(lib, l, e, running) == None
    ensures Sound(lib, e) && e.size >= 0 && e.offset == running && running + e.size <= l.maxTotalBytes
  {
    hide Sanitize, SanitizeType, Hex64;
    assert EntryRefusal(lib, l, e, running) == None;
  }

  /** Each file starts where the one before it ends, from the start of the payload to `end`. */
  predicate Tiles(files: seq<Entry>, end: nat) {
    && (forall i :: 0 <= i < |files| - 1 ==> files[i].offset + files[i].size == files[i + 1].offset)
    && (if files == [] then end == 0 else files[0].offset == 0 && files[|files| - 1].offset + files[|files| - 1].size == end)
    && forall i :: 0 <= i < |files| ==> 0 <= files[i].offset && 0 <= files[i].size && files[i].offset + files[i].size <= end
  }

  lemma {:induction false} AcceptedTiles(lib: Library, l: Limits, files: seq<Entry>)
    requires EndOf(lib, l, files).Good?
    ensures Tiles(files, EndOf(lib, l, files).value) && EndOf(lib, l, files).value <= l.maxTotalBytes
    ensures forall i :: 0 <= i < |files| ==> Sound(lib, files[i])
  {
    hide EntryRefusal, Sound, Tiles;
    if files != [] {
      var front, last := files[..|files| - 1], files[|files| - 1];
      AcceptedTiles(lib, l, front);
      AcceptedIsSound(lib, l, last, EndOf(lib, l, front).value);
      TilesGrow(lib, front, last, EndOf(lib, l, front).value);
      assert files == front + [last];
    } else {
      NothingTiles();
    }
  }

  lemma NothingTiles()
    ensures Tiles([], 0)
  {
  }

  lemma TilesGrow(lib: Library, front: seq<Entry>, last: Entry, end: nat)
    requires Tiles(front, end) && last.offset == end && last.size >= 0
    ensures Tiles(front + [last], end + last.size)
  {
    hide Sanitize, SanitizeType;
    var files := front + [last];
    forall i | 0 <= i < |files| - 1
      ensures files[i].offset + files[i].size == files[i + 1].offset
    {
      if i < |front| - 1 {
        assert front[i].offset + front[i].size == front[i + 1].offset;
      }
    }
  }

  function BytesOf(payload: Bytes, e: Entry): Bytes
    requires 0 <= e.offset && 0 <= e.size && e.offset + e.size <= |payload|
  {
    payload[e.offset..e.offset + e.size]
  }

  predicate Within(files: seq<Entry>, payload: Bytes) {
    forall i :: 0 <= i < |files| ==> 0 <= files[i].offset && 0 <= files[i].size && files[i].offset + files[i].size <= |payload|
  }

  function ReceivedOf(files: seq<Entry>, payload: Bytes): seq<Received>
    requires Within(files, payload)
  {
    seq(|files|, i requires 0 <= i < |files| => Received(files[i], BytesOf(payload, files[i])))
  }

  predicate AllHashesMatch(lib: Library, files: seq<Received>) {
    forall i :: 0 <= i < |files| ==> lib.sha(files[i].bytes) == files[i].entry.sha256
  }

  /** `readManifest`: every length is checked against the fixed ceiling before it is used. */
  function ReadManifest(lib: Library, l: Limits, b: Bytes): Outcome<(Manifest, Bytes)> {
    if |b| > HEADER_BYTES + MAX_MANIFEST_BYTES + l.maxTotalBytes then Refuse(ContainerTooLarge)
    else if |b| < HEADER_BYTES then Refuse(ContainerTooSmall)
    else if b[..|MAGIC|] != MAGIC then Refuse(BadMagic)
    else
      var length := FromU32(b[|MAGIC|..HEADER_BYTES]);
      if length > MAX_MANIFEST_BYTES then Refuse(ManifestLength)
      else if HEADER_BYTES + length > |b| then Refuse(ManifestTruncated)
      else
        match Utf8.DecodeStrict(b[HEADER_BYTES..HEADER_BYTES + length])
        case None => Refuse(ManifestNotUtf8)
        case Some(text) =>
          match Parse(text)
          case None => Refuse(ManifestNotJson)
          case Some(v) => Good((Read(v), b[HEADER_BYTES + length..]))
  }

  /** The private text, if the manifest has any: what follows the last file. */
  function TextOf(m: Manifest, payload: Bytes): Option<Bytes>
    requires m.text.Some? ==> 0 <= m.text.value.offset <= |payload|
  {
    if m.text.Some? then Some(payload[m.text.value.offset..]) else None
  }

  function Decode(lib: Library, l: Limits, b: Bytes): Outcome<Decoded>
  {
    match ReadManifest(lib, l, b)
    case Refuse(code) => Refuse(code)
    case Good((m, payload)) =>
      if Validated(lib, l, m, |payload|).Some? then Refuse(Validated(lib, l, m, |payload|).value)
      else
        ValidatedIsWithin(lib, l, m, payload);
        var files := ReceivedOf(m.files, payload);
        if !AllHashesMatch(lib, files) then Refuse(HashMismatch)
        else if m.text.Some? && Utf8.DecodeStrict(TextOf(m, payload).value).None? then Refuse(TextNotUtf8)
        else Good(Decoded(files, TextOf(m, payload)))
  }

  lemma ValidatedIsWithin(lib: Library, l: Limits, m: Manifest, payload: Bytes)
    requires Validated(lib, l, m, |payload|) == None
    ensures Within(m.files, payload) && (m.text.Some? ==> 0 <= m.text.value.offset <= |payload|)
  {
    AcceptedTiles(lib, l, m.files);
  }

  /** The loop of `decodeFileContainer`: every file is hashed before any of them can be seen. */
  method VerifyFiles(lib: Library, entries: seq<Entry>, payload: Bytes) returns (files: Option<seq<Received>>)
    requires Within(entries, payload)
    ensures files == if AllHashesMatch(lib, ReceivedOf(entries, payload)) then Some(ReceivedOf(entries, payload)) else None
  {
    var out := [];
    var i := 0;
    while i < |entries|
      invariant i <= |entries| && out == ReceivedOf(entries, payload)[..i]
      invariant forall k :: 0 <= k < i ==> lib.sha(out[k].bytes) == out[k].entry.sha256
    {
      var bytes := BytesOf(payload, entries[i]);
      assert ReceivedOf(entries, payload)[i] == Received(entries[i], bytes);
      if lib.sha(bytes) != entries[i].sha256 {
        return None;
      }
      out := out + [Received(entries[i], bytes)];
      i := i + 1;
    }
    assert ReceivedOf(entries, payload)[..i] == ReceivedOf(entries, payload);
    return Some(out);
  }

  method DecodeFileContainer(lib: Library, l: Limits, container: array<byte>) returns (r: Outcome<Decoded>)
    ensures r == Decode(lib, l, container[..])
  {
    hide ReadManifest, Validated, ReceivedOf, AllHashesMatch, Within;
    var read := ReadManifest(lib, l, container[..]);
    if read.Refuse? {
      return Refuse(read.code);
    }
    var (m, payload) := read.value;
    var refusal := ValidateManifest(lib, l, m, |payload|);
    if refusal.Some? {
      return Refuse(refusal.value);
    }
    ValidatedIsWithin(lib, l, m, payload);
    var files := VerifyFiles(lib, m.files, payload);
    if files.None? {
      return Refuse(HashMismatch);
    }
    var text := TextOf(m, payload);
    if text.Some? && Utf8.DecodeStrict(text.value).None? {
      return Refuse(TextNotUtf8);
    }
    return Good(Decoded(files.value, text));
  }

  // ---------------------------------------------------------------------- theorems

  function PartsOf(d: Decoded): seq<Bytes> {
    seq(|d.files|, i requires 0 <= i < |d.files| => d.files[i].bytes)
  }

  lemma FourParts(b: Bytes, i: nat, j: nat, k: nat)
    requires i <= j <= k <= |b|
    ensures b == b[..i] + b[i..j] + b[j..k] + b[k..]
  {
  }

  /** What was read, and from where. */
  lemma ReadParts(lib: Library, l: Limits, b: Bytes)
    requires ReadManifest(lib, l, b).Good?
    ensures |b| >= HEADER_BYTES && b[..|MAGIC|] == MAGIC
    ensures var length := FromU32(b[|MAGIC|..HEADER_BYTES]);
      length <= MAX_MANIFEST_BYTES && HEADER_BYTES + length <= |b| && ReadManifest(lib, l, b).value.1 == b[HEADER_BYTES + length..]
  {
    hide FromU32, Parse, Read, Utf8.DecodeStrict;
  }

  /** A container is its magic, its length field, its manifest and its payload. */
  lemma ReadIsAssembled(lib: Library, l: Limits, b: Bytes)
    requires ReadManifest(lib, l, b).Good?
    ensures exists manifest :: |manifest| <= MAX_MANIFEST_BYTES && b == Assemble(manifest, ReadManifest(lib, l, b).value.1)
  {
    hide ReadManifest, FromU32, U32;
    ReadParts(lib, l, b);
    var field := b[|MAGIC|..HEADER_BYTES];
    var length := FromU32(field);
    var manifest := b[HEADER_BYTES..HEADER_BYTES + length];
    U32OfBytes(field);
    FourParts(b, |MAGIC|, HEADER_BYTES, HEADER_BYTES + length);
    assert b == Assemble(manifest, ReadManifest(lib, l, b).value.1);
  }

  lemma ValidatedCovers(lib: Library, l: Limits, m: Manifest, payload: Bytes)
    requires Validated(lib, l, m, |payload|) == None
    ensures m.files != [] && Within(m.files, payload) && (m.text.Some? ==> 0 <= m.text.value.offset <= |payload|)
    ensures payload == Flat(PartsOfEntries(m.files, payload)) + if m.text.Some? then TextOf(m, payload).value else []
    ensures forall i :: 0 <= i < |m.files| ==> Sound(lib, m.files[i])
  {
    hide Sound, EndOf, Flat, PartsOfEntries, Sanitize, SanitizeType, Hex64;
    AcceptedTiles(lib, l, m.files);
    ValidatedIsWithin(lib, l, m, payload);
    var end := EndOf(lib, l, m.files).value;
    PartsAreThePayload(m.files, payload, |m.files|);
    assert payload == payload[..end] + payload[end..];
    assert m.text.None? ==> payload[end..] == [];
  }

  /** Whatever decodes is its header, its manifest, its files and its text, end to end: no gap, no overlap, no byte left over. */
  lemma DecodedTiles(lib: Library, l: Limits, b: Bytes)
    requires Decode(lib, l, b).Good?
    ensures var d := Decode(lib, l, b).value;
      && d.files != []
      && (exists manifest :: |manifest| <= MAX_MANIFEST_BYTES && b == Assemble(manifest, Flat(PartsOf(d)) + if d.text.Some? then d.text.value else []))
      && forall i :: 0 <= i < |d.files| ==> lib.sha(d.files[i].bytes) == d.files[i].entry.sha256 && Sound(lib, d.files[i].entry)
  {
    hide ReadManifest, Validated, Sound, Flat, Assemble;
    var (m, payload) := ReadManifest(lib, l, b).value;
    var d := Decode(lib, l, b).value;
    ReadIsAssembled(lib, l, b);
    ValidatedCovers(lib, l, m, payload);
    assert PartsOf(d) == PartsOfEntries(m.files, payload);
  }

  function PartsOfEntries(files: seq<Entry>, payload: Bytes): seq<Bytes>
    requires Within(files, payload)
  {
    seq(|files|, i requires 0 <= i < |files| => BytesOf(payload, files[i]))
  }

  lemma {:induction false} PartsAreThePayload(files: seq<Entry>, payload: Bytes, n: nat)
    requires Within(files, payload) && 0 < n <= |files| && files[0].offset == 0
    requires forall i :: 0 <= i < |files| - 1 ==> files[i].offset + files[i].size == files[i + 1].offset
    ensures Flat(PartsOfEntries(files, payload)[..n]) == payload[..files[n - 1].offset + files[n - 1].size]
    ensures n == |files| ==> Flat(PartsOfEntries(files, payload)) == payload[..files[n - 1].offset + files[n - 1].size]
  {
    hide Flat;
    var parts := PartsOfEntries(files, payload);
    assert parts[..n] == parts[..n - 1] + [parts[n - 1]];
    FlatAppend(parts[..n - 1], parts[n - 1]);
    if n > 1 {
      PartsAreThePayload(files, payload, n - 1);
      assert files[n - 2].offset + files[n - 2].size == files[n - 2 + 1].offset;
    } else {
      NothingFlat(parts);
    }
    NextSlice(payload, files[n - 1].offset, files[n - 1].offset + files[n - 1].size);
    if n == |files| {
      assert parts[..n] == parts;
    }
  }

  lemma NothingFlat(parts: seq<Bytes>)
    ensures Flat(parts[..0]) == []
  {
  }

  lemma NextSlice(b: Bytes, i: int, j: int)
    requires 0 <= i <= j <= |b|
    ensures b[..i] + b[i..j] == b[..j]
  {
  }

  lemma U32OfBytes(b: Bytes)
    requires |b| == 4
    ensures FromU32(b) < 0x1_0000_0000 && U32(FromU32(b)) == b
  {
    var w, x, y, z := b[0] as nat, b[1] as nat, b[2] as nat, b[3] as nat;
    var n := FromU32(b);
    assert n / 256 == (w * 256 + x) * 256 + y && n % 256 == z;
    assert n / 0x1_0000 == w * 256 + x && n / 0x1_0000 == n / 256 / 256;
    assert n / 0x100_0000 == w;
  }

  // ------------------------------------------------------------ the manifest bound

  lemma {:induction false} SumUpTo(s: seq<nat>, i: nat)
    requires i <= |s|
    ensures Sum(s[..i]) <= Sum(s) && (i < |s| ==> Sum(s[..i]) + s[i] == Sum(s[..i + 1]) <= Sum(s))
    decreases |s| - i
  {
    if i < |s| {
      SumTake(s, i);
      SumUpTo(s, i + 1);
    } else {
      assert s[..i] == s;
    }
  }

  /** No C0 control survives the sanitizer, whatever its surrogates do. */
  lemma NameIsPlain(u: Unicode, raw: Text)
    requires Laws(u)
    ensures NoControls(Sanitize(u, raw)) && Utf8Length(Sanitize(u, raw)) <= MAX_FILE_NAME_BYTES
  {
    hide Infix, Clean, Strip, Truncate, Collapse, TrimEnd, Sanitize, Utf8Length;
    BeforeFallback(u, raw);
    FallbackIsCanonical(u);
    StripIsPlain(u, raw);
    PlainInfix(TrimEnd(u, Truncate(Collapse(u, u.nfc(Strip(u, raw))), MAX_FILE_NAME_BYTES)), u.nfc(Strip(u, raw)));
  }

  lemma {:induction false} StripIsPlain(u: Unicode, s: Text)
    requires forall c :: c < 0x20 ==> u.hidden(c)
    ensures NoControls(Strip(u, s))
  {
    if s != [] {
      StripIsPlain(u, s[..|s| - 1]);
    }
  }

  lemma PlainInfix(a: Text, b: Text)
    requires Infix(a, b) && NoControls(b)
    ensures NoControls(a)
  {
  }

  lemma EntriesAreBounded(lib: Library, l: Limits, files: seq<Upload>)
    requires LibraryLaws(lib)
    requires Resolved(l) && Sum(Lengths(files)) <= l.maxTotalBytes
    ensures forall i :: 0 <= i < |files| ==> Bounded(EntriesOf(lib, files)[i])
  {
    forall i | 0 <= i < |files|
      ensures Bounded(EntriesOf(lib, files)[i])
    {
      EntryIsBounded(lib, files[i], Sum(Lengths(files)[..i]));
      SumUpTo(Lengths(files), i);
    }
  }

  lemma EntryIsBounded(lib: Library, f: Upload, offset: nat)
    requires LibraryLaws(lib)
    ensures var e := EntryOf(lib, f, offset);
      offset <= MAX_BYTES && |f.bytes| <= MAX_BYTES ==> Bounded(e)
  {
    hide Sanitize, SanitizeType;
    NameIsPlain(lib.u, f.name);
    TypeIsFixed(lib.u, f.hint);
    assert Hex64(lib.sha(f.bytes));
  }

  lemma ManifestIsBounded(lib: Library, l: Limits, files: seq<Upload>, text: Option<Text>)
    requires LibraryLaws(lib) && Resolved(l) && 1 <= |files| <= l.maxFiles && Sum(Lengths(files)) <= l.maxTotalBytes
    requires text.Some? ==> Utf8Length(text.value) <= MAX_PRIVATE_TEXT_BYTES
    ensures |ManifestBytes(lib, files, text)| <= MAX_MANIFEST_BYTES
  {
    hide Print, EntryOf, Utf8Length, Utf8.Encoded;
    EntriesAreBounded(lib, l, files);
    ManifestPrints(lib, files, text);
    TextFits(lib, text);
    ManifestFits(ManifestOf(lib, files, text));
    WorstCaseGrows(|files|);
    Utf8.Utf8Bytes(Print(ManifestOf(lib, files, text)));
  }

  lemma PayloadLength(lib: Library, files: seq<Upload>, text: Option<Text>)
    ensures |Payload(lib, files, text)| == Sum(Lengths(files)) + |TextBytes(lib, text)|
  {
    FlatLength(Contents(files));
    assert seq(|files|, i requires 0 <= i < |files| => |Contents(files)[i]|) == Lengths(files);
  }

  /**
   * The encoder's last refusal is dead: within resolved limits, with or without
   * private text, the manifest never exceeds the ceiling it is measured against,
   * and so no container exceeds the bytes the broker reserves for one.
   */
  lemma EveryEncodingFits(lib: Library, l: Limits, files: seq<Upload>, text: Option<Text>)
    requires LibraryLaws(lib) && Resolved(l)
    ensures Encode(lib, l, files, text) != Refuse(ManifestLength)
    ensures Encode(lib, l, files, text).Good? ==> |Encode(lib, l, files, text).value| <= HEADER_BYTES + MAX_MANIFEST_BYTES + l.maxTotalBytes
    ensures HEADER_BYTES + MAX_MANIFEST_BYTES == BrokerCore.CONTAINER_HEADER_BYTES + BrokerCore.MAX_MANIFEST_BYTES
  {
    hide ManifestBytes, Payload, Utf8Length, LibraryLaws;
    PayloadLength(lib, files, text);
    if 1 <= |files| <= l.maxFiles && Sum(Lengths(files)) <= l.maxTotalBytes && (text.Some? ==> Utf8Length(text.value) <= MAX_PRIVATE_TEXT_BYTES) {
      ManifestIsBounded(lib, l, files, text);
    }
  }

  lemma WorstCaseGrows(n: nat)
    requires n <= MAX_FILES
    ensures WorstCaseManifestBytes(n) <= MAX_MANIFEST_BYTES
  {
  }

  // ---------------------------------------------------------------- the round trip

  /** The encoder and the decoder agree on what this file is called: told from the name it was uploaded under. */
  predicate NameSettles(lib: Library, f: Upload) {
    !Unsettled(lib.u, f.name)
  }

  lemma {:induction false} FlatSlice(parts: seq<Bytes>, lengths: seq<nat>, i: nat)
    requires |lengths| == |parts| && (forall k :: 0 <= k < |parts| ==> lengths[k] == |parts[k]|) && i < |parts|
    ensures Sum(lengths) == |Flat(parts)| && Sum(lengths[..i]) + |parts[i]| <= |Flat(parts)|
    ensures Flat(parts)[Sum(lengths[..i])..Sum(lengths[..i]) + |parts[i]|] == parts[i]
  {
    var n := |parts| - 1;
    if i == n {
      if n > 0 {
        FlatSlice(parts[..n], lengths[..n], 0);
      }
    } else {
      FlatSlice(parts[..n], lengths[..n], i);
      assert lengths[..n][..i] == lengths[..i];
      assert Flat(parts)[..|Flat(parts[..n])|] == Flat(parts[..n]);
    }
  }

  lemma NameSettlesIff(lib: Library, f: Upload)
    requires LibraryLaws(lib)
    ensures NameSettles(lib, f) <==> Sanitize(lib.u, Sanitize(lib.u, f.name)) == Sanitize(lib.u, f.name)
  {
    hide Sanitize, Unsettled;
    FixedPointIffSettled(lib.u, f.name);
  }

  /** The decoder's checks on an entry the encoder wrote come down to its name. */
  lemma EncodedEntry(lib: Library, l: Limits, f: Upload, offset: nat)
    requires LibraryLaws(lib) && |f.bytes| <= l.maxFileBytes && offset + |f.bytes| <= l.maxTotalBytes
    ensures EntryRefusal(lib, l, EntryOf(lib, f, offset), offset) == if NameSettles(lib, f) then None else Some(FileName)
  {
    hide Sanitize, SanitizeType, LibraryLaws, Hex64, Unsettled;
    NameSettlesIff(lib, f);
    TypeIsFixed(lib.u, f.hint);
    DigestIsHex(lib, f.bytes);
  }

  predicate AllSettle(lib: Library, files: seq<Upload>) {
    forall i :: 0 <= i < |files| ==> NameSettles(lib, files[i])
  }

  lemma SettleMore(lib: Library, files: seq<Upload>, n: nat)
    requires n < |files|
    ensures AllSettle(lib, files[..n + 1]) <==> AllSettle(lib, files[..n]) && NameSettles(lib, files[n])
  {
    hide NameSettles;
    assert forall i :: 0 <= i < n ==> files[..n + 1][i] == files[..n][i];
    assert files[..n + 1][n] == files[n];
  }

  lemma {:induction false} EndOfEncoded(lib: Library, l: Limits, files: seq<Upload>, n: nat)
    requires LibraryLaws(lib) && n <= |files| && Sum(Lengths(files)) <= l.maxTotalBytes
    requires forall i :: 0 <= i < |files| ==> |files[i].bytes| <= l.maxFileBytes
    ensures EndOf(lib, l, EntriesOf(lib, files)[..n]) == if AllSettle(lib, files[..n]) then Good(Sum(Lengths(files)[..n])) else Refuse(FileName)
  {
    hide EntryRefusal, NameSettles, AllSettle, LibraryLaws, Sanitize, SanitizeType, Sound, EntryOf, Sum;
    if n > 0 {
      EndOfEncoded(lib, l, files, n - 1);
      var entries, lengths := EntriesOf(lib, files)[..n], Lengths(files);
      var last := EntryOf(lib, files[n - 1], Sum(lengths[..n - 1]));
      assert entries[..n - 1] == EntriesOf(lib, files)[..n - 1] && entries[n - 1] == last;
      SumUpTo(lengths, n - 1);
      EncodedEntry(lib, l, files[n - 1], Sum(lengths[..n - 1]));
      SettleMore(lib, files, n - 1);
      EntrySize(lib, files[n - 1], Sum(lengths[..n - 1]));
    } else {
      NothingEnds(lib, l, files);
    }
  }

  lemma EntrySize(lib: Library, f: Upload, offset: nat)
    ensures EntryOf(lib, f, offset).size == |f.bytes|
  {
  }

  lemma NothingEnds(lib: Library, l: Limits, files: seq<Upload>)
    ensures EndOf(lib, l, EntriesOf(lib, files)[..0]) == Good(Sum(Lengths(files)[..0])) && AllSettle(lib, files[..0])
  {
  }

  lemma DigestIsHex(lib: Library, b: Bytes)
    requires LibraryLaws(lib)
    ensures Hex64(lib.sha(b))
  {
  }

  lemma EncodedReads(lib: Library, l: Limits, files: seq<Upload>, text: Option<Text>)
    requires LibraryLaws(lib) && Resolved(l) && Encode(lib, l, files, text).Good?
    ensures ReadManifest(lib, l, Encode(lib, l, files, text).value) == Good((ManifestOf(lib, files, text), Payload(lib, files, text)))
  {
    hide ManifestBytes, ManifestOf, Payload, LibraryLaws, Assemble, U32, FromU32;
    EveryEncodingFits(lib, l, files, text);
    var manifest := ManifestBytes(lib, files, text);
    U32RoundTrip(|manifest|);
    AssembledAt(manifest, Payload(lib, files, text));
    EncodedParses(lib, files, text);
  }

  lemma AssembledAt(manifest: Bytes, payload: Bytes)
    requires |manifest| < 0x1_0000_0000
    ensures var b := Assemble(manifest, payload);
      && |b| == HEADER_BYTES + |manifest| + |payload| && b[..|MAGIC|] == MAGIC && b[|MAGIC|..HEADER_BYTES] == U32(|manifest|)
      && b[HEADER_BYTES..HEADER_BYTES + |manifest|] == manifest && b[HEADER_BYTES + |manifest|..] == payload
  {
  }

  lemma EncodedParses(lib: Library, files: seq<Upload>, text: Option<Text>)
    requires LibraryLaws(lib)
    ensures var decoded := Utf8.DecodeStrict(ManifestBytes(lib, files, text));
      decoded.Some? && Parse(decoded.value).Some? && Read(Parse(decoded.value).value) == ManifestOf(lib, files, text)
  {
    hide Print, ManifestOf, Parse, Read, NoSurrogates, Utf8.Encoded, Utf8.DecodeStrict;
    ManifestPrints(lib, files, text);
    NamesAreStrings(lib, files);
    var m := ManifestOf(lib, files, text);
    assert m.files == EntriesOf(lib, files) by { FilesOf(lib, files, text); }
    PrintedReadsBack(m);
    Utf8.EncodedReadsBack(Print(m));
  }

  lemma FilesOf(lib: Library, files: seq<Upload>, text: Option<Text>)
    ensures ManifestOf(lib, files, text).files == EntriesOf(lib, files)
  {
  }

  lemma NamesAreStrings(lib: Library, files: seq<Upload>)
    requires LibraryLaws(lib)
    ensures Strings(EntriesOf(lib, files))
  {
    hide Sanitize, SanitizeType, Hex64, Stable;
    forall i | 0 <= i < |files|
      ensures var e := EntriesOf(lib, files)[i]; Stable(e.name) && Stable(e.sha256) && Stable(e.hint)
    {
      SanitizedIsStable(lib.u, files[i].name);
      TypeIsFixed(lib.u, files[i].hint);
      assert Hex64(lib.sha(files[i].bytes));
      AsciiIsStable(lib.sha(files[i].bytes));
      AsciiIsStable(SanitizeType(lib.u, files[i].hint));
    }
  }

  lemma AsciiIsStable(s: Text)
    ensures PrintableAscii(s) || Hex64(s) ==> Stable(s)
  {
  }

  function Arrived(lib: Library, files: seq<Upload>): seq<Received> {
    seq(|files|, i requires 0 <= i < |files| => Received(EntriesOf(lib, files)[i], files[i].bytes))
  }

  lemma EncodedFiles(lib: Library, files: seq<Upload>, tail: Bytes)
    ensures Within(EntriesOf(lib, files), Flat(Contents(files)) + tail)
    ensures ReceivedOf(EntriesOf(lib, files), Flat(Contents(files)) + tail) == Arrived(lib, files)
  {
    hide Sanitize, SanitizeType, Flat;
    var payload := Flat(Contents(files)) + tail;
    forall i | 0 <= i < |files|
      ensures var e := EntriesOf(lib, files)[i];
        0 <= e.offset && 0 <= e.size && e.offset + e.size <= |payload| && payload[e.offset..e.offset + e.size] == files[i].bytes
    {
      FlatSlice(Contents(files), Lengths(files), i);
      var e := EntriesOf(lib, files)[i];
      assert payload[e.offset..e.offset + e.size] == Flat(Contents(files))[e.offset..e.offset + e.size];
    }
  }

  lemma EncodedValidates(lib: Library, l: Limits, files: seq<Upload>, text: Option<Text>)
    requires LibraryLaws(lib) && Resolved(l) && Encode(lib, l, files, text).Good?
    ensures Validated(lib, l, ManifestOf(lib, files, text), |Payload(lib, files, text)|) ==
      if AllSettle(lib, files) then None else Some(FileName)
  {
    hide Print, EntryOf, Flat, EndOf, AllSettle, Utf8Length, ManifestBytes, Assemble, LibraryLaws;
    EndOfEncoded(lib, l, files, |files|);
    assert EntriesOf(lib, files)[..|files|] == EntriesOf(lib, files) && Lengths(files)[..|files|] == Lengths(files) && files[..|files|] == files;
    PayloadLength(lib, files, text);
    TextFits(lib, text);
  }

  lemma TextFits(lib: Library, text: Option<Text>)
    requires LibraryLaws(lib)
    ensures text.Some? ==> |Utf8.Encoded(text.value)| == Utf8Length(text.value)
  {
    hide Utf8.Encoded;
    if text.Some? {
      Utf8.Utf8Bytes(text.value);
    }
  }

  /**
   * Whenever encoding succeeds, decoding under the same limits gives back the
   * same bytes, the sanitized names and hints and the same text, exactly if
   * every name settles in one pass of the sanitizer; otherwise the decoder
   * refuses its own encoder's container.
   */
  lemma RoundTrip(lib: Library, l: Limits, files: seq<Upload>, text: Option<Text>)
    requires LibraryLaws(lib) && Resolved(l) && Encode(lib, l, files, text).Good?
    ensures Decode(lib, l, Encode(lib, l, files, text).value) ==
      if AllSettle(lib, files)
      then Good(Decoded(Arrived(lib, files), if text.Some? then Some(Utf8.Encoded(text.value)) else None))
      else Refuse(FileName)
  {
    hide EntryOf, Flat, AllSettle, Encode, Validated, ReadManifest, Within, ReceivedOf, AllHashesMatch, LibraryLaws;
    EncodedReads(lib, l, files, text);
    EncodedValidates(lib, l, files, text);
    EncodedFiles(lib, files, TextBytes(lib, text));
    ArrivedMatches(lib, files);
    EncodedText(lib, files, text);
  }

  lemma ArrivedMatches(lib: Library, files: seq<Upload>)
    ensures AllHashesMatch(lib, Arrived(lib, files))
  {
    hide Sanitize, SanitizeType;
  }

  lemma EncodedText(lib: Library, files: seq<Upload>, text: Option<Text>)
    requires LibraryLaws(lib)
    ensures var m, payload := ManifestOf(lib, files, text), Payload(lib, files, text);
      text.Some? ==> 0 <= m.text.value.offset <= |payload| && TextOf(m, payload) == Some(Utf8.Encoded(text.value)) && Utf8.DecodeStrict(Utf8.Encoded(text.value)).Some?
  {
    hide EntryOf, Utf8.Encoded, Utf8.DecodeStrict;
    PayloadLength(lib, files, text);
    if text.Some? {
      Utf8.EncodedReadsBack(text.value);
    }
  }

  /** Names without unpaired surrogates always settle, so every such upload that encodes also decodes. */
  lemma WellFormedNamesRoundTrip(lib: Library, l: Limits, files: seq<Upload>, text: Option<Text>)
    requires LibraryLaws(lib) && Resolved(l) && Encode(lib, l, files, text).Good?
    requires forall i :: 0 <= i < |files| ==> Lone(files[i].name) == 0
    ensures Decode(lib, l, Encode(lib, l, files, text).value).Good?
  {
    hide Sanitize, Decode, Encode, Lone, Unsettled;
    forall i | 0 <= i < |files|
      ensures NameSettles(lib, files[i])
    {
      FixedPointForWellFormed(lib.u, files[i].name);
      NameSettlesIff(lib, files[i]);
    }
    RoundTrip(lib, l, files, text);
  }

  // ------------------------------------------------------------- the encoder's loops

  /** The size loop: the first oversized file, or the total. */
  method TotalBytes(l: Limits, files: seq<Upload>) returns (total: Outcome<nat>)
    ensures total == if exists i :: 0 <= i < |files| && |files[i].bytes| > l.maxFileBytes then Refuse(FileSize) else Good(Sum(Lengths(files)))
  {
    var sum: nat := 0;
    var i := 0;
    while i < |files|
      invariant i <= |files| && sum == Sum(Lengths(files)[..i])
      invariant forall k :: 0 <= k < i ==> |files[k].bytes| <= l.maxFileBytes
    {
      if |files[i].bytes| > l.maxFileBytes {
        return Refuse(FileSize);
      }
      SumTake(Lengths(files), i);
      sum := sum + |files[i].bytes|;
      i := i + 1;
    }
    assert Lengths(files)[..i] == Lengths(files);
    return Good(sum);
  }

  /** The entry loop: a running offset. */
  method BuildEntries(lib: Library, files: seq<Upload>) returns (entries: seq<Entry>)
    ensures entries == EntriesOf(lib, files)
  {
    hide Sanitize, SanitizeType;
    entries := [];
    var offset: nat := 0;
    var i := 0;
    while i < |files|
      invariant i <= |files| && offset == Sum(Lengths(files)[..i]) && entries == EntriesOf(lib, files)[..i]
    {
      entries := entries + [EntryOf(lib, files[i], offset)];
      SumTake(Lengths(files), i);
      offset := offset + |files[i].bytes|;
      i := i + 1;
    }
    assert EntriesOf(lib, files)[..i] == EntriesOf(lib, files);
  }

  /** The copy loop: files back to back with a running cursor, then the text. */
  method FillPayload(container: array<byte>, start: nat, parts: seq<Bytes>, tail: Bytes)
    requires container.Length == start + |Flat(parts)| + |tail|
    modifies container
    ensures container[..] == old(container[..start]) + Flat(parts) + tail
  {
    var cursor := start;
    var i := 0;
    assert parts[..0] == [] && container[..start] == old(container[..start]) + Flat(parts[..0]);
    while i < |parts|
      invariant i <= |parts| && cursor == start + |Flat(parts[..i])| <= container.Length
      invariant container[..cursor] == old(container[..start]) + Flat(parts[..i])
    {
      FlatPrefix(parts, i);
      HpkeInfo.Set(container, parts[i], cursor);
      cursor := cursor + |parts[i]|;
      i := i + 1;
    }
    assert parts[..i] == parts;
    HpkeInfo.Set(container, tail, cursor);
  }

  lemma FlatPrefix(parts: seq<Bytes>, i: nat)
    requires i < |parts|
    ensures Flat(parts[..i + 1]) == Flat(parts[..i]) + parts[i] && |Flat(parts[..i + 1])| <= |Flat(parts)|
    decreases |parts| - i
  {
    assert parts[..i + 1] == parts[..i] + [parts[i]];
    FlatAppend(parts[..i], parts[i]);
    if i + 1 < |parts| {
      FlatPrefix(parts, i + 1);
    } else {
      assert parts[..i + 1] == parts;
    }
  }

  method EncodeFileContainer(lib: Library, l: Limits, files: seq<Upload>, text: Option<Text>) returns (r: Outcome<array<byte>>)
    ensures r.Refuse? ==> Encode(lib, l, files, text) == Refuse(r.code)
    ensures r.Good? ==> fresh(r.value) && Encode(lib, l, files, text) == Good(r.value[..])
  {
    hide Sanitize, SanitizeType, Print, Utf8Length, Flat, U32;
    if text.Some? && Utf8Length(text.value) > MAX_PRIVATE_TEXT_BYTES {
      return Refuse(TextSize);
    }
    if |files| == 0 || |files| > l.maxFiles {
      return Refuse(FileCount);
    }
    var total := TotalBytes(l, files);
    if total.Refuse? {
      return Refuse(total.code);
    }
    if total.value > l.maxTotalBytes {
      return Refuse(TotalSize);
    }
    var entries := BuildEntries(lib, files);
    var textBytes := TextBytes(lib, text);
    if total.value + |textBytes| > l.maxTotalBytes {
      return Refuse(TotalSize);
    }
    ManifestPrints(lib, files, text);
    var manifest := Utf8.Encoded(Print(Manifest(true, entries, if text.Some? then Some(TextMeta(true, total.value, |textBytes|)) else None)));
    if |manifest| > MAX_MANIFEST_BYTES {
      return Refuse(ManifestLength);
    }
    PayloadLength(lib, files, None);
    var container := WriteContainer(manifest, Contents(files), textBytes, total.value);
    return Good(container);
  }

  method WriteContainer(manifest: Bytes, parts: seq<Bytes>, tail: Bytes, total: nat) returns (container: array<byte>)
    requires |manifest| < 0x1_0000_0000 && total == |Flat(parts)|
    ensures fresh(container) && container[..] == Assemble(manifest, Flat(parts) + tail)
  {
    hide Flat, U32, Sum;
    var start := HEADER_BYTES + |manifest|;
    container := new byte[start + total + |tail|](_ => 0);
    WriteHeader(container, manifest);
    FillPayload(container, start, parts, tail);
    AssembledParts(manifest, Flat(parts), tail);
  }

  lemma AssembledParts(manifest: Bytes, files: Bytes, tail: Bytes)
    requires |manifest| < 0x1_0000_0000
    ensures MAGIC + U32(|manifest|) + manifest + files + tail == Assemble(manifest, files + tail)
  {
    hide U32;
    var head := MAGIC + U32(|manifest|) + manifest;
    assert head + files + tail == head + (files + tail);
  }

  method WriteHeader(container: array<byte>, manifest: Bytes)
    requires |manifest| < 0x1_0000_0000 && container.Length >= HEADER_BYTES + |manifest|
    modifies container
    ensures container[..HEADER_BYTES + |manifest|] == MAGIC + U32(|manifest|) + manifest
  {
    var field := U32(|manifest|);
    hide U32;
    HpkeInfo.Set(container, MAGIC, 0);
    HpkeInfo.Set(container, field, |MAGIC|);
    assert container[..HEADER_BYTES] == MAGIC + field;
    HpkeInfo.Set(container, manifest, HEADER_BYTES);
  }
}
