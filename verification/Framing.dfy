/**
 * The pull reader of src/file-claim-client.js and the byte stream it reads:
 * newline-ended lines and length-prefixed frames, delivered in chunks that may
 * be cut anywhere, or stop anywhere.
 */
module Framing {
  import opened Basics

  const NEWLINE: byte := 10
  const FRAME_HEADER_BYTES: nat := 4

  // ------------------------------------------------------------ the whole stream

  /** Where the first newline is, if there is one. */
  function IndexOfNewline(s: Bytes): (n: Option<nat>)
    ensures n.None? ==> NEWLINE !in s
    ensures n.Some? ==> n.value < |s| && s[n.value] == NEWLINE && NEWLINE !in s[..n.value]
  {
    if s == [] then None
    else if s[0] == NEWLINE then Some(0)
    else
      var n := IndexOfNewline(s[1..]);
      assert n.Some? ==> s[..n.value + 1] == [s[0]] + s[1..][..n.value];
      if n.Some? then Some(n.value + 1) else None
  }

  /** The first newline of a stream is the first newline of any piece of it that has one. */
  lemma NewlineInPrefix(a: Bytes, b: Bytes)
    ensures IndexOfNewline(a).Some? ==> IndexOfNewline(a + b) == IndexOfNewline(a)
  {
    if IndexOfNewline(a).Some? {
      FirstNewline(a + b, IndexOfNewline(a).value);
    }
  }

  lemma {:induction false} FirstNewline(s: Bytes, n: nat)
    requires n < |s| && s[n] == NEWLINE && forall k :: 0 <= k < n ==> s[k] != NEWLINE
    ensures IndexOfNewline(s) == Some(n)
  {
    if n > 0 {
      FirstNewline(s[1..], n - 1);
    }
  }

  // -------------------------------------------------------------------- the reader

  class FrameReader {
    var pending: Bytes
    var chunks: seq<Bytes>
    var done: bool

    ghost predicate Valid()
      reads this
    {
      done ==> chunks == []
    }

    /** Everything not yet read, however it is cut. */
    ghost function Stream(): Bytes
      reads this
    {
      pending + Flat(chunks)
    }

    constructor (chunks: seq<Bytes>)
      ensures Valid() && Stream() == Flat(chunks)
    {
      this.pending, this.chunks, this.done := [], chunks, false;
    }

    /** The socket's iterator: one more chunk, or the end. */
    method Pull() returns (more: bool)
      requires Valid()
      modifies this
      ensures Valid() && Stream() == old(Stream())
      ensures more <==> old(chunks) != []
      ensures more ==> chunks == old(chunks)[1..]
      ensures !more ==> pending == old(pending) && chunks == []
    {
      if done {
        return false;
      }
      if chunks == [] {
        done := true;
        return false;
      }
      FlatCons(chunks);
      pending := if |pending| == 0 then chunks[0] else pending + chunks[0];
      chunks := chunks[1..];
      return true;
    }

    /** `readLine`: what splitting the whole stream at its first newline gives. */
    method ReadLine() returns (line: Option<Bytes>)
      requires Valid()
      modifies this
      ensures Valid()
      ensures match IndexOfNewline(old(Stream()))
              case None => line == None && Stream() == old(Stream())
              case Some(n) => line == Some(old(Stream())[..n]) && Stream() == old(Stream())[n + 1..]
    {
      while true
        invariant Valid() && Stream() == old(Stream())
        decreases |chunks|
      {
        var newline := IndexOfNewline(pending);
        if newline.Some? {
          NewlineInPrefix(pending, Flat(chunks));
          var n := newline.value;
          assert Stream()[..n] == pending[..n] && Stream()[n + 1..] == pending[n + 1..] + Flat(chunks);
          line := Some(pending[..n]);
          pending := pending[n + 1..];
          return;
        }
        var more := Pull();
        if !more {
          assert Stream() == pending;
          return None;
        }
      }
    }

    /** At most `limit` of the bytes already here. */
    method TakePiece(limit: nat) returns (piece: Bytes)
      requires Valid() && pending != [] && limit > 0
      modifies this`pending
      ensures Valid() && 0 < |piece| <= limit && |piece| <= |old(Stream())|
      ensures piece == old(Stream())[..|piece|] && Stream() == old(Stream())[|piece|..]
    {
      var take := Min(limit, |pending|);
      ghost var stream := Stream();
      piece := pending[..take];
      pending := pending[take..];
      assert stream[..take] == piece && stream[take..] == pending + Flat(chunks);
    }

    /** `readBytes`: the next `count` bytes in pieces, or all that is left if the stream ends first. */
    method ReadBytes(count: nat) returns (read: nat, pieces: seq<Bytes>)
      requires Valid()
      modifies this
      ensures Valid() && read == Min(count, |old(Stream())|)
      ensures Flat(pieces) == old(Stream())[..read] && Stream() == old(Stream())[read..]
      ensures forall k :: 0 <= k < |pieces| ==> pieces[k] != []
    {
      read, pieces := 0, [];
      while read < count
        invariant Valid() && read <= count && read <= |old(Stream())|
        invariant Flat(pieces) == old(Stream())[..read] && Stream() == old(Stream())[read..]
        invariant forall k :: 0 <= k < |pieces| ==> pieces[k] != []
        decreases count - read, |chunks|
      {
        if |pending| == 0 {
          var more := Pull();
          if !more {
            assert Stream() == [];
            return;
          }
        }
        if |pending| > 0 {
          var piece := TakePiece(count - read);
          FlatAppend(pieces, piece);
          Split(old(Stream()), read, |piece|);
          pieces := pieces + [piece];
          read := read + |piece|;
        }
      }
    }
  }

  lemma Split(s: Bytes, a: nat, b: nat)
    requires a + b <= |s|
    ensures s[..a] + s[a..][..b] == s[..a + b] && s[a..][b..] == s[a + b..]
  {
  }

  // ------------------------------------------------------------- the conversation

  /** What a side writes: a line without a newline in it, or a frame. */
  datatype Item = TextLine(text: Bytes) | FileFrame(bytes: Bytes)

  predicate WellSized(item: Item) {
    match item
    case TextLine(text) => NEWLINE !in text
    case FileFrame(bytes) => |bytes| < 0x1_0000_0000
  }

  function Encode(item: Item): Bytes
    requires WellSized(item)
  {
    match item
    case TextLine(text) => text + [NEWLINE]
    case FileFrame(bytes) => U32(|bytes|) + bytes
  }

  function Wire(items: seq<Item>): Bytes
    requires forall k :: 0 <= k < |items| ==> WellSized(items[k])
  {
    if items == [] then [] else Encode(items[0]) + Wire(items[1..])
  }

  /** The stream begins with this item exactly when it begins with the item's encoding. */
  predicate StartsWith(stream: Bytes, item: Item)
    requires WellSized(item)
  {
    |Encode(item)| <= |stream| && stream[..|Encode(item)|] == Encode(item)
  }

  /**
   * Reads one line or one frame. Whatever the chunks, an item that is wholly in
   * the stream is returned as it was written, and one that is cut off is reported
   * as missing.
   */
  method ReadItem(reader: FrameReader, frame: bool, ghost sent: Item) returns (item: Option<Item>)
    requires reader.Valid() && WellSized(sent) && (frame <==> sent.FileFrame?)
    requires StartsWith(reader.Stream(), sent) || reader.Stream() < Encode(sent)
    modifies reader
    ensures reader.Valid()
    ensures old(StartsWith(reader.Stream(), sent)) ==> item == Some(sent) && reader.Stream() == old(reader.Stream())[|Encode(sent)|..]
    ensures !old(StartsWith(reader.Stream(), sent)) ==> item == None
  {
    ghost var stream := reader.Stream();
    if !frame {
      LineIsFirst(stream, sent);
      var line := reader.ReadLine();
      return if line.Some? then Some(TextLine(line.value)) else None;
    }
    FrameIsFirst(stream, sent);
    var got, header := reader.ReadBytes(FRAME_HEADER_BYTES);
    if got < FRAME_HEADER_BYTES {
      return None;
    }
    var length := FromU32(Flat(header));
    var read, pieces := reader.ReadBytes(length);
    return if read < length then None else Some(FileFrame(Flat(pieces)));
  }

  lemma LineIsFirst(stream: Bytes, sent: Item)
    requires WellSized(sent) && sent.TextLine?
    requires StartsWith(stream, sent) || stream < Encode(sent)
    ensures StartsWith(stream, sent) ==> IndexOfNewline(stream) == Some(|sent.text|) && stream[..|sent.text|] == sent.text && stream[|sent.text| + 1..] == stream[|Encode(sent)|..]
    ensures !StartsWith(stream, sent) ==> IndexOfNewline(stream) == None
  {
    var text := sent.text;
    if StartsWith(stream, sent) {
      assert forall k :: 0 <= k < |text| ==> stream[k] == Encode(sent)[k] == text[k];
      assert stream[|text|] == Encode(sent)[|text|];
      FirstNewline(stream, |text|);
    } else {
      assert forall k :: 0 <= k < |stream| ==> stream[k] == Encode(sent)[k] == text[k];
    }
  }

  lemma FrameIsFirst(stream: Bytes, sent: Item)
    requires WellSized(sent) && sent.FileFrame?
    requires StartsWith(stream, sent) || stream < Encode(sent)
    ensures |stream| >= FRAME_HEADER_BYTES ==> FromU32(stream[..FRAME_HEADER_BYTES]) == |sent.bytes|
    ensures StartsWith(stream, sent) <==> |stream| >= FRAME_HEADER_BYTES + |sent.bytes|
    ensures StartsWith(stream, sent) ==> stream[FRAME_HEADER_BYTES..][..|sent.bytes|] == sent.bytes && stream[FRAME_HEADER_BYTES..][|sent.bytes|..] == stream[|Encode(sent)|..]
  {
    U32RoundTrip(|sent.bytes|);
    if |stream| >= FRAME_HEADER_BYTES {
      assert stream[..FRAME_HEADER_BYTES] == U32(|sent.bytes|);
    }
    if StartsWith(stream, sent) {
      assert stream[FRAME_HEADER_BYTES..][..|sent.bytes|] == Encode(sent)[FRAME_HEADER_BYTES..];
    }
  }

  /** How many of the items are wholly within the first `n` bytes of the wire. */
  function Whole(items: seq<Item>, n: nat): (k: nat)
    requires forall k :: 0 <= k < |items| ==> WellSized(items[k])
    ensures k <= |items|
  {
    if items == [] || n < |Encode(items[0])| then 0 else 1 + Whole(items[1..], n - |Encode(items[0])|)
  }

  /** A wire cut short holds every item exactly when it was not cut short. */
  lemma {:induction false} WholeWhenComplete(items: seq<Item>, n: nat)
    requires forall k :: 0 <= k < |items| ==> WellSized(items[k])
    ensures n >= |Wire(items)| <==> Whole(items, n) == |items|
  {
    if items != [] && n >= |Encode(items[0])| {
      WholeWhenComplete(items[1..], n - |Encode(items[0])|);
    }
  }

  /** What one item leaves of a wire that may have been cut. */
  lemma WireStep(items: seq<Item>, n: nat)
    requires items != [] && (forall k :: 0 <= k < |items| ==> WellSized(items[k])) && n <= |Wire(items)|
    ensures var stream := Wire(items)[..n];
      && (StartsWith(stream, items[0]) <==> n >= |Encode(items[0])|)
      && (StartsWith(stream, items[0]) || stream < Encode(items[0]))
      && (n >= |Encode(items[0])| ==>
            n - |Encode(items[0])| <= |Wire(items[1..])| && stream[|Encode(items[0])|..] == Wire(items[1..])[..n - |Encode(items[0])|])
  {
    hide Encode, WellSized;
    CutConcat(Encode(items[0]), Wire(items[1..]), n);
  }

  lemma CutConcat(first: seq<byte>, rest: seq<byte>, n: nat)
    requires n <= |first| + |rest|
    ensures var cut := (first + rest)[..n];
      if n >= |first| then first <= cut && cut[|first|..] == rest[..n - |first|] else cut < first
  {
    if n >= |first| {
      assert (first + rest)[..n] == first + rest[..n - |first|];
    } else {
      assert (first + rest)[..n] == first[..n];
    }
  }

  /**
   * Framing fidelity: for every way of cutting the stream into chunks, and for
   * every point at which it may end, reading items of the agreed shapes returns
   * exactly the items that were sent, in order, up to the first incomplete one.
   */
  method ReadConversation(reader: FrameReader, frames: seq<bool>, ghost sent: seq<Item>, ghost n: nat) returns (items: seq<Item>, complete: bool)
    requires reader.Valid() && |frames| == |sent|
    requires forall k :: 0 <= k < |sent| ==> WellSized(sent[k]) && (frames[k] <==> sent[k].FileFrame?)
    requires n <= |Wire(sent)| && reader.Stream() == Wire(sent)[..n]
    modifies reader
    ensures items == sent[..Whole(sent, n)]
    ensures complete <==> n == |Wire(sent)|
  {
    hide Wire, Encode, Whole, StartsWith, WellSized;
    items := [];
    ghost var left: nat := n;
    while |items| < |frames|
      invariant reader.Valid() && |items| <= |frames| && items == sent[..|items|]
      invariant Remaining(sent, n, |items|, left) && reader.Stream() == Wire(sent[|items|..])[..left]
    {
      NextRemains(sent, n, |items|, left);
      var item := ReadItem(reader, frames[|items|], sent[|items|]);
      if item.None? {
        CutShort(sent, n, |items|, left);
        return items, false;
      }
      left := left - |Encode(sent[|items|])|;
      items := items + [item.value];
    }
    CutShort(sent, n, |items|, left);
    return items, true;
  }

  /** After `k` whole items, `left` bytes of the rest of the wire were not cut off. */
  predicate Remaining(sent: seq<Item>, n: nat, k: nat, left: nat)
    requires forall i :: 0 <= i < |sent| ==> WellSized(sent[i])
  {
    k <= |sent| && left <= |Wire(sent[k..])| && Whole(sent, n) == k + Whole(sent[k..], left)
  }

  lemma NextRemains(sent: seq<Item>, n: nat, k: nat, left: nat)
    requires (forall i :: 0 <= i < |sent| ==> WellSized(sent[i])) && Remaining(sent, n, k, left) && k < |sent|
    ensures var stream := Wire(sent[k..])[..left];
      && (StartsWith(stream, sent[k]) || stream < Encode(sent[k]))
      && (StartsWith(stream, sent[k]) ==>
            && |Encode(sent[k])| <= left && Remaining(sent, n, k + 1, left - |Encode(sent[k])|)
            && stream[|Encode(sent[k])|..] == Wire(sent[k + 1..])[..left - |Encode(sent[k])|])
      && (!StartsWith(stream, sent[k]) ==> Whole(sent, n) == k)
  {
    var rest := sent[k..];
    assert rest[0] == sent[k] && rest[1..] == sent[k + 1..];
    WireStep(rest, left);
  }

  lemma CutShort(sent: seq<Item>, n: nat, k: nat, left: nat)
    requires (forall i :: 0 <= i < |sent| ==> WellSized(sent[i])) && Remaining(sent, n, k, left) && n <= |Wire(sent)|
    ensures n == |Wire(sent)| <==> Whole(sent, n) == |sent|
    ensures k == |sent| ==> Whole(sent, n) == k
  {
    WholeWhenComplete(sent, n);
  }
}
