/**
 * The `info` binding of src/hpke-suite.js: a fixed layout filled in place.
 * HPKE itself (RFC 9180, sections 5.1 and 6.1) is symbolic: a box opens with
 * exactly the key and the `info` it was sealed with.
 */
module HpkeInfo {
  import opened Basics

  const ID_BYTES: nat := 22
  const HASH_BYTES: nat := 32

  // "hermes-handoff/v1"
  const LABEL: Bytes := [104, 101, 114, 109, 101, 115, 45, 104, 97, 110, 100, 111, 102, 102, 47, 118, 49]

  // Three big-endian code points: kem 0x0010, kdf 0x0001, aead 0x0002.
  const SUITE_CODE_POINTS: Bytes := [0, 16, 0, 1, 0, 2]

  /** A one-byte store keeps the value modulo 256, as a Uint8Array does. */
  function LowByte(v: nat): byte {
    (v % 256) as byte
  }

  function Header(version: nat): Bytes {
    LABEL + [0, LowByte(version)] + SUITE_CODE_POINTS
  }

  function Info(handoffId: Bytes, capHash: Bytes, version: nat): Bytes {
    Header(version) + handoffId + capHash
  }

  method Set(target: array<byte>, source: Bytes, offset: nat)
    requires offset + |source| <= target.Length
    modifies target
    ensures target[..] == old(target[..offset]) + source + old(target[offset + |source|..])
  {
    var i := 0;
    while i < |source|
      invariant i <= |source|
      invariant forall k :: 0 <= k < i ==> target[offset + k] == source[k]
      invariant forall k :: 0 <= k < target.Length && !(offset <= k < offset + i) ==> target[k] == old(target[k])
    {
      target[offset + i] := source[i];
      i := i + 1;
    }
  }

  /** `buildInfo`: wrong lengths are refused, everything else is laid out with a running offset. */
  method BuildInfo(handoffId: Bytes, capHash: Bytes, version: nat) returns (r: Option<array<byte>>)
    ensures r.None? <==> |handoffId| != ID_BYTES || |capHash| != HASH_BYTES
    ensures r.Some? ==> fresh(r.value) && r.value[..] == Info(handoffId, capHash, version)
  {
    if |handoffId| != ID_BYTES || |capHash| != HASH_BYTES {
      return None;
    }
    var info := new byte[|LABEL| + 1 + 1 + |SUITE_CODE_POINTS| + |handoffId| + |capHash|](_ => 0);
    var offset := 0;
    Set(info, LABEL, offset);
    offset := offset + |LABEL|;
    info[offset] := 0;
    offset := offset + 1;
    info[offset] := LowByte(version);
    offset := offset + 1;
    assert info[..offset] == LABEL + [0, LowByte(version)];
    Set(info, SUITE_CODE_POINTS, offset);
    offset := offset + |SUITE_CODE_POINTS|;
    assert info[..offset] == Header(version);
    Set(info, handoffId, offset);
    offset := offset + |handoffId|;
    assert info[..offset] == Header(version) + handoffId;
    Set(info, capHash, offset);
    assert info[..] == Info(handoffId, capHash, version);
    return Some(info);
  }

  /** Two bindings coincide exactly when id, capability hash and version byte all do. */
  lemma InfoInjective(id1: Bytes, hash1: Bytes, v1: nat, id2: Bytes, hash2: Bytes, v2: nat)
    requires |id1| == |id2| == ID_BYTES
    requires |hash1| == |hash2| == HASH_BYTES
    ensures Info(id1, hash1, v1) == Info(id2, hash2, v2) <==> id1 == id2 && hash1 == hash2 && v1 % 256 == v2 % 256
  {
    var i1, i2 := Info(id1, hash1, v1), Info(id2, hash2, v2);
    if i1 == i2 {
      var n := |LABEL| + 2 + |SUITE_CODE_POINTS|;
      assert |Header(v1)| == n && |Header(v2)| == n;
      assert id1 == i1[n..n + ID_BYTES] && id2 == i2[n..n + ID_BYTES];
      assert hash1 == i1[n + ID_BYTES..] && hash2 == i2[n + ID_BYTES..];
      assert i1[|LABEL| + 1] == LowByte(v1) && i2[|LABEL| + 1] == LowByte(v2);
      assert LowByte(v1) as int == v1 % 256 && LowByte(v2) as int == v2 % 256;
    }
  }

  type Key = nat

  const AEAD_TAG_BYTES: nat := 16

  /** What an envelope carries: a box sealed to a key under an `info`, or bytes that are no box. */
  datatype Sealed = Box(key: Key, info: Bytes, plaintext: Bytes) | Noise(length: nat)

  /** The length of the ciphertext: the plaintext and its tag. */
  function CiphertextBytes(box: Sealed): nat {
    match box
    case Box(_, _, plaintext) => |plaintext| + AEAD_TAG_BYTES
    case Noise(length) => length
  }

  function Open(key: Key, info: Bytes, box: Sealed): Option<Bytes> {
    if box.Box? && box.key == key && box.info == info then Some(box.plaintext) else None
  }

  /** A box sealed for another key, handoff, capability or version does not open here, and only such a box fails. */
  lemma OpensOnlyAsSealed(key: Key, id: Bytes, hash: Bytes, v: nat, key2: Key, id2: Bytes, hash2: Bytes, v2: nat, plaintext: Bytes)
    requires |id| == |id2| == ID_BYTES && |hash| == |hash2| == HASH_BYTES
    requires v < 256 && v2 < 256
    ensures Open(key, Info(id, hash, v), Box(key2, Info(id2, hash2, v2), plaintext)) ==
      if key == key2 && id == id2 && hash == hash2 && v == v2 then Some(plaintext) else None
  {
    InfoInjective(id, hash, v, id2, hash2, v2);
  }
}
