/**
 * The broker as src/broker.js writes it: record objects whose fields change in
 * place, two indexes and one counter. Each method is proved equal to the value
 * function of BrokerCore that the interleaving results are about.
 */
module Broker {
  import opened Basics
  import opened HpkeInfo
  import opened BrokerCore
  import opened BrokerInvariants

  class Record {
    /** Its place among all records ever minted. */
    ghost const id: nat
    const handoffId: Bytes
    const capHash: Bytes
    const mintedKind: Kind
    const expiresAt: int
    var payloadKind: Kind
    var reservedBytes: nat
    var submitLease: Option<nat>
    var bodySlotBusy: bool
    var transfer: Option<Lease>
    var transferAttempts: nat
    var state: Phase
    var aeadFailures: nat
    var containerFailures: nat
    var envelopeKey: Option<EnvelopeKey>
    var plaintext: Option<Bytes>
    var key: Option<Key>
    var inFlight: Option<InFlight>

    function View(): Rec
      reads this
    {
      Rec(handoffId, capHash, mintedKind, payloadKind, reservedBytes, submitLease, bodySlotBusy, transfer, transferAttempts,
          state, expiresAt, aeadFailures, containerFailures, envelopeKey, plaintext, key, inFlight)
    }

    constructor (ghost id: nat, handoffId: Bytes, capHash: Bytes, kind: Kind, reservedBytes: nat, expiresAt: int, key: Key)
      ensures this.id == id && View() == Minted(handoffId, capHash, kind, reservedBytes, expiresAt, key)
    {
      this.id, this.handoffId, this.capHash, this.mintedKind, this.expiresAt := id, handoffId, capHash, kind, expiresAt;
      this.payloadKind, this.reservedBytes, this.submitLease, this.bodySlotBusy := kind, reservedBytes, None, false;
      this.transfer, this.transferAttempts, this.state := None, 0, Pending;
      this.aeadFailures, this.containerFailures, this.envelopeKey := 0, 0, None;
      this.plaintext, this.key, this.inFlight := None, Some(key), None;
    }
  }

  class Broker {
    const cfg: Config
    var reservedFileBytes: int
    var byHandoffId: map<Bytes, Record>
    var byCapabilityHash: map<Bytes, Record>
    /** Every record ever minted; suspended calls may still hold one that no index names. */
    ghost var minted: seq<Record>
    ghost var recs: seq<Rec>
    /** Which record every id and every capability hash was drawn for. */
    ghost var ids: map<Bytes, nat>
    ghost var hashes: map<Bytes, nat>

    ghost function Model(): Core
      reads this
    {
      Core(reservedFileBytes, recs)
    }

    /** A minted record: its abstract value, its two distinct names, and both index entries exactly until it is destroyed. */
    ghost predicate Kept(i: nat)
      requires i < |minted|
      reads this, minted
    {
      var r := minted[i];
      && r.id == i && i < |recs| && recs[i] == r.View()
      && r.handoffId in ids && ids[r.handoffId] == i
      && r.capHash in hashes && hashes[r.capHash] == i
      && (r.state != Destroyed ==> r.handoffId in byHandoffId && byHandoffId[r.handoffId] == r)
      && (r.state != Destroyed ==> r.capHash in byCapabilityHash && byCapabilityHash[r.capHash] == r)
    }

    ghost predicate Valid()
      reads this, minted
    {
      && |recs| == |minted|
      && (forall i :: 0 <= i < |minted| ==> Kept(i))
      && (forall h :: h in ids ==> ids[h] < |minted| && minted[ids[h]].handoffId == h)
      && (forall h :: h in hashes ==> hashes[h] < |minted| && minted[hashes[h]].capHash == h)
      && (forall h :: h in byHandoffId ==> byHandoffId[h] in minted && byHandoffId[h].handoffId == h && byHandoffId[h].state != Destroyed)
      && (forall h :: h in byCapabilityHash ==> byCapabilityHash[h] in minted && byCapabilityHash[h].capHash == h && byCapabilityHash[h].state != Destroyed)
    }

    ghost predicate Owns(r: Record)
      reads this, minted
    {
      Valid() && r.id < |minted| && minted[r.id] == r
    }

    /** Only `r` moved, its value was noted, and the indexes lost it exactly if it is destroyed. */
    twostate predicate OnlyMoved(r: Record)
      requires old(Owns(r))
      reads this, minted, r
    {
      && minted == old(minted) && ids == old(ids) && hashes == old(hashes)
      && recs == old(recs)[r.id := r.View()]
      && (forall o :: o in old(minted) && o != r ==> unchanged(o))
      && (old(r.state) == Destroyed ==> r.state == Destroyed)
      && (r.state != Destroyed ==> byHandoffId == old(byHandoffId) && byCapabilityHash == old(byCapabilityHash))
      && (r.state == Destroyed ==>
            || (old(r.state) == Destroyed && byHandoffId == old(byHandoffId) && byCapabilityHash == old(byCapabilityHash))
            || (byHandoffId == old(byHandoffId) - {r.handoffId} && byCapabilityHash == old(byCapabilityHash) - {r.capHash}))
    }

    lemma ModelAt(r: Record)
      requires Owns(r)
      ensures r.id < |Model().recs| && Model().recs[r.id] == r.View()
    {
      assert Kept(r.id);
    }

    twostate lemma StillOwns(r: Record)
      requires old(Owns(r)) && OnlyMoved(r)
      ensures Owns(r)
    {
      forall i | 0 <= i < |minted|
        ensures Kept(i)
      {
        assert old(Kept(i));
        if i != r.id {
          assert minted[i] in minted && minted[i].id == i;
          assert old(Kept(r.id));
        }
      }
      assert Kept(r.id);
    }

    constructor (cfg: Config)
      ensures Valid() && Model() == Core(0, []) && this.cfg == cfg
    {
      this.cfg := cfg;
      reservedFileBytes, byHandoffId, byCapabilityHash := 0, map[], map[];
      minted, recs, ids, hashes := [], [], map[], map[];
    }

    // ------------------------------------------------------------- reservations

    method ReserveFileBytes(bytes: nat) returns (ok: bool)
      modifies this`reservedFileBytes
      ensures ok == Fits(cfg, old(Model()), bytes)
      ensures reservedFileBytes == old(reservedFileBytes) + if ok then bytes else 0
    {
      if reservedFileBytes + bytes > cfg.maxLiveFileBytes {
        return false;
      }
      reservedFileBytes := reservedFileBytes + bytes;
      return true;
    }

    method ReleaseReservation(r: Record)
      requires Owns(r)
      modifies this`reservedFileBytes, this`recs, r
      ensures Owns(r) && Model() == BrokerCore.ReleaseReservation(old(Model()), r.id)
    {
      hide Valid, Kept;
      ModelAt(r);
      if r.reservedBytes != 0 {
        reservedFileBytes := reservedFileBytes - r.reservedBytes;
        r.reservedBytes := 0;
      }
      recs := recs[r.id := r.View()];
      StillOwns(r);
    }

    /** The `release` closure of a granted slot. */
    method Release(r: Record, lease: Option<nat>)
      requires Owns(r)
      modifies this`reservedFileBytes, this`recs, r
      ensures Owns(r) && Model() == ReleaseSlot(old(Model()), r.id, lease)
    {
      hide Valid, Kept;
      ModelAt(r);
      r.bodySlotBusy := false;
      if lease.Some? && r.submitLease == lease {
        r.submitLease := None;
        recs := recs[r.id := r.View()];
        StillOwns(r);
        ReleaseReservation(r);
      } else {
        recs := recs[r.id := r.View()];
        StillOwns(r);
      }
    }

    // ------------------------------------------------------------------ endings

    method ClearLease(r: Record)
      requires Owns(r)
      modifies this`recs, r
      ensures Owns(r) && Model() == BrokerCore.ClearLease(old(Model()), r.id)
    {
      hide Valid, Kept;
      ModelAt(r);
      if r.transfer.Some? {
        r.transfer := None;
        if r.state == Transferring {
          r.state := Submitted;
        }
      }
      recs := recs[r.id := r.View()];
      StillOwns(r);
    }

    /** The middle of `retire` and `destroy`: payload and key go, and a destroyed record leaves both indexes. */
    method Wipe(r: Record, state: Phase)
      requires Owns(r) && (state == Destroyed || (state == Claimed && r.state != Destroyed))
      modifies this`byHandoffId, this`byCapabilityHash, this`recs, r
      ensures Owns(r) && Model() == Put(old(Model()), r.id, old(r.View()).(plaintext := None, key := None, state := state))
    {
      hide Valid, Kept;
      ModelAt(r);
      r.plaintext := None;
      r.key := None;
      r.state := state;
      recs := recs[r.id := r.View()];
      if state == Destroyed {
        byCapabilityHash := byCapabilityHash - {r.capHash};
        byHandoffId := byHandoffId - {r.handoffId};
      }
      StillOwns(r);
    }

    method Retire(r: Record)
      requires Owns(r) && r.state != Destroyed
      modifies this`reservedFileBytes, this`byHandoffId, this`byCapabilityHash, this`recs, r
      ensures Owns(r) && Model() == BrokerCore.Retire(old(Model()), r.id)
    {
      ModelAt(r);
      ClearLease(r);
      hide Valid, Kept;
      ModelAt(r);
      Wipe(r, Claimed);
      ReleaseReservation(r);
    }

    /** Safe to call twice: a record that is already gone stays exactly as it is. */
    method Destroy(r: Record)
      requires Owns(r)
      modifies this`reservedFileBytes, this`byHandoffId, this`byCapabilityHash, this`recs, r
      ensures Owns(r) && Model() == BrokerCore.Destroy(old(Model()), r.id)
    {
      ModelAt(r);
      ClearLease(r);
      hide Valid, Kept;
      ModelAt(r);
      Wipe(r, Destroyed);
      ghost var dead := old(ClearedLease(r.View())).(plaintext := None, key := None, state := Destroyed);
      assert Model() == Put(old(Model()), r.id, dead) by {
        assert old(recs)[r.id := old(ClearedLease(r.View()))][r.id := dead] == old(recs)[r.id := dead];
      }
      ReleaseReservation(r);
      ModelAt(r);
      DropSubmitLease(r);
    }

    method DropSubmitLease(r: Record)
      requires Owns(r)
      modifies this`recs, r
      ensures Owns(r) && Model() == Put(old(Model()), r.id, old(r.View()).(submitLease := None))
    {
      hide Valid, Kept;
      ModelAt(r);
      r.submitLease := None;
      recs := recs[r.id := r.View()];
      StillOwns(r);
    }

    lemma Indexed(r: Record)
      requires Valid() && r in minted
      ensures Owns(r) && r.handoffId in ids && ids[r.handoffId] == r.id && r.capHash in hashes && hashes[r.capHash] == r.id
    {
      var i :| 0 <= i < |minted| && minted[i] == r;
      assert Kept(i);
    }

    /** What is drawn and not found is destroyed. */
    lemma GoneById(handoffId: Bytes)
      requires Valid()
      ensures handoffId in ids ==> ids[handoffId] < |recs| && ids[handoffId] < |minted| && recs[ids[handoffId]].state == minted[ids[handoffId]].state
    {
      assert handoffId in ids ==> Kept(ids[handoffId]);
    }

    lemma GoneByCapability(capHash: Bytes)
      requires Valid()
      ensures capHash in hashes ==> hashes[capHash] < |recs| && hashes[capHash] < |minted| && recs[hashes[capHash]].state == minted[hashes[capHash]].state
    {
      assert capHash in hashes ==> Kept(hashes[capHash]);
    }

    /** An index lookup followed by `live`: a record past its deadline is destroyed and not returned. */
    method FindById(handoffId: Bytes, now: int) returns (r: Record?)
      requires Valid()
      modifies this, minted
      ensures Valid() && minted == old(minted) && ids == old(ids) && hashes == old(hashes)
      ensures handoffId in ids ==> Model() == Touch(old(Model()), ids[handoffId], now)
      ensures handoffId !in ids ==> Model() == old(Model())
      ensures r != null <==> handoffId in ids && minted[ids[handoffId]].state != Destroyed
      ensures r != null ==> Owns(r) && r.id == ids[handoffId]
    {
      if handoffId !in byHandoffId {
        assert handoffId in ids ==> Kept(ids[handoffId]);
        return null;
      }
      r := byHandoffId[handoffId];
      Indexed(r);
      r := Live(r, now);
    }

    method FindByCapability(capHash: Bytes, now: int) returns (r: Record?)
      requires Valid()
      modifies this, minted
      ensures Valid() && minted == old(minted) && ids == old(ids) && hashes == old(hashes)
      ensures capHash in hashes ==> Model() == Touch(old(Model()), hashes[capHash], now)
      ensures capHash !in hashes ==> Model() == old(Model())
      ensures r != null <==> capHash in hashes && minted[hashes[capHash]].state != Destroyed
      ensures r != null ==> Owns(r) && r.id == hashes[capHash]
    {
      if capHash !in byCapabilityHash {
        assert capHash in hashes ==> Kept(hashes[capHash]);
        return null;
      }
      r := byCapabilityHash[capHash];
      Indexed(r);
      r := Live(r, now);
    }

    method Live(r: Record, now: int) returns (alive: Record?)
      requires Owns(r) && r.state != Destroyed
      modifies this`reservedFileBytes, this`byHandoffId, this`byCapabilityHash, this`recs, r
      ensures Owns(r) && Model() == Touch(old(Model()), r.id, now)
      ensures alive == if r.state == Destroyed then null else r
    {
      ModelAt(r);
      if now >= r.expiresAt {
        Destroy(r);
        ModelAt(r);
        return null;
      }
      return r;
    }

    // -------------------------------------------------------------- the text claim

    /** `claim`: a handoff id nobody drew is answered exactly as one that is gone. */
    method Claim(handoffId: Bytes, capacity: Option<nat>, now: int) returns (a: Answer)
      requires Valid()
      modifies this, minted
      ensures Valid() && minted == old(minted) && ids == old(ids) && hashes == old(hashes)
      ensures handoffId in ids ==> (Model(), a) == BrokerCore.Claim(old(Model()), ids[handoffId], capacity, now)
      ensures handoffId !in ids ==> Model() == old(Model()) && a == Unavailable
    {
      hide Valid, Kept, BrokerCore.Destroy;
      var r := FindById(handoffId, now);
      GoneById(handoffId);
      if r == null {
        return Unavailable;
      }
      ModelAt(r);
      if r.state != Submitted || r.plaintext.None? || r.payloadKind == Files {
        return Unavailable;
      }
      if capacity.Some? && |r.plaintext.value| > capacity.value {
        return ResponseTooLarge(|r.plaintext.value|);
      }
      label found:
      var plaintext := r.plaintext.value;
      r.plaintext := None;
      recs := recs[r.id := r.View()];
      StillOwns@found(r);
      Retire(r);
      return Delivered(plaintext);
    }

    // -------------------------------------------------------------------- minting

    /** The synchronous start of `create`: a `files` drop takes its reservation before the first await. */
    method CreateBegin(kind: Kind) returns (bytes: Option<nat>)
      modifies this`reservedFileBytes
      ensures bytes.None? ==> kind == Files && !Fits(cfg, old(Model()), Ceiling(cfg)) && reservedFileBytes == old(reservedFileBytes)
      ensures bytes.Some? ==> bytes.value == if kind == Files then Ceiling(cfg) else 0
      ensures bytes.Some? ==> reservedFileBytes == old(reservedFileBytes) + bytes.value
      ensures bytes.Some? && kind == Files ==> Fits(cfg, old(Model()), Ceiling(cfg))
    {
      if kind != Files {
        return Some(0);
      }
      var ok := ReserveFileBytes(Ceiling(cfg));
      return if ok then Some(Ceiling(cfg)) else None;
    }

    /** The rest of `create`, once the key pair exists: the record enters both indexes. */
    method CreateFinish(handoffId: Bytes, capHash: Bytes, kind: Kind, bytes: nat, expiresAt: int, key: Key) returns (r: Record)
      requires Valid() && handoffId !in ids && capHash !in hashes
      modifies this
      ensures Valid() && fresh(r) && minted == old(minted) + [r] && r.id == |old(minted)|
      ensures Model() == old(Model()).(recs := old(recs) + [Minted(handoffId, capHash, kind, bytes, expiresAt, key)])
      ensures ids == old(ids)[handoffId := r.id] && hashes == old(hashes)[capHash := r.id]
    {
      hide Kept;
      r := new Record(|minted|, handoffId, capHash, kind, bytes, expiresAt, key);
      byCapabilityHash := byCapabilityHash[capHash := r];
      byHandoffId := byHandoffId[handoffId := r];
      minted, recs := minted + [r], recs + [r.View()];
      ids, hashes := ids[handoffId := r.id], hashes[capHash := r.id];
      Appended(r);
    }

    twostate lemma Appended(new r: Record)
      requires old(Valid()) && fresh(r) && r.id == |old(minted)| && r.state != Destroyed
      requires r.handoffId !in old(ids) && r.capHash !in old(hashes)
      requires minted == old(minted) + [r] && recs == old(recs) + [r.View()]
      requires ids == old(ids)[r.handoffId := r.id] && hashes == old(hashes)[r.capHash := r.id]
      requires byHandoffId == old(byHandoffId)[r.handoffId := r] && byCapabilityHash == old(byCapabilityHash)[r.capHash := r]
      requires forall o :: o in old(minted) ==> unchanged(o)
      ensures Valid()
    {
      forall i | 0 <= i < |minted|
        ensures Kept(i)
      {
        if i < |old(minted)| {
          assert old(Kept(i));
          assert minted[i] in old(minted);
        }
      }
    }

    /** The `catch` of `create`: key generation failed, and the bytes go back. */
    method CreateFail(bytes: nat)
      modifies this`reservedFileBytes
      ensures reservedFileBytes == old(reservedFileBytes) - bytes
    {
      reservedFileBytes := reservedFileBytes - bytes;
    }

    // ---------------------------------------------------------------- submissions

    /** `takeFileSubmitLease`: only a drop that has no reservation yet borrows one. */
    method TakeFileSubmitLease(r: Record, token: nat) returns (ok: bool, lease: Option<nat>)
      requires Owns(r)
      modifies this`reservedFileBytes, this`recs, r`submitLease, r`reservedBytes
      ensures Owns(r) && (!ok || lease.None? ==> Model() == old(Model()))
      ensures ok == (r.id < |old(recs)| && old(r.submitLease).None? && (old(r.reservedBytes) > 0 || Fits(cfg, old(Model()), Ceiling(cfg))))
      ensures ok ==> lease == if old(r.reservedBytes) > 0 then None else Some(token)
      ensures ok && lease.Some? ==> Model() == Put(old(Model()).(reserved := old(reservedFileBytes) + Ceiling(cfg)), r.id,
                                                   old(r.View()).(submitLease := lease, reservedBytes := Ceiling(cfg)))
    {
      hide Valid, Kept;
      ModelAt(r);
      lease := None;
      if r.submitLease.Some? {
        return false, None;
      }
      if r.reservedBytes > 0 {
        return true, None;
      }
      ok := ReserveFileBytes(Ceiling(cfg));
      if ok {
        lease := Some(token);
        r.submitLease := lease;
        r.reservedBytes := Ceiling(cfg);
        recs := recs[r.id := r.View()];
        StillOwns(r);
      }
    }

    method OccupySlot(r: Record)
      requires Owns(r)
      modifies this`recs, r`bodySlotBusy
      ensures Owns(r) && Model() == Put(old(Model()), r.id, old(r.View()).(bodySlotBusy := true))
    {
      hide Valid, Kept;
      ModelAt(r);
      r.bodySlotBusy := true;
      recs := recs[r.id := r.View()];
      StillOwns(r);
    }

    /** The widened lane of `acquireSubmitSlot`: one body at a time, and only under a reservation. */
    method AdmitFileBody(r: Record, token: nat) returns (g: Grant)
      requires Owns(r)
      modifies this`reservedFileBytes, this`recs, r
      ensures Owns(r) && (Model(), g) == AdmitBody(cfg, old(Model()), r.id, token)
    {
      hide Valid, Kept;
      ModelAt(r);
      if r.bodySlotBusy {
        return Grant(false, true, false, None);
      }
      ghost var found := recs;
      var lease := None;
      if r.state != Submitted {
        var ok;
        ok, lease := TakeFileSubmitLease(r, token);
        if !ok {
          return Grant(false, true, false, None);
        }
      }
      ModelAt(r);
      PutPut(Core(reservedFileBytes, found), r.id, r.View(), r.View().(bodySlotBusy := true));
      OccupySlot(r);
      return Grant(true, true, true, lease);
    }

    /** `acquireSubmitSlot`, from the lookup to the mutation without a gap. */
    method AcquireSubmitSlot(capHash: Bytes, d: Declaration, now: int, token: nat) returns (g: Grant)
      requires Valid()
      modifies this, minted
      ensures Valid() && minted == old(minted) && ids == old(ids) && hashes == old(hashes)
      ensures capHash in hashes ==> (Model(), g) == AcquireSlot(cfg, old(Model()), hashes[capHash], d, now, token)
      ensures capHash !in hashes ==> Model() == old(Model()) && g == Grant(true, false, false, None)
    {
      hide Valid, Kept, BrokerCore.Destroy;
      var r := FindByCapability(capHash, now);
      GoneByCapability(capHash);
      if r == null {
        return Grant(true, false, false, None);
      }
      ModelAt(r);
      if r.state != Pending && !(r.state == Submitted && r.payloadKind == Files && d == DeclaredFiles) {
        return Grant(true, false, false, None);
      }
      var kind := ResolveKind(r.View(), d);
      if kind.None? {
        return Grant(false, false, false, None);
      }
      if kind.value != Files {
        return Grant(true, false, false, None);
      }
      g := AdmitFileBody(r, token);
    }

    /** `submit`, up to the await on its own attempt. */
    method Submit(capHash: Bytes, e: Envelope, d: Declaration, now: int, task: nat) returns (o: SubmitOutcome)
      requires Valid()
      modifies this, minted
      ensures Valid() && minted == old(minted) && ids == old(ids) && hashes == old(hashes)
      ensures capHash in hashes ==> (Model(), o) == SubmitStart(cfg, old(Model()), hashes[capHash], e, d, now, task)
      ensures capHash !in hashes ==> Model() == old(Model()) && o == Answered(Unavailable)
    {
      hide Valid, Kept, BrokerCore.Destroy;
      var r := FindByCapability(capHash, now);
      GoneByCapability(capHash);
      if r == null {
        return Answered(Unavailable);
      }
      ModelAt(r);
      var kind := ResolveKind(r.View(), d);
      if kind.None? {
        return Answered(Unavailable);
      }
      var key := if ShapeValid(cfg, e, kind.value) then Some(EnvelopeKey(e, kind.value)) else None;
      if r.state != Pending {
        return Answered(if key.Some? && r.envelopeKey == key then Receipt(key.value) else Unavailable);
      }
      if key.None? {
        return Answered(Unavailable);
      }
      if r.inFlight.Some? {
        return if r.inFlight.value.key == key.value then Joined(r.inFlight.value.task, key.value) else Answered(Unavailable);
      }
      label found:
      var early := PassesEarlyChecks(cfg, r.View(), e, kind.value);
      r.inFlight := Some(InFlight(key.value, task));
      recs := recs[r.id := r.View()];
      StillOwns@found(r);
      return Accepting(key.value, early);
    }

    method CountAeadFailure(r: Record)
      requires Owns(r)
      modifies this`reservedFileBytes, this`byHandoffId, this`byCapabilityHash, this`recs, r
      ensures Owns(r) && Model() == AeadFailed(cfg, old(Model()), r.id)
    {
      hide Valid, Kept;
      ModelAt(r);
      r.aeadFailures := r.aeadFailures + 1;
      recs := recs[r.id := r.View()];
      StillOwns(r);
      if r.aeadFailures >= cfg.maxAeadFailures {
        Destroy(r);
      }
    }

    method CountContainerFailure(r: Record)
      requires Owns(r)
      modifies this`reservedFileBytes, this`byHandoffId, this`byCapabilityHash, this`recs, r
      ensures Owns(r) && Model() == ContainerFailed(cfg, old(Model()), r.id)
    {
      hide Valid, Kept;
      ModelAt(r);
      r.containerFailures := r.containerFailures + 1;
      recs := recs[r.id := r.View()];
      StillOwns(r);
      if r.containerFailures >= cfg.maxAeadFailures {
        Destroy(r);
      }
    }

    /** A `files` winner makes the reserved bytes its own, reserving late if no upload slot did. */
    method ConvertLease(r: Record) returns (ok: bool)
      requires Owns(r)
      modifies this`reservedFileBytes, this`recs, r`submitLease, r`reservedBytes
      ensures Owns(r) && ok == (old(r.reservedBytes) > 0 || Fits(cfg, old(Model()), Ceiling(cfg)))
      ensures !ok ==> Model() == old(Model()) && r.View() == old(r.View())
      ensures ok && old(r.reservedBytes) > 0 ==> Model() == Put(old(Model()), r.id, old(r.View()).(submitLease := None))
      ensures ok && old(r.reservedBytes) == 0 ==>
        Model() == Put(old(Model()).(reserved := old(reservedFileBytes) + Ceiling(cfg)), r.id, old(r.View()).(submitLease := None, reservedBytes := Ceiling(cfg)))
    {
      hide Valid, Kept;
      ModelAt(r);
      if r.reservedBytes == 0 {
        ok := ReserveFileBytes(Ceiling(cfg));
        if !ok {
          return;
        }
        r.reservedBytes := Ceiling(cfg);
      }
      r.submitLease := None;
      recs := recs[r.id := r.View()];
      StillOwns(r);
      return true;
    }

    /** The choice is made: payload and lane are fixed, and the handoff key is done. */
    method Store(r: Record, key: EnvelopeKey, plaintext: Bytes)
      requires Owns(r) && r.state == Pending
      modifies this`recs, r
      ensures Owns(r)
      ensures Model() == Put(old(Model()), r.id, old(r.View()).(payloadKind := key.kind, plaintext := Some(plaintext),
                                                               envelopeKey := Some(key), state := Submitted, key := None))
    {
      hide Valid, Kept;
      ModelAt(r);
      r.payloadKind := key.kind;
      r.plaintext := Some(plaintext);
      r.envelopeKey := Some(key);
      r.state := Submitted;
      r.key := None;
      recs := recs[r.id := r.View()];
      StillOwns(r);
    }

    /** The single-use gate at the end of `acceptEnvelope`. */
    method SubmitGate(r: Record, key: EnvelopeKey, plaintext: Bytes) returns (a: Answer)
      requires Owns(r)
      modifies this`reservedFileBytes, this`recs, r
      ensures Owns(r) && (Model(), a) == BrokerCore.SubmitGate(cfg, old(Model()), r.id, key, plaintext)
    {
      hide Valid, Kept;
      ModelAt(r);
      if r.state != Pending {
        return Unavailable;
      }
      if key.kind == Files {
        var ok := ConvertLease(r);
        if !ok {
          return Unavailable;
        }
      }
      ModelAt(r);
      PutPut(Core(reservedFileBytes, old(recs)), r.id, r.View(),
             r.View().(payloadKind := key.kind, plaintext := Some(plaintext), envelopeKey := Some(key), state := Submitted, key := None));
      Store(r, key, plaintext);
      return Receipt(key);
    }

    /** The `finally` of `submit`: only the attempt that is still registered is cleared. */
    method Settle(r: Record, task: nat)
      requires Owns(r)
      modifies this`recs, r
      ensures Owns(r) && Model() == SubmitSettle(old(Model()), r.id, task)
    {
      hide Valid, Kept;
      ModelAt(r);
      if r.inFlight.Some? && r.inFlight.value.task == task {
        r.inFlight := None;
        recs := recs[r.id := r.View()];
        StillOwns(r);
      }
    }

    // ------------------------------------------------------------- the file claim

    /** `beginFileClaim`, up to its await; it changes nothing but what an expiry does. */
    method BeginFileClaim(handoffId: Bytes, asked: Option<nat>, now: int) returns (o: BeginOutcome)
      requires Valid()
      modifies this, minted
      ensures Valid() && minted == old(minted) && ids == old(ids) && hashes == old(hashes)
      ensures handoffId in ids ==> (Model(), o) == BeginStart(cfg, old(Model()), ids[handoffId], asked, now)
      ensures handoffId !in ids ==> Model() == old(Model()) && o == BeginRefused(Unavailable)
    {
      hide Valid, Kept, BrokerCore.Destroy;
      var r := FindById(handoffId, now);
      GoneById(handoffId);
      if r == null {
        return BeginRefused(Unavailable);
      }
      ModelAt(r);
      if r.plaintext.None? || r.payloadKind != Files {
        return BeginRefused(Unavailable);
      }
      if r.transfer.Some? || r.state == Transferring {
        return BeginRefused(TransferFailed(TransferInProgress));
      }
      if r.state != Submitted {
        return BeginRefused(Unavailable);
      }
      if r.transferAttempts >= cfg.maxTransferAttempts {
        return BeginRefused(TransferFailed(AttemptBudgetSpent));
      }
      var remaining := r.expiresAt - now;
      if remaining < MIN_TRANSFER_LEASE_MS {
        return BeginRefused(TransferFailed(HandoffExpiring));
      }
      var leaseMs := Min(cfg.fileClaimLeaseMs, remaining);
      if asked.Some? && asked.value > 0 {
        leaseMs := Min(leaseMs, asked.value);
      }
      return ManifestPass(r.plaintext.value, leaseMs);
    }

    /** `beginFileClaim` after the manifest pass, on the record it already held. */
    method GrantLease(r: Record, plaintext: Bytes, leaseMs: int, owner: nat, transferId: nat, now: int) returns (a: Answer)
      requires Owns(r)
      modifies this`recs, r
      ensures Owns(r) && (Model(), a) == BeginFinish(cfg, old(Model()), r.id, plaintext, leaseMs, owner, transferId, now)
    {
      hide Valid, Kept;
      ModelAt(r);
      var parsed := cfg.decode(plaintext);
      if parsed.None? || r.plaintext.None? {
        return Unavailable;
      }
      if r.transfer.Some? || r.state == Transferring {
        return TransferFailed(TransferInProgress);
      }
      if r.state != Submitted {
        return Unavailable;
      }
      var lease := NewLease(cfg, parsed.value, owner, transferId, Min(now + leaseMs, r.expiresAt));
      r.transfer := Some(lease);
      r.state := Transferring;
      r.transferAttempts := r.transferAttempts + 1;
      recs := recs[r.id := r.View()];
      StillOwns(r);
      return Began(lease, Frames(parsed.value));
    }

    /** `ackFileClaimFrame`. */
    method AckFileClaimFrame(handoffId: Bytes, transferId: nat, owner: nat, index: nat, size: nat, digest: Digest, now: int) returns (a: Answer)
      requires Valid()
      modifies this, minted
      ensures Valid() && minted == old(minted) && ids == old(ids) && hashes == old(hashes)
      ensures handoffId in ids ==> (Model(), a) == Ack(old(Model()), ids[handoffId], transferId, owner, index, size, digest, now)
      ensures handoffId !in ids ==> Model() == old(Model()) && a == Unavailable
    {
      hide Valid, Kept, BrokerCore.Destroy;
      var r := FindById(handoffId, now);
      GoneById(handoffId);
      if r == null {
        return Unavailable;
      }
      ModelAt(r);
      if r.plaintext.None? {
        return Unavailable;
      }
      if r.state != Transferring || r.transfer.None? {
        return if r.state == Submitted then TransferFailed(LeaseExpired) else Unavailable;
      }
      var lease := r.transfer.value;
      if lease.transferId != transferId {
        return TransferFailed(TransferIdMismatch);
      }
      if lease.owner != owner {
        return TransferFailed(LeaseNotYours);
      }
      if lease.nextFrame >= |lease.sizes| {
        return InvalidRequest;
      }
      if index != lease.nextFrame {
        ClearLease(r);
        return TransferFailed(FrameOutOfOrder);
      }
      if |lease.digests| <= index || size != lease.sizes[index] || digest != lease.digests[index] {
        ClearLease(r);
        return TransferFailed(FrameMismatch);
      }
      label found:
      lease := lease.(ackedBytes := lease.ackedBytes + size, nextFrame := lease.nextFrame + 1);
      r.transfer := Some(lease);
      recs := recs[r.id := r.View()];
      StillOwns@found(r);
      return FrameAcked(if lease.nextFrame >= |lease.sizes| then None else Some(lease.nextFrame));
    }

    /** `commitFileClaim`. */
    method CommitFileClaim(handoffId: Bytes, transferId: nat, owner: nat, received: nat, digests: seq<Digest>, now: int) returns (a: Answer)
      requires Valid()
      modifies this, minted
      ensures Valid() && minted == old(minted) && ids == old(ids) && hashes == old(hashes)
      ensures handoffId in ids ==> (Model(), a) == Commit(old(Model()), ids[handoffId], transferId, owner, received, digests, now)
      ensures handoffId !in ids ==> Model() == old(Model()) && a == Unavailable
    {
      hide Valid, Kept, BrokerCore.Destroy;
      var r := FindById(handoffId, now);
      GoneById(handoffId);
      if r == null {
        return Unavailable;
      }
      ModelAt(r);
      if r.plaintext.None? {
        return Unavailable;
      }
      if r.state == Submitted && r.transfer.None? {
        return TransferFailed(LeaseExpired);
      }
      if r.state != Transferring || r.transfer.None? {
        return Unavailable;
      }
      var lease := r.transfer.value;
      if lease.transferId != transferId {
        return TransferFailed(TransferIdMismatch);
      }
      if lease.owner != owner {
        return TransferFailed(LeaseNotYours);
      }
      var refusal := CommitRefusal(lease, received, digests);
      ClearLease(r);
      ModelAt(r);
      if refusal.Some? {
        return TransferFailed(refusal.value);
      }
      Retire(r);
      return Committed(if lease.hasPrivateText then |lease.digests| - 1 else |lease.digests|, lease.totalBytes);
    }

    /** `abandonFileClaim`: it cannot end a lease that is not the one named. */
    method AbandonFileClaim(handoffId: Bytes, transferId: nat)
      requires Valid()
      modifies this, minted
      ensures Valid() && minted == old(minted) && ids == old(ids) && hashes == old(hashes)
      ensures handoffId in ids && minted[ids[handoffId]].state != Destroyed ==> Model() == EndLease(old(Model()), ids[handoffId], transferId)
      ensures handoffId !in ids || minted[ids[handoffId]].state == Destroyed ==> Model() == old(Model())
    {
      if handoffId !in byHandoffId {
        assert handoffId in ids ==> Kept(ids[handoffId]);
        return;
      }
      var r := byHandoffId[handoffId];
      Indexed(r);
      ModelAt(r);
      if r.transfer.Some? && r.transfer.value.transferId == transferId {
        ClearLease(r);
      }
      ModelAt(r);
    }

    // --------------------------------------------------------------------- sweeps

    /** Part of a sweep of `was` is done: the records in `todo` are as they were, the others are swept. */
    ghost predicate Swept(todo: set<Record>, was: Core, now: int)
      reads this, minted
    {
      && Valid() && |was.recs| == |minted| && Slack(Model()) == Slack(was)
      && (forall r :: r in todo ==> r in minted && r.state != Destroyed)
      && forall i :: 0 <= i < |minted| ==> recs[i] == if minted[i] in todo then was.recs[i] else SweptRec(was.recs[i], now)
    }

    lemma SweepBegins(now: int)
      requires Valid()
      ensures Swept(byHandoffId.Values, Model(), now)
    {
      forall i | 0 <= i < |minted| && minted[i] !in byHandoffId.Values
        ensures recs[i] == SweptRec(recs[i], now)
      {
        assert Kept(i);
      }
    }

    lemma SweepEnds(was: Core, now: int)
      requires Swept({}, was, now)
      ensures Model() == Sweep(was, now, |was.recs|)
    {
      SweepIsPointwise(was, now, |was.recs|);
      assert recs == Sweep(was, now, |was.recs|).recs;
    }

    method SweepOne(r: Record, now: int, ghost todo: set<Record>, ghost was: Core)
      requires Swept(todo, was, now) && r in todo
      modifies this`reservedFileBytes, this`byHandoffId, this`byCapabilityHash, this`recs, r
      ensures Swept(todo - {r}, was, now)
    {
      Indexed(r);
      ModelAt(r);
      DestroyIsDead(Model(), r.id);
      forall i | 0 <= i < |minted| && minted[i] == r
        ensures i == r.id
      {
        assert Kept(i);
      }
      hide Kept, BrokerCore.Destroy, Slack;
      if now >= r.expiresAt {
        Destroy(r);
        assert Valid();
      }
      hide Valid;
    }

    /** `sweep`: the index is copied first, because `Destroy` shrinks it. */
    method SweepAll(now: int)
      requires Valid()
      modifies this, minted
      ensures Valid() && minted == old(minted) && ids == old(ids) && hashes == old(hashes)
      ensures Model() == Sweep(old(Model()), now, |old(recs)|)
    {
      hide Valid, Kept, Sweep, Slack, SweptRec;
      var todo := byHandoffId.Values;
      SweepBegins(now);
      while todo != {}
        invariant Swept(todo, old(Model()), now)
        invariant minted == old(minted) && ids == old(ids) && hashes == old(hashes)
        decreases |todo|
      {
        var r :| r in todo;
        SweepOne(r, now, todo, old(Model()));
        todo := todo - {r};
      }
      SweepEnds(old(Model()), now);
    }
  }
}
