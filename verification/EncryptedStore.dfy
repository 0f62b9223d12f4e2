/** The Store of pkg/store/encrypted, method by method, over the Pebble backend. Each
    method does exactly what the step machine does when the call runs alone. */
module EncryptedStore {
  import Aead
  import opened ByteStrings
  import opened Text
  import opened Storage
  import opened Codec
  import opened KeyHierarchy
  import opened BackendContract
  import opened AliasMap
  import opened Protocol
  import opened SoloCalls
  import opened StoreAnswers
  import opened Unicode
  import opened Pebble
  import opened Ownership

  lemma SealedSurvivesJson(key: Key, nonce: Bytes, plaintext: Bytes, aad: Bytes)
    ensures var r := SealBlob(key, nonce, plaintext, aad); r.Ok? ==> PersistBlob(r.value) == r.value
  {
    AlgorithmSurvivesJson();
  }

  /** The end of Get: decrypt into a buffer, decode out of it, destroy it, validate. */
  method OpenEnvelope(storeID: Bytes, dek: Key, alias: Bytes, blob: Blob) returns (r: Result<RecordRef>)
    ensures r.Ok? ==> fresh(RecordSlices(r.value)) && OpenRecord(storeID, dek, alias, blob) == Ok(RecordValue(r.value))
    ensures r.Err? ==> OpenRecord(storeID, dek, alias, blob) == Err(r.error)
  {
    hide RecordAAD, ValidateRecord, ValidateBlob, DecodeRecord;
    var plaintext := OpenBlob(dek, blob, RecordAAD(storeID, alias));
    if plaintext.Err? {
      return Err(plaintext.error);
    }
    var buffer := NewBytes(plaintext.value);
    var decoded := DecodeAndDestroy(alias, buffer);
    if decoded.Err? {
      return Err(decoded.error);
    }
    var valid := ValidateRecord(RecordValue(decoded.value));
    if valid.Err? {
      return Err(valid.error);
    }
    return decoded;
  }

  /** Wrapping fills in the wrapped key and nothing else. */
  lemma OnlyWrapped(h: Header, kek: Key, dek: Key, nonce: Bytes)
    ensures var w := WrapInto(h, kek, dek, nonce); w.Ok? ==> w.value == h.(wrappedDEK := w.value.wrappedDEK)
  {
    hide HeaderAAD;
  }

  lemma ReferenceFields(r: ReferenceRef)
    ensures ReferenceValue(r) == KEKReference(r.credentialID[..], r.salt[..], r.rpID)
  {
  }

  lemma RecordFields(r: RecordRef)
    ensures RecordValue(r) == Record(r.alias, r.credentialID[..], r.salt[..], r.rpID)
  {
  }

  lemma RevisionOf(h: HeaderRef)
    ensures HeaderValue(h).revision == h.revision
  {
  }

  const ZERO_HEADER: Header := Header(0, 0, [], KEKReference([], [], []), NO_BLOB)

  class Store {
    const backend: PebbleStore
    var header: HeaderRef
    var dek: Option<Key>
    /** Every buffer that callers passed in or were given. */
    ghost var handed: set<object>

    /** No buffer of s.header is in a caller's hands. */
    ghost predicate Valid()
      reads this, backend
    {
      && backend.Valid() && HeaderSlices(header) !! handed && {this, backend} !! HeaderSlices(header) + handed
      && (dek.Some? ==> |dek.value| == Aead.KEY_SIZE)
    }

    /** What a caller can have: the buffers of s.header are never handed out. */
    ghost predicate Foreign(slices: set<object>)
      reads this
    {
      slices !! HeaderSlices(header) + {this, backend}
    }

    ghost function Snapshot(): HandleKey
      reads this`header, this`dek, HeaderSlices(header)
    {
      if dek.None? then NoKey else Held(HeaderValue(header), dek.value)
    }

    lemma SnapshotIs()
      ensures Snapshot() == if dek.None? then NoKey else Held(HeaderValue(header), dek.value)
    {
    }

    /** Handle and backend are as they were. */
    twostate predicate NothingChanged()
      requires old(Valid()) && Valid()
      reads this, backend, HeaderSlices(header)
    {
      Snapshot() == old(Snapshot()) && backend.Contents() == old(backend.Contents())
    }

    /** State and reply are those of the call run alone in the step machine. */
    twostate predicate RanAlone(op: Op, c: Choice, reply: Reply)
      requires old(Valid())
      reads this, backend, HeaderSlices(header)
    {
      && Valid()
      && (Snapshot(), backend.Contents(), reply) == RunAlone(old(Snapshot()), old(backend.Contents()), op, Start, c)
    }

    /** Whatever callers do, between calls, to buffers they passed in or were given: the
        handle and the backend stay as they are, and with them every later result. */
    twostate lemma CallerWritesDoNotShow()
      requires old(Valid()) && unchanged(this) && unchanged(backend)
      requires forall o :: o in old(HeaderSlices(header)) && o !in handed ==> unchanged(o)
      ensures Valid() && Snapshot() == old(Snapshot()) && backend.Contents() == old(backend.Contents())
    {
      hide WellTyped, View;
    }

    constructor (backend: PebbleStore)
      requires backend.Valid()
      ensures this.backend == backend && Valid() && Snapshot() == NoKey && handed == {}
    {
      var zero := NewHeader(ZERO_HEADER);
      this.backend := backend;
      header := zero;
      dek := None;
      handed := {};
    }

    /** snapshot: a clone of the header with the DEK, or neither. */
    method TakeSnapshot() returns (key: HandleKey)
      ensures key == Snapshot()
    {
      if dek.None? {
        return NoKey;
      }
      var copy := CloneHeader(header);
      return Held(HeaderValue(copy), dek.value);
    }

    /** Publishing: s.header becomes a clone, so that nobody else holds its buffers. */
    method Keep(built: HeaderRef, key: Key)
      requires Valid() && {this, backend} !! HeaderSlices(built) && |key| == Aead.KEY_SIZE
      modifies this`header, this`dek
      ensures Valid() && fresh(HeaderSlices(header)) && Snapshot() == Held(HeaderValue(built), key)
      ensures HeaderValue(built) == old(HeaderValue(built))
    {
      hide WellTyped, HeaderValue;
      var copy := CloneHeader(built);
      header := copy;
      dek := Some(key);
    }

    /** The end of Initialize: build the header around the cloned reference, create it,
        publish it. */
    method CreateAndKeep(own: ReferenceRef, first: Header, key: Key) returns (created: Result<()>)
      requires Valid() && Foreign(ReferenceSlices(own)) && |key| == Aead.KEY_SIZE
      requires first == Header(FORMAT_VERSION, 1, first.storeID, ReferenceValue(own), first.wrappedDEK)
      modifies this`header, this`dek, backend
      ensures Valid() && fresh(HeaderSlices(header) - old(HeaderSlices(header)))
      ensures (backend.Contents(), created) == BackendContract.CreateHeader(old(backend.Contents()), first)
      ensures Snapshot() == if created.Ok? then Held(first, key) else old(Snapshot())
    {
      hide WellTyped, View, HeaderValue, ReferenceValue, Snapshot, BackendContract.CreateHeader;
      var built := NewHeader(ZERO_HEADER.(version := FORMAT_VERSION, storeID := first.storeID));
      built := Rewrap(built, 1, own, first.wrappedDEK);
      assert HeaderValue(built) == first && Foreign(HeaderSlices(built));
      created := backend.CreateHeader(HeaderValue(built));
      if created.Ok? {
        assert HeaderValue(built) == first;
        Keep(built, key);
      }
    }

    /** The end of RotateKEK: put the cloned reference and the wrapped key into a clone
        of the current header, swap it in, publish it. */
    method SwapAndKeep(own: ReferenceRef, current: Header, rotated: Header, key: Key) returns (swapped: Result<()>)
      requires Valid() && Foreign(ReferenceSlices(own)) && |key| == Aead.KEY_SIZE
      requires rotated == current.(revision := Increment(current.revision), kek := ReferenceValue(own), wrappedDEK := rotated.wrappedDEK)
      modifies this`header, this`dek, backend
      ensures Valid() && fresh(HeaderSlices(header) - old(HeaderSlices(header)))
      ensures (backend.Contents(), swapped)
           == BackendContract.CompareAndSwapHeader(old(backend.Contents()), current.revision, rotated)
      ensures Snapshot() == if swapped.Ok? then Held(rotated, key) else old(Snapshot())
    {
      hide WellTyped, View, HeaderValue, ReferenceValue, Snapshot, BackendContract.CompareAndSwapHeader;
      var built := NewHeader(current);
      built := Rewrap(built, Increment(current.revision), own, rotated.wrappedDEK);
      assert HeaderValue(built) == rotated && Foreign(HeaderSlices(built));
      swapped := backend.CompareAndSwapHeader(current.revision, HeaderValue(built));
      if swapped.Ok? {
        assert HeaderValue(built) == rotated;
        Keep(built, key);
      }
    }

    /** Initialize from its first look at the backend on. */
    method Create(own: ReferenceRef, kek: Key, c: Choice) returns (reply: Reply)
      requires Valid() && Foreign(ReferenceSlices(own)) && ValidChoice(c)
      modifies this`header, this`dek, backend
      ensures Valid() && fresh(HeaderSlices(header) - old(HeaderSlices(header)))
      ensures (Snapshot(), backend.Contents(), reply)
           == Creation(old(Snapshot()), old(backend.Contents()), ReferenceValue(own), kek, c)
    {
      hide WellTyped, View, WrapInto, ListEnvelopes, HeaderValue, ReferenceValue, Snapshot;
      hide BackendContract.LoadHeader, BackendContract.CreateHeader;
      var loaded := backend.LoadHeader();
      if loaded.Ok? {
        return Failure(Exists);
      }
      var aliases := backend.ListEnvelopes();
      if |aliases| != 0 {
        return Failure(Conflict);
      }
      var first := Header(FORMAT_VERSION, 1, c.storeID, ReferenceValue(own), NO_BLOB);
      var wrapped := WrapInto(first, kek, c.dek, c.nonce);
      if wrapped.Err? {
        return Refuse(wrapped);
      }
      OnlyWrapped(first, kek, c.dek, c.nonce);
      var created := CreateAndKeep(own, wrapped.value, c.dek);
      return Refuse(created);
    }

    method Initialize(ref: ReferenceRef, kek: Key, c: Choice) returns (reply: Reply)
      requires Valid() && Foreign(ReferenceSlices(ref)) && ValidChoice(c)
      modifies this, backend
      ensures handed == old(handed) + ReferenceSlices(ref)
      ensures RanAlone(Op.Initialize(old(ReferenceValue(ref)), kek), c, reply)
      ensures Blank(ref.rpID) ==> reply == Failure(InvalidRecord)
      ensures reply != Success ==> NothingChanged()
      ensures reply == Success ==>
        && Snapshot().Held? && Snapshot().dek == c.dek && Snapshot().header.revision == 1
        && Snapshot().header.kek.credentialID == old(ref.credentialID[..])
        && Snapshot().header.kek.salt == old(ref.salt[..])
        && Snapshot().header.kek.rpID == TrimSpace(ref.rpID)
        && StoresHeader(old(backend.Contents()), backend.Contents(), Snapshot().header)
    {
      hide StoresHeader, UsableReference, CarriesKey, Blank, TrimSpace;
      hide WellTyped, View, ValidateKEKReference, NormalizeReference, RunAlone, Creation;
      hide HeaderValue, ReferenceValue, Snapshot, StartStep, ValidateKey;
      ReferenceFields(ref);
      BlankIsUnusable(ReferenceValue(ref));
      InitializeResult(Snapshot(), backend.Contents(), ReferenceValue(ref), kek, c);
      InitializeAnswer(Snapshot(), backend.Contents(), ReferenceValue(ref), kek, c);
      var own := CloneTrimmed(ref);
      handed := handed + ReferenceSlices(ref);
      var valid := ValidateKEKReference(ReferenceValue(own));
      if valid.Err? {
        return Refuse(valid);
      }
      var validKey := ValidateKey(kek);
      if validKey.Err? {
        return Refuse(validKey);
      }
      reply := Create(own, kek, c);
    }

    method Unlock(kek: Key, c: Choice) returns (reply: Reply)
      requires Valid()
      modifies this
      ensures handed == old(handed) && RanAlone(Op.Unlock(kek), c, reply)
      ensures reply != Success ==> NothingChanged()
      ensures reply == Success ==>
        && Snapshot().Held? && Some(Snapshot().header) == backend.Contents().header
        && CarriesKey(Snapshot().header, kek, Snapshot().dek)
    {
      hide WellTyped, View, HeaderAAD, ValidateHeader, HeaderValue, Snapshot, HeaderError, RunAlone, CarriesKey;
      UnlockAnswer(Snapshot(), backend.Contents(), kek, c);
      UnlockResult(Snapshot(), backend.Contents(), kek, c);
      var validKey := ValidateKey(kek);
      if validKey.Err? {
        return Refuse(validKey);
      }
      var loaded := backend.LoadHeader();
      if loaded.Err? {
        return Refuse(loaded);
      }
      var unwrapped := UnwrapHeader(loaded.value, kek);
      if unwrapped.Err? {
        return Refuse(unwrapped);
      }
      var decoded := NewHeader(loaded.value);
      Keep(decoded, unwrapped.value);
      return Success;
    }

    method Lock(c: Choice) returns (reply: Reply)
      requires Valid()
      modifies this
      ensures handed == old(handed) && RanAlone(Op.Lock, c, reply)
      ensures reply == Success && Snapshot() == NoKey && backend.Contents() == old(backend.Contents())
    {
      hide WellTyped, View;
      FirstStep(Snapshot(), backend.Contents(), Op.Lock, c);
      var zero := NewHeader(ZERO_HEADER);
      header := zero;
      dek := None;
      return Success;
    }

    /** RotateKEK from where it takes the mutex. */
    method RotateLocked(own: ReferenceRef, nextKEK: Key, c: Choice) returns (reply: Reply)
      requires Valid() && Foreign(ReferenceSlices(own))
      modifies this`header, this`dek, backend
      ensures Valid() && fresh(HeaderSlices(header) - old(HeaderSlices(header)))
      ensures (Snapshot(), backend.Contents(), reply)
           == LockedRotation(old(Snapshot()), old(backend.Contents()), ReferenceValue(own), nextKEK, c)
    {
      hide WellTyped, View, WrapInto, ValidateHeader, Increment;
      hide BackendContract.LoadHeader, BackendContract.CompareAndSwapHeader, HeaderValue, ReferenceValue, Snapshot;
      SnapshotIs();
      if dek.None? {
        return Failure(Locked);
      }
      var loaded := backend.LoadHeader();
      if loaded.Err? {
        return Refuse(loaded);
      }
      var current := loaded.value;
      var validHeader := ValidateHeader(current);
      if validHeader.Err? {
        return Refuse(validHeader);
      }
      RevisionOf(header);
      if current.revision != header.revision {
        return Failure(Conflict);
      }
      var next := current.(revision := Increment(current.revision), kek := ReferenceValue(own));
      var wrapped := WrapInto(next, nextKEK, dek.value, c.nonce);
      if wrapped.Err? {
        return Refuse(wrapped);
      }
      OnlyWrapped(next, nextKEK, dek.value, c.nonce);
      var swapped := SwapAndKeep(own, current, wrapped.value, dek.value);
      return Refuse(swapped);
    }

    method RotateKEK(next: ReferenceRef, nextKEK: Key, c: Choice) returns (reply: Reply)
      requires Valid() && Foreign(ReferenceSlices(next)) && ValidChoice(c)
      modifies this, backend
      ensures handed == old(handed) + ReferenceSlices(next)
      ensures RanAlone(Op.RotateKEK(old(ReferenceValue(next)), nextKEK), c, reply)
      ensures Blank(next.rpID) ==> reply == Failure(InvalidRecord)
      ensures reply != Success ==> NothingChanged()
      ensures reply == Success ==>
        && Snapshot().Held? && old(Snapshot()).Held? && Snapshot().dek == old(Snapshot()).dek
        && Snapshot().header.revision == (old(Snapshot()).header.revision + 1) % 0x1_0000_0000_0000_0000
        && Snapshot().header.kek.credentialID == old(next.credentialID[..])
        && Snapshot().header.kek.salt == old(next.salt[..])
        && Snapshot().header.kek.rpID == TrimSpace(next.rpID)
        && StoresHeader(old(backend.Contents()), backend.Contents(), Snapshot().header)
    {
      hide StoresHeader, UsableReference, CarriesKey, HeaderError, Blank, TrimSpace;
      hide WellTyped, View, ValidateKEKReference, NormalizeReference, RunAlone, LockedRotation;
      hide HeaderValue, ReferenceValue, Snapshot, StartStep, ValidateKey;
      assert Snapshot().Held? ==> |Snapshot().dek| == Aead.KEY_SIZE by { SnapshotIs(); }
      ReferenceFields(next);
      BlankIsUnusable(ReferenceValue(next));
      RotateResult(Snapshot(), backend.Contents(), ReferenceValue(next), nextKEK, c);
      RotateAnswer(Snapshot(), backend.Contents(), ReferenceValue(next), nextKEK, c);
      var own := CloneTrimmed(next);
      handed := handed + ReferenceSlices(next);
      var valid := ValidateKEKReference(ReferenceValue(own));
      if valid.Err? {
        return Refuse(valid);
      }
      var validKey := ValidateKey(nextKEK);
      if validKey.Err? {
        return Refuse(validKey);
      }
      reply := RotateLocked(own, nextKEK, c);
    }

    /** A loaded header for a caller: a clone of what the backend's decoding allocated. */
    method HandOut(loaded: Header) returns (copy: HeaderRef)
      requires Valid()
      modifies this`handed
      ensures Valid() && handed == old(handed) + HeaderSlices(copy)
      ensures fresh(HeaderSlices(copy)) && HeaderValue(copy) == loaded
    {
      hide WellTyped, View, HeaderValue;
      var decoded := NewHeader(loaded);
      copy := CloneHeader(decoded);
      handed := handed + HeaderSlices(copy);
    }

    /** The header comes in buffers of its own. */
    method ReadHeader(c: Choice) returns (reply: Reply, h: Option<HeaderRef>)
      requires Valid()
      modifies this`handed
      ensures RanAlone(Op.ReadHeader, c, reply)
      ensures reply.HeaderIs? ==> h.Some? && fresh(HeaderSlices(h.value)) && HeaderValue(h.value) == reply.header
      ensures reply.HeaderIs? ==> backend.Contents().header == Some(reply.header)
      ensures backend.Contents().header.None? ==> reply == Failure(NotInitialized)
      ensures handed == old(handed) + if h.Some? then HeaderSlices(h.value) else {}
    {
      hide WellTyped, View, ValidateHeader, HeaderValue, Snapshot, HeaderError, RunAlone;
      HeaderAnswer(Snapshot(), backend.Contents(), c);
      HeaderResult(Snapshot(), backend.Contents(), c);
      var loaded := backend.LoadHeader();
      if loaded.Err? {
        return Refuse(loaded), None;
      }
      var valid := ValidateHeader(loaded.value);
      if valid.Err? {
        return Refuse(valid), None;
      }
      var copy := HandOut(loaded.value);
      return HeaderIs(loaded.value), Some(copy);
    }

    method Put(raw: RecordRef, c: Choice) returns (reply: Reply)
      requires Valid() && Foreign(RecordSlices(raw)) && ValidChoice(c)
      modifies this`handed, backend
      ensures handed == old(handed) + RecordSlices(raw)
      ensures RanAlone(Op.Put(old(RecordValue(raw))), c, reply)
      ensures Blank(raw.rpID) && !Blank(raw.alias) ==> reply == Failure(InvalidRecord)
      ensures Snapshot() == old(Snapshot()) && (reply != Success ==> NothingChanged())
      ensures reply == Success ==>
        var a, envelopes := TrimSpace(raw.alias), backend.Contents().envelopes;
        && a !in old(backend.Contents().envelopes) && a in envelopes && Snapshot().Held?
        && backend.Contents() == old(backend.Contents()).(envelopes := old(backend.Contents().envelopes)[a := envelopes[a]])
        && CarriesRecord(envelopes[a], Snapshot().header.storeID, Snapshot().dek,
                         Record(a, old(raw.credentialID[..]), old(raw.salt[..]), TrimSpace(raw.rpID)))
    {
      hide UsableRecord, BlobError, CarriesRecord, Blank, TrimSpace;
      hide WellTyped, View, RecordAAD, ValidateRecord, PersistBlob, Normalize, EncodeRecord, SealBlob;
      hide RunAlone, StartStep, BackendContract.PutEnvelope, RecordValue, HeaderValue, Snapshot;
      SnapshotIs();
      RecordFields(raw);
      BlankRecordIsUnusable(RecordValue(raw));
      PutResult(Snapshot(), backend.Contents(), RecordValue(raw), c);
      PutAnswer(Snapshot(), backend.Contents(), RecordValue(raw), c);
      handed := handed + RecordSlices(raw);
      var rec := Normalize(RecordValue(raw));
      var valid := ValidateRecord(rec);
      if valid.Err? {
        return Refuse(valid);
      }
      var snapshot := TakeSnapshot();
      if snapshot.NoKey? {
        return Failure(Locked);
      }
      var encoded := EncodeRecord(rec);
      if encoded.Err? {
        return Refuse(encoded);
      }
      var sealed := SealBlob(snapshot.dek, c.nonce, encoded.value, RecordAAD(snapshot.header.storeID, rec.alias));
      if sealed.Err? {
        return Refuse(sealed);
      }
      SealedSurvivesJson(snapshot.dek, c.nonce, encoded.value, RecordAAD(snapshot.header.storeID, rec.alias));
      var put := backend.PutEnvelope(rec.alias, sealed.value);
      return Refuse(put);
    }

    /** The record comes in buffers of its own, out of a plaintext that is destroyed. */
    method Get(raw: Bytes, c: Choice) returns (reply: Reply, rec: Option<RecordRef>)
      requires Valid()
      modifies this`handed
      ensures RanAlone(Op.Get(raw), c, reply)
      ensures Snapshot() == old(Snapshot())
      ensures reply.Found? ==>
        && rec.Some? && fresh(RecordSlices(rec.value))
        && rec.value.alias == reply.rec.alias && rec.value.credentialID[..] == reply.rec.credentialID
        && rec.value.salt[..] == reply.rec.salt && rec.value.rpID == reply.rec.rpID
      ensures !Blank(raw) && Snapshot().NoKey? ==> reply == Failure(Locked)
      ensures !Blank(raw) && Snapshot().Held? && TrimSpace(raw) !in backend.Contents().envelopes ==>
        reply == Failure(NotFound)
      ensures handed == old(handed) + if rec.Some? then RecordSlices(rec.value) else {}
    {
      hide WellTyped, View, TrimSpace, OpenRecord, HeaderValue, Snapshot, RunAlone, StartStep, BackendContract.GetEnvelope;
      hide Blank, CarriesRecord, BlobError, ValidateRecord;
      SnapshotIs();
      GetResult(Snapshot(), backend.Contents(), raw, c);
      GetAnswer(Snapshot(), backend.Contents(), raw, c);
      rec := None;
      var alias := TrimSpace(raw);
      var valid := ValidateAlias(alias);
      if valid.Err? {
        return Refuse(valid), None;
      }
      var snapshot := TakeSnapshot();
      if snapshot.NoKey? {
        return Failure(Locked), None;
      }
      var blob := backend.GetEnvelope(alias);
      if blob.Err? {
        return Refuse(blob), None;
      }
      var found := OpenEnvelope(snapshot.header.storeID, snapshot.dek, alias, blob.value);
      if found.Err? {
        return Refuse(found), None;
      }
      handed := handed + RecordSlices(found.value);
      RecordFields(found.value);
      return Found(RecordValue(found.value)), Some(found.value);
    }

    method Delete(raw: Bytes, c: Choice) returns (reply: Reply)
      requires Valid()
      modifies backend
      ensures RanAlone(Op.Delete(raw), c, reply)
      ensures Snapshot() == old(Snapshot()) && (reply != Success ==> NothingChanged())
      ensures reply == Success ==>
        && TrimSpace(raw) in old(backend.Contents()).envelopes && Snapshot().Held?
        && backend.Contents() == old(backend.Contents()).(envelopes := old(backend.Contents()).envelopes - {TrimSpace(raw)})
    {
      hide WellTyped, View, TrimSpace, Blank, RunAlone, BackendContract.DeleteEnvelope;
      DeleteResult(Snapshot(), backend.Contents(), raw, c);
      DeleteAnswer(Snapshot(), backend.Contents(), raw, c);
      var alias := TrimSpace(raw);
      var valid := ValidateAlias(alias);
      if valid.Err? {
        return Refuse(valid);
      }
      if dek.None? {
        return Failure(Locked);
      }
      var deleted := backend.DeleteEnvelope(alias);
      return Refuse(deleted);
    }

    /** Aliases are public: this works while locked. */
    method Has(raw: Bytes, c: Choice) returns (reply: Reply)
      requires Valid()
      ensures RanAlone(Op.Has(raw), c, reply)
      ensures reply == if Blank(raw) then Failure(InvalidAlias) else Present(TrimSpace(raw) in backend.Contents().envelopes)
    {
      hide WellTyped, View, TrimSpace, Blank;
      HasAnswer(Snapshot(), backend.Contents(), raw, c);
      FirstStep(Snapshot(), backend.Contents(), Op.Has(raw), c);
      var alias := TrimSpace(raw);
      var valid := ValidateAlias(alias);
      if valid.Err? {
        return Refuse(valid);
      }
      var present := backend.HasEnvelope(alias);
      return if present.Ok? then Present(present.value) else Refuse(present);
    }

    method List(c: Choice) returns (reply: Reply)
      requires Valid()
      ensures RanAlone(Op.List, c, reply)
      ensures reply.Aliases? && forall a :: a in reply.aliases <==> a in backend.Contents().envelopes
      ensures forall i, j :: 0 <= i < j < |reply.aliases| ==> LexLess(reply.aliases[i], reply.aliases[j])
    {
      hide WellTyped, View, LexLess, Ascending;
      ListAnswer(Snapshot(), backend.Contents(), c);
      FirstStep(Snapshot(), backend.Contents(), Op.List, c);
      var aliases := backend.ListEnvelopes();
      return Aliases(aliases);
    }
  }
}
