/** What each call of the encrypted store answers and leaves when nothing runs beside it:
    on its arguments, the handle and the stored header and envelopes alone, from any
    state, tampered with or not. */
module StoreAnswers {
  import opened ByteStrings
  import opened Text
  import opened Aead
  import opened Storage
  import opened Codec
  import opened KeyHierarchy
  import opened BackendContract
  import opened AliasMap
  import opened Protocol
  import opened SoloCalls
  import opened Unicode

  // ---------- What is refused ----------

  ghost predicate UsableReference(ref: KEKReference) {
    ref.credentialID != [] && |ref.salt| == 32 && !Blank(ref.rpID)
  }

  /** What is wrong with a stored blob, before any key is tried on it. */
  function BlobError(b: Blob): Option<Error> {
    if b.version != 1 || b.algorithm != Ascii("xchacha20poly1305-v1") then Some(UnsupportedFormat)
    else if |b.nonce| != 24 || Length(b.ciphertext) < 16 || Length(b.ciphertext) > 4 * 1024 * 1024 then Some(InvalidRecord)
    else None
  }

  /** What is wrong with a stored header, before any key is tried on it. */
  ghost function HeaderError(h: Header): Option<Error> {
    if h.version != 1 then Some(UnsupportedFormat)
    else if h.revision == 0 || |h.storeID| != 16 || !UsableReference(h.kek) then Some(InvalidRecord)
    else BlobError(h.wrappedDEK)
  }

  lemma ReferenceRefused(ref: KEKReference)
    ensures ValidateKEKReference(ref) == if UsableReference(ref) then Ok(()) else Err(InvalidRecord)
    ensures ValidateKEKReference(NormalizeReference(ref)) == if UsableReference(ref) then Ok(()) else Err(InvalidRecord)
  {
    BlankTrims(ref.rpID);
    TrimSpaceIdempotent(ref.rpID);
    hide TrimSpace, Blank;
  }

  lemma BlankIsUnusable(ref: KEKReference)
    ensures Blank(ref.rpID) ==> !UsableReference(ref)
  {
  }

  lemma BlankRecordIsUnusable(raw: Record)
    ensures Blank(raw.rpID) ==> !UsableRecord(raw)
  {
  }

  lemma BlobRefused(b: Blob)
    ensures ValidateBlob(b) == if BlobError(b).Some? then Err(BlobError(b).value) else Ok(())
  {
  }

  lemma HeaderRefused(h: Header)
    ensures ValidateHeader(h) == if HeaderError(h).Some? then Err(HeaderError(h).value) else Ok(())
    ensures HeaderError(h).None? ==> h.version == 1
  {
    hide UsableReference, ValidateKEKReference, ValidateBlob, BlobError;
    ReferenceRefused(h.kek);
    BlobRefused(h.wrappedDEK);
  }

  // ---------- Headers ----------

  /** h carries dek under kek, nonce and its own identity. */
  predicate CarriesKey(h: Header, kek: Key, dek: Key) {
    h.wrappedDEK.ciphertext == Sealed(kek, h.wrappedDEK.nonce, HeaderAAD(h), dek)
  }

  /** b' has h as its header, after JSON, and nothing else new. */
  ghost predicate StoresHeader(b: Backend, b': Backend, h: Header) {
    && b'.envelopes == b.envelopes && b'.header.Some?
    && var s := b'.header.value;
      && s.version == h.version && s.revision == h.revision && s.storeID == h.storeID
      && s.kek.credentialID == h.kek.credentialID && s.kek.salt == h.kek.salt
      && (s.kek.rpID == h.kek.rpID <==> ValidUtf8(h.kek.rpID))
      && s.wrappedDEK == h.wrappedDEK
  }

  /** ref is what a caller passed, with the white space around its RP id removed. */
  predicate IsTrimmed(ref: KEKReference, passed: KEKReference) {
    ref.credentialID == passed.credentialID && ref.salt == passed.salt && ref.rpID == TrimSpace(passed.rpID)
  }

  lemma InitializeAnswer(key: HandleKey, b: Backend, ref: KEKReference, kek: Key, c: Choice)
    requires ValidChoice(c)
    ensures var (key', b', reply) := RunAlone(key, b, Initialize(ref, kek), Start, c);
      && (!UsableReference(ref) ==> reply == Failure(InvalidRecord))
      && (UsableReference(ref) && |kek| != 32 ==> reply == Failure(BadKey))
      && (UsableReference(ref) && |kek| == 32 && b.header.Some? ==> reply == Failure(Exists))
      && (UsableReference(ref) && |kek| == 32 && b.header.None? && b.envelopes != map[] ==> reply == Failure(Conflict))
      && (UsableReference(ref) && |kek| == 32 && b == EMPTY ==> reply == Success)
      && if reply != Success then key' == key && b' == b
         else
           && key'.Held? && key'.dek == c.dek && StoresHeader(b, b', key'.header) && CarriesKey(key'.header, kek, c.dek)
           && key'.header.version == 1 && key'.header.revision == 1 && key'.header.storeID == c.storeID
           && IsTrimmed(key'.header.kek, ref) && key'.header.wrappedDEK.nonce == c.nonce
  {
    InitializeResult(key, b, ref, kek, c);
    ReferenceRefused(ref);
    NothingListed(b);
    hide RunAlone, Blank, TrimSpace, ValidateKEKReference, ValidUtf8, HeaderAAD, JsonRoundTrip;
    var first := FirstHeaderOf(NormalizeReference(ref), kek, c);
    if first.Ok? {
      WrappedCarries(Header(1, 1, c.storeID, NormalizeReference(ref), NO_BLOB), kek, c.dek, c.nonce);
      PersistStores(b, first.value);
    }
  }

  lemma NothingListed(b: Backend)
    ensures ListEnvelopes(b) == [] <==> b.envelopes == map[]
  {
    assert b.envelopes == map[] <==> b.envelopes.Keys == {};
    hide Ascending;
    if b.envelopes.Keys != {} {
      var a :| a in b.envelopes.Keys;
      assert a in Ascending(b.envelopes.Keys);
    }
  }

  lemma WrappedCarries(h: Header, kek: Key, dek: Key, nonce: Bytes)
    requires WrapInto(h, kek, dek, nonce).Ok?
    ensures var w := WrapInto(h, kek, dek, nonce).value;
      w == h.(wrappedDEK := w.wrappedDEK) && w.wrappedDEK.algorithm == ALGORITHM && w.wrappedDEK.nonce == nonce && CarriesKey(w, kek, dek)
  {
    assert HeaderAAD(h) == HeaderAAD(WrapInto(h, kek, dek, nonce).value);
  }

  lemma PersistStores(b: Backend, h: Header)
    requires h.wrappedDEK.algorithm == ALGORITHM
    ensures StoresHeader(b, b.(header := Some(PersistHeader(h))), h)
  {
    JsonLosslessIffValid(h.kek.rpID);
    AlgorithmSurvivesJson();
    hide ValidUtf8, JsonRoundTrip;
  }

  lemma UnlockAnswer(key: HandleKey, b: Backend, kek: Key, c: Choice)
    ensures var (key', b', reply) := RunAlone(key, b, Unlock(kek), Start, c);
      && b' == b
      && if |kek| != 32 then key' == key && reply == Failure(BadKey)
         else if b.header.None? then key' == key && reply == Failure(NotInitialized)
         else
           var h := b.header.value;
           if HeaderError(h).Some? then key' == key && reply == Failure(HeaderError(h).value)
           else if exists dek: Key :: |dek| == 32 && CarriesKey(h, kek, dek)
             then reply == Success && key'.Held? && key'.header == h && |key'.dek| == 32 && CarriesKey(h, kek, key'.dek)
           else key' == key && reply == Failure(Integrity)
  {
    hide RunAlone, HeaderError, HeaderAAD, ValidateKEKReference, ValidateBlob;
    FirstStep(key, b, Unlock(kek), c);
    if |kek| == 32 && b.header.Some? {
      var h := b.header.value;
      HeaderRefused(h);
      if ValidateHeader(h).Ok? {
        Opens(h, kek);
      }
      if UnwrapHeader(h, kek).Ok? {
        var dek := UnwrapHeader(h, kek).value;
        Unroll(key, b, Unlock(kek), Publish(h, dek), c);
        UnrollFinished(Held(h, dek), b, Unlock(kek), Success, c);
      }
    }
  }

  lemma Opens(h: Header, kek: Key)
    requires |kek| == 32 && ValidateHeader(h).Ok?
    ensures UnwrapHeader(h, kek).Ok? <==> exists dek: Key :: |dek| == 32 && CarriesKey(h, kek, dek)
    ensures UnwrapHeader(h, kek).Ok? ==> |UnwrapHeader(h, kek).value| == 32 && CarriesKey(h, kek, UnwrapHeader(h, kek).value)
    ensures UnwrapHeader(h, kek).Err? ==> UnwrapHeader(h, kek).error == Integrity
  {
    hide HeaderAAD, ValidateKEKReference;
    if UnwrapHeader(h, kek).Ok? {
      assert CarriesKey(h, kek, UnwrapHeader(h, kek).value);
    }
  }

  /** Lock always succeeds and forgets the key, and touches nothing else. */
  lemma LockAnswer(key: HandleKey, b: Backend, c: Choice)
    ensures RunAlone(key, b, Lock, Start, c) == (NoKey, b, Success)
  {
    hide RunAlone;
    FirstStep(key, b, Lock, c);
  }

  lemma RotateAnswer(key: HandleKey, b: Backend, next: KEKReference, kek: Key, c: Choice)
    requires ValidChoice(c) && (key.Held? ==> |key.dek| == 32)
    ensures var (key', b', reply) := RunAlone(key, b, RotateKEK(next, kek), Start, c);
      var expected :=
        if !UsableReference(next) then Failure(InvalidRecord)
        else if |kek| != 32 then Failure(BadKey)
        else if key.NoKey? then Failure(Locked)
        else if b.header.None? then Failure(NotInitialized)
        else if HeaderError(b.header.value).Some? then Failure(HeaderError(b.header.value).value)
        else if b.header.value.revision != key.header.revision then Failure(Conflict)
        else Success;
      && reply == expected
      && if reply != Success then key' == key && b' == b
         else
           && key'.Held? && key'.dek == key.dek && StoresHeader(b, b', key'.header) && CarriesKey(key'.header, kek, key.dek)
           && key'.header.version == 1 && key'.header.storeID == b.header.value.storeID
           && key'.header.revision == (b.header.value.revision + 1) % 0x1_0000_0000_0000_0000
           && IsTrimmed(key'.header.kek, next) && key'.header.wrappedDEK.nonce == c.nonce
  {
    hide RunAlone, TrimSpace, ValidateKEKReference, ValidateHeader, ValidUtf8, HeaderAAD, JsonRoundTrip, UsableReference;
    hide StoresHeader, CarriesKey, HeaderError;
    RotateResult(key, b, next, kek, c);
    ReferenceRefused(next);
    if key.Held? && b.header.Some? {
      var h := b.header.value;
      HeaderRefused(h);
      var rotated := NextHeaderOf(h, NormalizeReference(next), kek, key.dek, c);
      if rotated.Ok? {
        WrappedCarries(h.(revision := Increment(h.revision), kek := NormalizeReference(next)), kek, key.dek, c.nonce);
        PersistStores(b, rotated.value);
      }
    }
  }

  lemma HeaderAnswer(key: HandleKey, b: Backend, c: Choice)
    ensures RunAlone(key, b, ReadHeader, Start, c) == (key, b,
      if b.header.None? then Failure(NotInitialized)
      else if HeaderError(b.header.value).Some? then Failure(HeaderError(b.header.value).value)
      else HeaderIs(b.header.value))
  {
    hide RunAlone, ValidateHeader, HeaderError;
    HeaderResult(key, b, c);
    if b.header.Some? {
      HeaderRefused(b.header.value);
    }
  }

  // ---------- Records ----------

  /** blob is rec, sealed under dek for this store and the record's own alias. */
  predicate CarriesRecord(blob: Blob, storeID: Bytes, dek: Key, rec: Record) {
    EncodeRecord(rec).Ok? && blob.ciphertext == Sealed(dek, blob.nonce, RecordAAD(storeID, rec.alias), EncodeRecord(rec).value)
  }

  ghost predicate UsableRecord(raw: Record) {
    raw.credentialID != [] && |raw.salt| == 32 && !Blank(raw.rpID)
  }

  lemma RecordRefused(raw: Record)
    ensures ValidateRecord(Normalize(raw)) ==
      if Blank(raw.alias) then Err(InvalidAlias) else if !UsableRecord(raw) then Err(InvalidRecord) else Ok(())
  {
    BlankTrims(raw.alias);
    BlankTrims(raw.rpID);
    hide TrimSpace, Blank;
  }

  lemma PutAnswer(key: HandleKey, b: Backend, raw: Record, c: Choice)
    requires ValidChoice(c) && (key.Held? ==> |key.dek| == 32)
    ensures var (key', b', reply) := RunAlone(key, b, Op.Put(raw), Start, c);
      var rec := Record(TrimSpace(raw.alias), raw.credentialID, raw.salt, TrimSpace(raw.rpID));
      && key' == key
      && reply == (
           if Blank(raw.alias) then Failure(InvalidAlias)
           else if !UsableRecord(raw) then Failure(InvalidRecord)
           else if key.NoKey? then Failure(Locked)
           else if |rec.credentialID| > 0x10_0000 || |rec.rpID| > 0x10_0000 then Failure(InvalidRecord)
           else if rec.alias in b.envelopes then Failure(Exists)
           else Success)
      && if reply != Success then b' == b
         else
           && rec.alias in b'.envelopes && b' == b.(envelopes := b.envelopes[rec.alias := b'.envelopes[rec.alias]])
           && BlobError(b'.envelopes[rec.alias]).None? && b'.envelopes[rec.alias].nonce == c.nonce
           && CarriesRecord(b'.envelopes[rec.alias], key.header.storeID, key.dek, rec)
  {
    hide RunAlone, TrimSpace, RecordAAD, UsableRecord, Blank, ValidateRecord, LengthPrefixed;
    PutResult(key, b, raw, c);
    RecordRefused(raw);
    TrimSpaceIdempotent(raw.alias);
    BlankTrims(raw.alias);
    var rec := Normalize(raw);
    if key.Held? && ValidateRecord(rec).Ok? {
      PutSealed(key.header.storeID, key.dek, rec, c.nonce);
      hide SealRecord, BlobError, CarriesRecord;
    }
  }

  lemma PutSealed(storeID: Bytes, dek: Key, rec: Record, nonce: Bytes)
    requires |dek| == 32 && |nonce| == NONCE_SIZE && ValidateRecord(rec).Ok?
    ensures var s := SealRecord(storeID, dek, rec, nonce);
      if |rec.credentialID| > 0x10_0000 || |rec.rpID| > 0x10_0000 then s == Err(InvalidRecord)
      else s.Ok? && BlobError(s.value).None? && s.value.nonce == nonce && CarriesRecord(s.value, storeID, dek, rec)
  {
    hide RecordAAD;
    if EncodeRecord(rec).Ok? {
      PayloadLayout(rec);
    }
  }

  /** A blob that its checks let pass opens to rec exactly when it carries rec. */
  lemma OpensTo(storeID: Bytes, dek: Key, alias: Bytes, blob: Blob, rec: Record)
    requires |dek| == 32 && BlobError(blob).None?
    ensures OpenRecord(storeID, dek, alias, blob) == Ok(rec)
       <==> rec.alias == alias && ValidateRecord(rec).Ok? && CarriesRecord(blob, storeID, dek, rec)
  {
    BlobRefused(blob);
    hide RecordAAD, BlobError, ValidateBlob;
    if OpenRecord(storeID, dek, alias, blob) == Ok(rec) {
      EncodeAfterDecode(alias, blob.ciphertext.plaintext);
    }
    if rec.alias == alias && ValidateRecord(rec).Ok? && CarriesRecord(blob, storeID, dek, rec) {
      DecodeAfterEncode(rec);
    }
  }

  lemma GetAnswer(key: HandleKey, b: Backend, raw: Bytes, c: Choice)
    requires key.Held? ==> |key.dek| == 32
    ensures var (key', b', reply) := RunAlone(key, b, Op.Get(raw), Start, c);
      var a := TrimSpace(raw);
      && key' == key && b' == b
      && if Blank(raw) then reply == Failure(InvalidAlias)
         else if key.NoKey? then reply == Failure(Locked)
         else if a !in b.envelopes then reply == Failure(NotFound)
         else if BlobError(b.envelopes[a]).Some? then reply == Failure(BlobError(b.envelopes[a]).value)
         else
           && (reply.Found? || reply.Failure?)
           && forall rec: Record :: reply == Found(rec) <==>
                rec.alias == a && ValidateRecord(rec).Ok? && CarriesRecord(b.envelopes[a], key.header.storeID, key.dek, rec)
  {
    hide RunAlone, TrimSpace, RecordAAD, Blank, OpenRecord, CarriesRecord, ValidateRecord;
    GetResult(key, b, raw, c);
    BlankTrims(raw);
    TrimSpaceIdempotent(raw);
    var a := TrimSpace(raw);
    if key.Held? && a in b.envelopes {
      var blob := b.envelopes[a];
      BadBlob(key.header.storeID, key.dek, a, blob);
      hide BlobError;
      if BlobError(blob).None? {
        forall rec: Record ensures OpenRecord(key.header.storeID, key.dek, a, blob) == Ok(rec) <==>
          rec.alias == a && ValidateRecord(rec).Ok? && CarriesRecord(blob, key.header.storeID, key.dek, rec)
        {
          OpensTo(key.header.storeID, key.dek, a, blob, rec);
        }
      }
    }
  }

  lemma BadBlob(storeID: Bytes, dek: Key, alias: Bytes, blob: Blob)
    requires |dek| == 32
    ensures BlobError(blob).Some? ==> OpenRecord(storeID, dek, alias, blob) == Err(BlobError(blob).value)
  {
    BlobRefused(blob);
    hide RecordAAD, BlobError, ValidateBlob;
  }

  lemma DeleteAnswer(key: HandleKey, b: Backend, raw: Bytes, c: Choice)
    ensures var (key', b', reply) := RunAlone(key, b, Op.Delete(raw), Start, c);
      var a := TrimSpace(raw);
      && key' == key
      && reply == (
           if Blank(raw) then Failure(InvalidAlias)
           else if key.NoKey? then Failure(Locked)
           else if a !in b.envelopes then Failure(NotFound)
           else Success)
      && b' == if reply == Success then b.(envelopes := b.envelopes - {a}) else b
  {
    hide RunAlone, TrimSpace, Blank;
    BlankTrims(raw);
    TrimSpaceIdempotent(raw);
    var op, a := Op.Delete(raw), TrimSpace(raw);
    FirstStep(key, b, op, c);
    if key.Held? {
      Unroll(key, b, op, DeleteSend(a), c);
      var (b', r) := DeleteEnvelope(b, a);
      UnrollFinished(key, b', op, Refuse(r), c);
    }
  }

  lemma HasAnswer(key: HandleKey, b: Backend, raw: Bytes, c: Choice)
    ensures RunAlone(key, b, Op.Has(raw), Start, c) ==
      (key, b, if Blank(raw) then Failure(InvalidAlias) else Present(TrimSpace(raw) in b.envelopes))
  {
    hide RunAlone, TrimSpace, Blank;
    BlankTrims(raw);
    TrimSpaceIdempotent(raw);
    FirstStep(key, b, Op.Has(raw), c);
  }

  /** Exactly the aliases with an envelope, each once, in ascending byte order. */
  lemma ListAnswer(key: HandleKey, b: Backend, c: Choice)
    ensures var (key', b', reply) := RunAlone(key, b, Op.List, Start, c);
      && key' == key && b' == b && reply.Aliases?
      && (forall a :: a in reply.aliases <==> a in b.envelopes)
      && (forall i, j :: 0 <= i < j < |reply.aliases| ==> LexLess(reply.aliases[i], reply.aliases[j]))
  {
    hide RunAlone, LexLess, Ascending;
    FirstStep(key, b, Op.List, c);
    AscendingIsSorted(b.envelopes.Keys);
  }
}
