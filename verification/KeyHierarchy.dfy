/** The pure parts of pkg/store/encrypted: checks on keys, blobs and headers, and
    the two uses of the AEAD - wrapping the store key and sealing records. */
module KeyHierarchy {
  import opened ByteStrings
  import Text
  import opened Aead
  import opened Storage
  import opened Codec

  const ALGORITHM: Bytes := Ascii("xchacha20poly1305-v1")

  function ValidateKey(key: Key): Result<()> {
    if |key| != KEY_SIZE then Err(BadKey) else Ok(())
  }

  function ValidateBlob(b: Blob): Result<()> {
    if b.version != FORMAT_VERSION || b.algorithm != ALGORITHM then Err(UnsupportedFormat)
    else if |b.nonce| != NONCE_SIZE then Err(InvalidRecord)
    else if Length(b.ciphertext) < OVERHEAD || Length(b.ciphertext) > MAX_CIPHERTEXT then Err(InvalidRecord)
    else Ok(())
  }

  function ValidateHeader(h: Header): Result<()> {
    if h.version != FORMAT_VERSION then Err(UnsupportedFormat)
    else if h.revision == 0 || |h.storeID| != STORE_ID_SIZE then Err(InvalidRecord)
    else
      var _ :- ValidateKEKReference(h.kek);
      ValidateBlob(h.wrappedDEK)
  }

  function SealBlob(key: Key, nonce: Bytes, plaintext: Bytes, aad: Bytes): Result<Blob> {
    var _ :- ValidateKey(key);
    Ok(Blob(FORMAT_VERSION, ALGORITHM, nonce, Sealed(key, nonce, aad, plaintext)))
  }

  function OpenBlob(key: Key, b: Blob, aad: Bytes): Result<Bytes> {
    var _ :- ValidateKey(key);
    var _ :- ValidateBlob(b);
    match Open(key, b.nonce, aad, b.ciphertext)
    case Plaintext(bytes) => Ok(bytes)
    case Rejected => Err(Integrity)
  }

  /** wrapEnclave over headerAAD. */
  function WrapInto(h: Header, kek: Key, dek: Key, nonce: Bytes): Result<Header> {
    var _ :- ValidateKey(dek);
    var blob :- SealBlob(kek, nonce, dek, HeaderAAD(h));
    Ok(h.(wrappedDEK := blob))
  }

  /** The part of Unlock between LoadHeader and publishing. */
  function UnwrapHeader(h: Header, kek: Key): Result<Key> {
    var _ :- ValidateHeader(h);
    var dek :- OpenBlob(kek, h.wrappedDEK, HeaderAAD(h));
    if |dek| != KEY_SIZE then Err(Integrity) else Ok(dek)
  }

  function SealRecord(storeID: Bytes, dek: Key, rec: Record, nonce: Bytes): Result<Blob> {
    var plaintext :- EncodeRecord(rec);
    SealBlob(dek, nonce, plaintext, RecordAAD(storeID, rec.alias))
  }

  function OpenRecord(storeID: Bytes, dek: Key, alias: Bytes, b: Blob): Result<Record> {
    var plaintext :- OpenBlob(dek, b, RecordAAD(storeID, alias));
    var rec :- DecodeRecord(alias, plaintext);
    var _ :- ValidateRecord(rec);
    Ok(rec)
  }

  const NO_BLOB: Blob := Blob(0, [], [], Junk([]))

  /** Every record a Put may store passes every check of a later Get: field limits,
      the ciphertext bound, nonce and version. */
  lemma OpenAfterSeal(storeID: Bytes, dek: Key, rec: Record, nonce: Bytes)
    requires |dek| == KEY_SIZE && |nonce| == NONCE_SIZE && ValidateRecord(rec).Ok?
    ensures SealRecord(storeID, dek, rec, nonce).Ok?
       <==> |rec.credentialID| <= MAX_PAYLOAD_FIELD && |rec.rpID| <= MAX_PAYLOAD_FIELD
    ensures var s := SealRecord(storeID, dek, rec, nonce);
            s.Ok? ==> OpenRecord(storeID, dek, rec.alias, s.value) == Ok(rec)
  {
    var s := SealRecord(storeID, dek, rec, nonce);
    if s.Ok? {
      var plaintext := EncodeRecord(rec).value;
      assert |plaintext| == 2 + 12 + |rec.credentialID| + |rec.salt| + |rec.rpID|;
      DecodeAfterEncode(rec);
    }
  }

  /** A wrapped key opens under the wrapping key alone, and only while the header
      still has the identity it was wrapped with. */
  lemma UnwrapIff(h: Header, kek: Key, dek: Key, nonce: Bytes, stored: Header, other: Key)
    requires |kek| == |other| == |dek| == KEY_SIZE && |nonce| == NONCE_SIZE
    requires h.version == FORMAT_VERSION && h.revision != 0 && |h.storeID| == STORE_ID_SIZE
    requires WrapInto(h, kek, dek, nonce).Ok?
    requires stored.version == h.version && stored.revision == h.revision && stored.storeID == h.storeID
    requires stored.kek.credentialID == h.kek.credentialID && stored.kek.salt == h.kek.salt
    requires ValidateKEKReference(stored.kek).Ok?
    requires stored.wrappedDEK == WrapInto(h, kek, dek, nonce).value.wrappedDEK
    ensures UnwrapHeader(stored, other) ==
            if other == kek && stored.kek.rpID == h.kek.rpID then Ok(dek) else Err(Integrity)
  {
    if HeaderAAD(stored) == HeaderAAD(h) {
      HeaderAADInjective(stored, h);
    }
    if stored.kek.rpID == h.kek.rpID {
      assert stored.kek == h.kek;
      assert HeaderAAD(stored) == HeaderAAD(h);
    }
  }

  lemma AlgorithmSurvivesJson()
    ensures Text.JsonRoundTrip(ALGORITHM) == ALGORITHM
  {
    Text.AsciiIsValid(ALGORITHM);
    Text.JsonLosslessIffValid(ALGORITHM);
  }
}
