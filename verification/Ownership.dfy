/** The slices behind the values: references, blobs, headers and records as byte
    buffers, their clones, and records read out of a buffer that is then destroyed. */
module Ownership {
  import Text
  import Aead
  import opened ByteStrings
  import opened Storage
  import opened Codec

  type Slice = array<byte>

  /** The buffer of a symbolic ciphertext; overwriting any of it makes it another. */
  class CipherSlice {
    var value: Aead.Ciphertext

    constructor (value: Aead.Ciphertext)
      ensures this.value == value
    {
      this.value := value;
    }
  }

  datatype ReferenceRef = ReferenceRef(credentialID: Slice, salt: Slice, rpID: Bytes)

  datatype BlobRef = BlobRef(version: uint16, algorithm: Bytes, nonce: Slice, ciphertext: CipherSlice)

  datatype HeaderRef = HeaderRef(version: uint16, revision: uint64, storeID: Slice, kek: ReferenceRef, wrappedDEK: BlobRef)

  datatype RecordRef = RecordRef(alias: Bytes, credentialID: Slice, salt: Slice, rpID: Bytes)

  function ReferenceSlices(r: ReferenceRef): set<object> { {r.credentialID, r.salt} }

  function BlobSlices(b: BlobRef): set<object> { {b.nonce, b.ciphertext} }

  function RecordSlices(r: RecordRef): set<object> { {r.credentialID, r.salt} }

  function HeaderSlices(h: HeaderRef): set<object> {
    {h.storeID} + ReferenceSlices(h.kek) + BlobSlices(h.wrappedDEK)
  }

  function ReferenceValue(r: ReferenceRef): KEKReference
    reads ReferenceSlices(r)
  {
    KEKReference(r.credentialID[..], r.salt[..], r.rpID)
  }

  function BlobValue(b: BlobRef): Blob
    reads BlobSlices(b)
  {
    Blob(b.version, b.algorithm, b.nonce[..], b.ciphertext.value)
  }

  function HeaderValue(h: HeaderRef): Header
    reads HeaderSlices(h)
  {
    Header(h.version, h.revision, h.storeID[..], ReferenceValue(h.kek), BlobValue(h.wrappedDEK))
  }

  function RecordValue(r: RecordRef): Record
    reads RecordSlices(r)
  {
    Record(r.alias, r.credentialID[..], r.salt[..], r.rpID)
  }

  // ---------- Clones ----------

  method CloneBytes(s: Slice) returns (r: Slice)
    ensures fresh(r) && r[..] == s[..]
  {
    r := new byte[s.Length](i requires 0 <= i < s.Length reads s => s[i]);
  }

  method CloneReference(ref: ReferenceRef) returns (r: ReferenceRef)
    ensures fresh(ReferenceSlices(r)) && ReferenceValue(r) == ReferenceValue(ref)
    ensures r.credentialID[..] == ref.credentialID[..] && r.salt[..] == ref.salt[..] && r.rpID == ref.rpID
  {
    var credentialID := CloneBytes(ref.credentialID);
    var salt := CloneBytes(ref.salt);
    return ReferenceRef(credentialID, salt, ref.rpID);
  }

  method CloneBlob(blob: BlobRef) returns (r: BlobRef)
    ensures fresh(BlobSlices(r)) && BlobValue(r) == BlobValue(blob)
    ensures r.version == blob.version && r.algorithm == blob.algorithm
    ensures r.nonce[..] == blob.nonce[..] && r.ciphertext.value == blob.ciphertext.value
  {
    var nonce := CloneBytes(blob.nonce);
    var ciphertext := new CipherSlice(blob.ciphertext.value);
    return BlobRef(blob.version, blob.algorithm, nonce, ciphertext);
  }

  method CloneHeader(header: HeaderRef) returns (r: HeaderRef)
    ensures fresh(HeaderSlices(r)) && HeaderValue(r) == HeaderValue(header)
    ensures r.version == header.version && r.revision == header.revision && r.storeID[..] == header.storeID[..]
    ensures r.kek.credentialID[..] == header.kek.credentialID[..] && r.kek.salt[..] == header.kek.salt[..]
    ensures r.kek.rpID == header.kek.rpID && BlobValue(r.wrappedDEK) == BlobValue(header.wrappedDEK)
  {
    var storeID := CloneBytes(header.storeID);
    var kek := CloneReference(header.kek);
    var wrappedDEK := CloneBlob(header.wrappedDEK);
    return HeaderRef(header.version, header.revision, storeID, kek, wrappedDEK);
  }

  // ---------- Values into fresh buffers ----------

  method NewBytes(v: Bytes) returns (r: Slice)
    ensures fresh(r) && r[..] == v
  {
    r := new byte[|v|](i requires 0 <= i < |v| => v[i]);
  }

  method NewBlob(v: Blob) returns (r: BlobRef)
    ensures fresh(BlobSlices(r)) && BlobValue(r) == v
  {
    var nonce := NewBytes(v.nonce);
    var ciphertext := new CipherSlice(v.ciphertext);
    return BlobRef(v.version, v.algorithm, nonce, ciphertext);
  }

  /** What json.Unmarshal allocates. */
  method NewHeader(v: Header) returns (r: HeaderRef)
    ensures fresh(HeaderSlices(r)) && HeaderValue(r) == v
  {
    var storeID := NewBytes(v.storeID);
    var credentialID := NewBytes(v.kek.credentialID);
    var salt := NewBytes(v.kek.salt);
    var wrappedDEK := NewBlob(v.wrappedDEK);
    return HeaderRef(v.version, v.revision, storeID, ReferenceRef(credentialID, salt, v.kek.rpID), wrappedDEK);
  }

  // ---------- Headers around a caller's reference ----------

  /** The caller's reference, cloned and trimmed before anything else is done with it. */
  method CloneTrimmed(ref: ReferenceRef) returns (own: ReferenceRef)
    ensures fresh(ReferenceSlices(own)) && ReferenceValue(own) == NormalizeReference(ReferenceValue(ref))
    ensures own.credentialID[..] == ref.credentialID[..] && own.salt[..] == ref.salt[..]
    ensures own.rpID == Text.TrimSpace(ref.rpID)
  {
    hide Text.TrimSpace;
    own := CloneReference(ref);
    own := own.(rpID := Text.TrimSpace(own.rpID));
  }

  /** header with another revision, reference and wrapped key; the store id is cloned. */
  method Rewrap(header: HeaderRef, revision: uint64, kek: ReferenceRef, wrappedDEK: Blob) returns (r: HeaderRef)
    ensures fresh(HeaderSlices(r) - ReferenceSlices(kek))
    ensures r.version == header.version && r.revision == revision && r.storeID[..] == header.storeID[..] && r.kek == kek
    ensures HeaderValue(r) == HeaderValue(header).(revision := revision, kek := ReferenceValue(kek), wrappedDEK := wrappedDEK)
  {
    var blob := NewBlob(wrappedDEK);
    r := CloneHeader(header);
    r := r.(revision := revision, kek := kek, wrappedDEK := blob);
  }

  // ---------- Records out of a buffer that is wiped ----------

  /** payloadReader: the unread part of a buffer it does not own. */
  class PayloadReader {
    const buffer: Slice
    var pos: nat

    ghost predicate Valid()
      reads this
    {
      pos <= buffer.Length
    }

    ghost function Rest(): Bytes
      requires Valid()
      reads this, buffer
    {
      buffer[pos..]
    }

    constructor (buffer: Slice)
      ensures Valid() && this.buffer == buffer && Rest() == buffer[..]
    {
      this.buffer := buffer;
      pos := 0;
    }

    method ReadUint16() returns (r: Result<uint16>)
      requires Valid()
      modifies this
      ensures Valid() && (r.Ok? <==> |old(Rest())| >= 2)
      ensures r.Ok? ==> old(Rest()) == BigEndian(2, r.value) + Rest()
      ensures r.Err? ==> r.error == InvalidRecord && Rest() == old(Rest())
    {
      if buffer.Length - pos < 2 {
        return Err(InvalidRecord);
      }
      Widths();
      BigEndianOfFromBigEndian(buffer[pos..pos + 2]);
      assert Rest() == buffer[pos..pos + 2] + buffer[pos + 2..];
      var value := FromBigEndian(buffer[pos..pos + 2]);
      pos := pos + 2;
      return Ok(value);
    }

    /** A field is copied out of the buffer, and consumes exactly 4 + size bytes of it. */
    method ReadBytes() returns (r: Result<Slice>)
      requires Valid()
      modifies this
      ensures Valid()
      ensures r.Ok? ==> fresh(r.value) && ReadField(old(Rest())) == Ok((r.value[..], Rest()))
      ensures r.Err? ==> ReadField(old(Rest())) == Err(r.error)
    {
      ghost var rest := Rest();
      if buffer.Length - pos < 4 {
        return Err(InvalidRecord);
      }
      var size := FromBigEndian(buffer[pos..pos + 4]);
      assert rest[..4] == buffer[pos..pos + 4];
      pos := pos + 4;
      if size > MAX_PAYLOAD_FIELD || size > buffer.Length - pos {
        return Err(InvalidRecord);
      }
      var value := new byte[size](i requires 0 <= i < size && pos + size <= buffer.Length reads this, buffer => buffer[pos + i]);
      assert value[..] == rest[4..4 + size];
      pos := pos + size;
      assert Rest() == rest[4 + size..];
      return Ok(value);
    }
  }

  lemma VersionReads(v: uint16)
    ensures FromBigEndian(BigEndian(2, v)) == v
  {
    Widths();
    BigEndianInRange(2, v);
  }

  /** The three fields that the reader still has before it. */
  method ReadFields(alias: Bytes, reader: PayloadReader) returns (r: Result<RecordRef>)
    requires reader.Valid()
    modifies reader
    ensures r.Ok? ==> fresh(RecordSlices(r.value))
    ensures r.Ok? ==> DecodeFields(alias, old(reader.Rest())) == Ok(RecordValue(r.value))
    ensures r.Err? ==> DecodeFields(alias, old(reader.Rest())) == Err(r.error)
  {
    hide ReadField;
    var credentialID := reader.ReadBytes();
    if credentialID.Err? {
      return Err(credentialID.error);
    }
    ghost var id := credentialID.value[..];
    var salt := reader.ReadBytes();
    if salt.Err? {
      return Err(salt.error);
    }
    ghost var s := salt.value[..];
    var rpID := reader.ReadBytes();
    if rpID.Err? {
      return Err(rpID.error);
    }
    assert reader.Rest() == [] <==> reader.pos == reader.buffer.Length;
    if reader.pos != reader.buffer.Length {
      return Err(InvalidRecord);
    }
    assert credentialID.value[..] == id && salt.value[..] == s;
    return Ok(RecordRef(alias, credentialID.value, salt.value, rpID.value[..]));
  }

  method DecodeBuffer(alias: Bytes, buffer: Slice) returns (r: Result<RecordRef>)
    ensures r.Ok? ==> fresh(RecordSlices(r.value)) && DecodeRecord(alias, buffer[..]) == Ok(RecordValue(r.value))
    ensures r.Err? ==> DecodeRecord(alias, buffer[..]) == Err(r.error)
  {
    hide DecodeFields, FromBigEndian, BigEndian, RecordValue;
    ghost var data := buffer[..];
    var reader := new PayloadReader(buffer);
    var version := reader.ReadUint16();
    if version.Err? {
      return Err(version.error);
    }
    assert data[..2] == BigEndian(2, version.value) && data[2..] == reader.Rest();
    VersionReads(version.value);
    if version.value != FORMAT_VERSION {
      return Err(UnsupportedFormat);
    }
    r := ReadFields(alias, reader);
    assert buffer[..] == data;
  }

  /** The end of Get: decode, then destroy the plaintext buffer. The record it returns
      is the one that was sealed, though every byte it was read from is gone. */
  method DecodeAndDestroy(alias: Bytes, plaintext: Slice) returns (r: Result<RecordRef>)
    modifies plaintext
    ensures forall i :: 0 <= i < plaintext.Length ==> plaintext[i] == 0
    ensures r.Ok? ==> DecodeRecord(alias, old(plaintext[..])) == Ok(RecordValue(r.value))
    ensures r.Ok? ==> fresh(r.value.credentialID) && fresh(r.value.salt)
    ensures r.Ok? ==> var sealed := DecodeRecord(alias, old(plaintext[..])).value;
      && r.value.alias == alias && r.value.credentialID[..] == sealed.credentialID
      && r.value.salt[..] == sealed.salt && r.value.rpID == sealed.rpID
    ensures r.Err? ==> DecodeRecord(alias, old(plaintext[..])) == Err(r.error)
  {
    r := DecodeBuffer(alias, plaintext);
    for i := 0 to plaintext.Length
      invariant forall k :: 0 <= k < i ==> plaintext[k] == 0
      invariant r.Ok? ==> RecordValue(r.value) == DecodeRecord(alias, old(plaintext[..])).value
    {
      plaintext[i] := 0;
    }
  }
}
