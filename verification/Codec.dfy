/** The byte formats of the encrypted store: associated data for headers and
    records, and the record payload. */
module Codec {
  import opened ByteStrings
  import opened Text
  import Aead
  import opened Storage

  const FORMAT_VERSION: uint16 := 1
  const STORE_ID_SIZE: nat := 16
  const MAX_PAYLOAD_FIELD: nat := 0x10_0000
  const MAX_CIPHERTEXT: nat := 0x40_0000
  const MAX_UINT32: nat := 0xFFFF_FFFF

  const HEADER_AAD_PREFIX: Bytes := Ascii("hmacsecret/encrypted-store/dek/v1")
  const RECORD_AAD_PREFIX: Bytes := Ascii("hmacsecret/encrypted-store/record/v1")

  function LengthPrefixed(v: Bytes): Bytes {
    BigEndian(4, |v|) + v
  }

  function HeaderAAD(h: Header): Bytes {
    LengthPrefixed(HEADER_AAD_PREFIX)
    + (BigEndian(2, h.version)
    + (BigEndian(8, h.revision)
    + (LengthPrefixed(h.storeID)
    + (LengthPrefixed(h.kek.credentialID)
    + (LengthPrefixed(h.kek.salt)
    + LengthPrefixed(h.kek.rpID))))))
  }

  function RecordAAD(storeID: Bytes, alias: Bytes): Bytes {
    LengthPrefixed(RECORD_AAD_PREFIX)
    + (BigEndian(2, FORMAT_VERSION)
    + (LengthPrefixed(storeID)
    + LengthPrefixed(alias)))
  }

  // ---------- Associated data ----------

  lemma Widths()
    ensures Pow256(2) == 0x1_0000
    ensures Pow256(4) == MAX_UINT32 + 1
    ensures Pow256(8) == 0x1_0000_0000_0000_0000
  {
    assert Pow256(3) == 0x100_0000;
    assert Pow256(5) == 0x100_0000_0000;
    assert Pow256(6) == 0x1_0000_0000_0000;
    assert Pow256(7) == 0x100_0000_0000_0000;
  }

  /** The 32-bit length prefix is exact for precisely the lengths a uint32 holds. */
  lemma LengthPrefixExact(v: Bytes)
    ensures FromBigEndian(LengthPrefixed(v)[..4]) == |v| <==> |v| <= MAX_UINT32
  {
    Widths();
    assert LengthPrefixed(v)[..4] == BigEndian(4, |v|);
    BigEndianOfFromBigEndian(BigEndian(4, |v|));
    if |v| <= MAX_UINT32 {
      BigEndianInRange(4, |v|);
    }
  }

  /** Both lengths lie in one window of 2^32 consecutive values, the first or the
      one that starts at 1. */
  predicate SameWindow(m: nat, n: nat) {
    m == n || (m <= MAX_UINT32 && n <= MAX_UINT32) || (1 <= m <= MAX_UINT32 + 1 && 1 <= n <= MAX_UINT32 + 1)
  }

  lemma SplitFixed(a: Bytes, x: Bytes, b: Bytes, y: Bytes)
    requires |a| == |b| && a + x == b + y
    ensures a == b && x == y
  {
    assert a == (a + x)[..|a|] && b == (b + y)[..|b|];
    assert x == (a + x)[|a|..] && y == (b + y)[|b|..];
  }

  lemma PrefixDeterminesLength(m: nat, n: nat)
    requires SameWindow(m, n) && BigEndian(4, m) == BigEndian(4, n)
    ensures m == n
  {
    Widths();
    if m <= MAX_UINT32 && n <= MAX_UINT32 {
      BigEndianInRange(4, m);
      BigEndianInRange(4, n);
    } else if m != n {
      BigEndianWraps(4, 0);
      BigEndianInRange(4, 0);
      BigEndianInRange(4, if m <= MAX_UINT32 then m else n);
      assert false;
    }
  }

  lemma SplitField(a: Bytes, x: Bytes, b: Bytes, y: Bytes)
    requires SameWindow(|a|, |b|) && LengthPrefixed(a) + x == LengthPrefixed(b) + y
    ensures a == b && x == y
  {
    assert LengthPrefixed(a) + x == BigEndian(4, |a|) + (a + x);
    assert LengthPrefixed(b) + y == BigEndian(4, |b|) + (b + y);
    SplitFixed(BigEndian(4, |a|), a + x, BigEndian(4, |b|), b + y);
    PrefixDeterminesLength(|a|, |b|);
    SplitFixed(a, x, b, y);
  }

  /** Equal but for the wrapped key, which the associated data leaves out. */
  predicate SameIdentity(g: Header, h: Header) {
    g.version == h.version && g.revision == h.revision && g.storeID == h.storeID && g.kek == h.kek
  }

  lemma HeaderAADInjective(g: Header, h: Header)
    requires HeaderAAD(g) == HeaderAAD(h)
    requires SameWindow(|g.storeID|, |h.storeID|)
    requires SameWindow(|g.kek.credentialID|, |h.kek.credentialID|)
    requires SameWindow(|g.kek.salt|, |h.kek.salt|)
    ensures SameIdentity(g, h)
  {
    var gRP, hRP := LengthPrefixed(g.kek.rpID), LengthPrefixed(h.kek.rpID);
    var gSalt, hSalt := LengthPrefixed(g.kek.salt) + gRP, LengthPrefixed(h.kek.salt) + hRP;
    var gCred, hCred := LengthPrefixed(g.kek.credentialID) + gSalt, LengthPrefixed(h.kek.credentialID) + hSalt;
    var gID, hID := LengthPrefixed(g.storeID) + gCred, LengthPrefixed(h.storeID) + hCred;
    var gRev, hRev := BigEndian(8, g.revision) + gID, BigEndian(8, h.revision) + hID;
    var gVer, hVer := BigEndian(2, g.version) + gRev, BigEndian(2, h.version) + hRev;
    SplitField(HEADER_AAD_PREFIX, gVer, HEADER_AAD_PREFIX, hVer);
    SplitFixed(BigEndian(2, g.version), gRev, BigEndian(2, h.version), hRev);
    SplitFixed(BigEndian(8, g.revision), gID, BigEndian(8, h.revision), hID);
    Widths();
    BigEndianInRange(2, g.version);
    BigEndianInRange(2, h.version);
    BigEndianInRange(8, g.revision);
    BigEndianInRange(8, h.revision);
    SplitField(g.storeID, gCred, h.storeID, hCred);
    SplitField(g.kek.credentialID, gSalt, h.kek.credentialID, hSalt);
    SplitField(g.kek.salt, gRP, h.kek.salt, hRP);
    assert |gRP| == 4 + |g.kek.rpID| && |hRP| == 4 + |h.kek.rpID|;
    assert gRP + [] == gRP && hRP + [] == hRP;
    SplitField(g.kek.rpID, [], h.kek.rpID, []);
  }

  /** What validateHeader asks of the authenticated fields, with credential ids of
      at most `bound` bytes. */
  predicate Fits(h: Header, bound: nat) {
    && h.version == FORMAT_VERSION && h.revision != 0 && |h.storeID| == STORE_ID_SIZE
    && ValidateKEKReference(h.kek).Ok? && |h.kek.credentialID| <= bound
  }

  ghost predicate InjectiveUpTo(bound: nat) {
    forall g: Header, h: Header ::
      Fits(g, bound) && Fits(h, bound) && HeaderAAD(g) == HeaderAAD(h) ==> SameIdentity(g, h)
  }

  lemma NonBlank(s: Bytes)
    requires s != [] && s[0] == 120
    ensures TrimSpace(s) != []
  {
    BlankIff(s);
    assert LeadingSpace(s, 0) == 0;
  }

  /** The length prefix of longCred reads as 1, so the rest of it passes for the
      salt field and the beginning of a long RP id. */
  lemma SwallowedFields(cred: Bytes, salt: Bytes, rp: Bytes, fill: Bytes)
    requires |cred| == 1 && |fill| + |LengthPrefixed(salt)| + 4 == Pow256(4)
    ensures
      var longRP := fill + (LengthPrefixed(salt) + LengthPrefixed(rp));
      var longCred := cred + (LengthPrefixed(salt) + (BigEndian(4, |longRP|) + fill));
      && |longCred| == 1 + Pow256(4)
      && LengthPrefixed(longCred) + (LengthPrefixed(salt) + LengthPrefixed(rp))
         == LengthPrefixed(cred) + (LengthPrefixed(salt) + LengthPrefixed(longRP))
  {
    var s, t, one := LengthPrefixed(salt), LengthPrefixed(rp), BigEndian(4, 1);
    var longRP := fill + (s + t);
    var size := BigEndian(4, |longRP|);
    var longCred := cred + (s + (size + fill));
    BigEndianWraps(4, 1);
    assert LengthPrefixed(longCred) == one + longCred;
    assert LengthPrefixed(cred) == one + cred;
    Reassociate(one, cred, s, size, fill, s + t);
  }

  lemma Reassociate(a: Bytes, b: Bytes, c: Bytes, d: Bytes, e: Bytes, f: Bytes)
    ensures (a + (b + (c + (d + e)))) + f == (a + b) + (c + (d + (e + f)))
  {
  }

  function Repeat(n: nat, b: byte): (s: Bytes)
    ensures |s| == n
    ensures forall i :: 0 <= i < n ==> s[i] == b
  {
    seq(n, _ => b)
  }

  lemma SameTailSameAAD(g: Header, h: Header)
    requires g.version == h.version && g.revision == h.revision && g.storeID == h.storeID
    requires KEKFields(g.kek) == KEKFields(h.kek)
    ensures HeaderAAD(g) == HeaderAAD(h)
  {
  }

  /** Two valid KEK references with one encoding, once a credential id may take
      2^32 + 1 bytes. */
  lemma KEKTailCollision(salt: Bytes, cred: Bytes, rp: Bytes, fill: Bytes) returns (a: KEKReference, b: KEKReference)
    requires |salt| == SALT_SIZE && |cred| == 1 && rp != [] && rp[0] == 120
    requires |fill| == MAX_UINT32 + 1 - 40 && fill[0] == 120
    ensures ValidateKEKReference(a).Ok? && |a.credentialID| == MAX_UINT32 + 2
    ensures ValidateKEKReference(b).Ok? && |b.credentialID| == 1
    ensures KEKFields(a) == KEKFields(b)
  {
    assert Pow256(4) == MAX_UINT32 + 1 by { Widths(); }
    SwallowedFields(cred, salt, rp, fill);
    var longRP := fill + (LengthPrefixed(salt) + LengthPrefixed(rp));
    var longCred := cred + (LengthPrefixed(salt) + (BigEndian(4, |longRP|) + fill));
    assert TrimSpace(rp) != [] by { NonBlank(rp); }
    assert TrimSpace(longRP) != [] by { NonBlank(longRP); }
    a, b := KEKReference(longCred, salt, rp), KEKReference(cred, salt, longRP);
  }

  lemma AmbiguousAboveWindow(bound: nat)
    requires bound > MAX_UINT32 + 1
    ensures !InjectiveUpTo(bound)
  {
    var a, b := KEKTailCollision(Repeat(SALT_SIZE, 0), Repeat(1, 7), Repeat(1, 120), Repeat(MAX_UINT32 + 1 - 40, 120));
    var id, wrapped := Repeat(STORE_ID_SIZE, 0), Blob(FORMAT_VERSION, [], [], Aead.Junk([]));
    var g, h := Header(FORMAT_VERSION, 1, id, a, wrapped), Header(FORMAT_VERSION, 1, id, b, wrapped);
    SameTailSameAAD(g, h);
    assert Fits(g, bound) && Fits(h, bound) && !SameIdentity(g, h);
  }

  /** Header associated data is unambiguous for exactly the credential id bounds up
      to 2^32; RP ids need no bound because they come last. */
  lemma HeaderAADInjectiveIff(bound: nat)
    ensures InjectiveUpTo(bound) <==> bound <= MAX_UINT32 + 1
  {
    if bound <= MAX_UINT32 + 1 {
      forall g: Header, h: Header | Fits(g, bound) && Fits(h, bound) && HeaderAAD(g) == HeaderAAD(h)
        ensures SameIdentity(g, h)
      {
        HeaderAADInjective(g, h);
      }
    } else {
      AmbiguousAboveWindow(bound);
    }
  }

  /** Record associated data is unambiguous for aliases of any length. */
  lemma RecordAADInjective(id1: Bytes, a1: Bytes, id2: Bytes, a2: Bytes)
    requires SameWindow(|id1|, |id2|) && RecordAAD(id1, a1) == RecordAAD(id2, a2)
    ensures id1 == id2 && a1 == a2
  {
    var x1, x2 := LengthPrefixed(id1) + LengthPrefixed(a1), LengthPrefixed(id2) + LengthPrefixed(a2);
    SplitField(RECORD_AAD_PREFIX, BigEndian(2, FORMAT_VERSION) + x1, RECORD_AAD_PREFIX, BigEndian(2, FORMAT_VERSION) + x2);
    SplitFixed(BigEndian(2, FORMAT_VERSION), x1, BigEndian(2, FORMAT_VERSION), x2);
    SplitField(id1, LengthPrefixed(a1), id2, LengthPrefixed(a2));
    assert |LengthPrefixed(a1)| == 4 + |a1| && |LengthPrefixed(a2)| == 4 + |a2|;
    assert LengthPrefixed(a1) + [] == LengthPrefixed(a1) && LengthPrefixed(a2) + [] == LengthPrefixed(a2);
    SplitField(a1, [], a2, []);
  }

  /** No record associated data starts as every header's does. */
  lemma RecordAADHasOwnPrefix(storeID: Bytes, alias: Bytes)
    ensures !IsPrefix(LengthPrefixed(HEADER_AAD_PREFIX), RecordAAD(storeID, alias))
  {
    var r, h := RecordAAD(storeID, alias), LengthPrefixed(HEADER_AAD_PREFIX);
    assert |HEADER_AAD_PREFIX| == 33 && |RECORD_AAD_PREFIX| == 36;
    if IsPrefix(h, r) {
      assert h + r[|h|..] == r;
      assert r == LengthPrefixed(RECORD_AAD_PREFIX) + r[40..];
      SplitField(HEADER_AAD_PREFIX, r[|h|..], RECORD_AAD_PREFIX, r[40..]);
    }
  }

  lemma HeaderAADHasPrefix(h: Header)
    ensures IsPrefix(LengthPrefixed(HEADER_AAD_PREFIX), HeaderAAD(h))
  {
  }

  /** A wrapped key can never pass for a record, nor a record for a wrapped key. */
  lemma AADDomainsDisjoint(h: Header, storeID: Bytes, alias: Bytes)
    ensures HeaderAAD(h) != RecordAAD(storeID, alias)
  {
    HeaderAADHasPrefix(h);
    RecordAADHasOwnPrefix(storeID, alias);
  }

  // ---------- Layout ----------

  /** v stands at offset at of data, behind its length in four bytes, high byte first. */
  predicate FieldAt(data: Bytes, at: nat, v: Bytes) {
    at + 4 + |v| <= |data| && data[at..at + 4] == Digits(4, |v|) && data[at + 4..at + 4 + |v|] == v
  }

  lemma PrefixedAt(before: Bytes, v: Bytes, after: Bytes)
    ensures FieldAt(before + (LengthPrefixed(v) + after), |before|, v)
  {
    BigEndianDigits(4, |v|);
    hide BigEndian, Digits;
    var data := before + (LengthPrefixed(v) + after);
    assert data[|before|..|before| + 4] == BigEndian(4, |v|);
  }

  /** The bytes of a record: version 1, credential id, salt, RP id, and nothing else. */
  lemma PayloadLayout(rec: Record)
    requires EncodeRecord(rec).Ok?
    ensures var data := EncodeRecord(rec).value;
      && |data| == 14 + |rec.credentialID| + |rec.salt| + |rec.rpID| && data[..2] == [0, 1]
      && FieldAt(data, 2, rec.credentialID)
      && FieldAt(data, 6 + |rec.credentialID|, rec.salt)
      && FieldAt(data, 10 + |rec.credentialID| + |rec.salt|, rec.rpID)
  {
    hide LengthPrefixed, FieldAt;
    var data := EncodeRecord(rec).value;
    var v, id, salt, rp := BigEndian(2, 1), LengthPrefixed(rec.credentialID), LengthPrefixed(rec.salt), LengthPrefixed(rec.rpID);
    PrefixedSizes(rec.credentialID, rec.salt, rec.rpID);
    assert v == [0, 1];
    PrefixedAt(v, rec.credentialID, salt + rp);
    assert data == (v + id) + (salt + rp);
    PrefixedAt(v + id, rec.salt, rp);
    assert data == (v + id + salt) + (rp + []);
    PrefixedAt(v + id + salt, rec.rpID, []);
  }

  lemma PrefixedSizes(a: Bytes, b: Bytes, c: Bytes)
    ensures |LengthPrefixed(a)| == 4 + |a| && |LengthPrefixed(b)| == 4 + |b| && |LengthPrefixed(c)| == 4 + |c|
  {
  }

  /** The associated data of a record: its label, version 1, store id and alias. */
  lemma RecordAADLayout(storeID: Bytes, alias: Bytes)
    ensures var data := RecordAAD(storeID, alias);
      && |data| == 50 + |storeID| + |alias|
      && FieldAt(data, 0, Ascii("hmacsecret/encrypted-store/record/v1")) && data[40..42] == [0, 1]
      && FieldAt(data, 42, storeID) && FieldAt(data, 46 + |storeID|, alias)
  {
    hide LengthPrefixed, FieldAt;
    var data := RecordAAD(storeID, alias);
    var p, v, id, name := LengthPrefixed(RECORD_AAD_PREFIX), BigEndian(2, 1), LengthPrefixed(storeID), LengthPrefixed(alias);
    PrefixedSizes(RECORD_AAD_PREFIX, storeID, alias);
    assert |RECORD_AAD_PREFIX| == 36 && v == [0, 1];
    assert data == [] + (p + (v + (id + name)));
    PrefixedAt([], RECORD_AAD_PREFIX, v + (id + name));
    assert data == (p + v) + (id + name);
    PrefixedAt(p + v, storeID, name);
    assert data == (p + v + id) + (name + []);
    PrefixedAt(p + v + id, alias, []);
    assert data[40..42] == v;
  }

  function KEKFields(ref: KEKReference): Bytes {
    LengthPrefixed(ref.credentialID) + (LengthPrefixed(ref.salt) + LengthPrefixed(ref.rpID))
  }

  lemma KEKLayout(before: Bytes, ref: KEKReference)
    ensures var data, k := before + KEKFields(ref), |before|;
      && |data| == k + 12 + |ref.credentialID| + |ref.salt| + |ref.rpID|
      && FieldAt(data, k, ref.credentialID) && FieldAt(data, k + 4 + |ref.credentialID|, ref.salt)
      && FieldAt(data, k + 8 + |ref.credentialID| + |ref.salt|, ref.rpID)
  {
    hide LengthPrefixed, FieldAt;
    var data := before + KEKFields(ref);
    var cred, salt, rp := LengthPrefixed(ref.credentialID), LengthPrefixed(ref.salt), LengthPrefixed(ref.rpID);
    PrefixedSizes(ref.credentialID, ref.salt, ref.rpID);
    PrefixedAt(before, ref.credentialID, salt + rp);
    assert data == (before + cred) + (salt + rp);
    PrefixedAt(before + cred, ref.salt, rp);
    assert data == (before + cred + salt) + (rp + []);
    PrefixedAt(before + cred + salt, ref.rpID, []);
  }

  /** The associated data of a header: its label, version, revision, store id and KEK
      reference. */
  lemma HeaderAADLayout(h: Header)
    ensures var data := HeaderAAD(h);
      var k := 51 + |h.storeID|;
      && |data| == k + 12 + |h.kek.credentialID| + |h.kek.salt| + |h.kek.rpID|
      && FieldAt(data, 0, Ascii("hmacsecret/encrypted-store/dek/v1"))
      && data[37..39] == Digits(2, h.version) && data[39..47] == Digits(8, h.revision)
      && FieldAt(data, 47, h.storeID) && FieldAt(data, k, h.kek.credentialID)
      && FieldAt(data, k + 4 + |h.kek.credentialID|, h.kek.salt)
      && FieldAt(data, k + 8 + |h.kek.credentialID| + |h.kek.salt|, h.kek.rpID)
  {
    BigEndianDigits(2, h.version);
    BigEndianDigits(8, h.revision);
    hide LengthPrefixed, FieldAt, BigEndian, Digits, KEKFields;
    var data := HeaderAAD(h);
    var p, v, r := LengthPrefixed(HEADER_AAD_PREFIX), BigEndian(2, h.version), BigEndian(8, h.revision);
    var id, rest := LengthPrefixed(h.storeID), KEKFields(h.kek);
    PrefixedSizes(HEADER_AAD_PREFIX, h.storeID, []);
    assert |HEADER_AAD_PREFIX| == 33;
    HeaderParts(h);
    Regrouped(p, v, r, id, rest);
    PrefixedAt([], HEADER_AAD_PREFIX, v + r + id + rest);
    PrefixedAt(p + v + r, h.storeID, rest);
    KEKLayout(p + v + r + id, h.kek);
  }

  lemma Regrouped(p: Bytes, v: Bytes, r: Bytes, id: Bytes, rest: Bytes)
    ensures var data := p + v + r + id + rest;
      && data == [] + (p + (v + r + id + rest)) && data == (p + v + r) + (id + rest)
      && data[|p|..|p| + |v|] == v && data[|p| + |v|..|p| + |v| + |r|] == r
  {
  }

  lemma HeaderParts(h: Header)
    ensures HeaderAAD(h) == LengthPrefixed(HEADER_AAD_PREFIX) + BigEndian(2, h.version) + BigEndian(8, h.revision)
                            + LengthPrefixed(h.storeID) + KEKFields(h.kek)
  {
    hide LengthPrefixed, BigEndian;
  }

  // ---------- Record payload ----------

  function EncodeRecord(rec: Record): Result<Bytes> {
    if |rec.credentialID| > MAX_PAYLOAD_FIELD || |rec.rpID| > MAX_PAYLOAD_FIELD then Err(InvalidRecord)
    else Ok(BigEndian(2, FORMAT_VERSION)
            + (LengthPrefixed(rec.credentialID) + (LengthPrefixed(rec.salt) + LengthPrefixed(rec.rpID))))
  }

  /** payloadReader.bytes on the unread data: the field and what is left. */
  function ReadField(data: Bytes): Result<(Bytes, Bytes)> {
    if |data| < 4 then Err(InvalidRecord)
    else
      var size := FromBigEndian(data[..4]);
      if size > MAX_PAYLOAD_FIELD || size > |data| - 4 then Err(InvalidRecord)
      else Ok((data[4..4 + size], data[4 + size..]))
  }

  /** The three fields of a payload, and nothing after them. */
  function DecodeFields(alias: Bytes, data: Bytes): Result<Record> {
    var (credentialID, afterID) :- ReadField(data);
    var (salt, afterSalt) :- ReadField(afterID);
    var (rpID, rest) :- ReadField(afterSalt);
    if rest != [] then Err(InvalidRecord) else Ok(Record(alias, credentialID, salt, rpID))
  }

  function DecodeRecord(alias: Bytes, data: Bytes): Result<Record> {
    if |data| < 2 then Err(InvalidRecord)
    else if FromBigEndian(data[..2]) != FORMAT_VERSION then Err(UnsupportedFormat)
    else DecodeFields(alias, data[2..])
  }

  /** A field read undoes exactly one length-prefixed append, both ways. */
  lemma ReadFieldIff(data: Bytes, v: Bytes, rest: Bytes)
    ensures ReadField(data) == Ok((v, rest)) <==> data == LengthPrefixed(v) + rest && |v| <= MAX_PAYLOAD_FIELD
  {
    Widths();
    if data == LengthPrefixed(v) + rest && |v| <= MAX_PAYLOAD_FIELD {
      assert data[..4] == BigEndian(4, |v|);
      BigEndianInRange(4, |v|);
      assert data[4..4 + |v|] == v;
      assert data[4 + |v|..] == rest;
    }
    if ReadField(data) == Ok((v, rest)) {
      BigEndianOfFromBigEndian(data[..4]);
      assert data == data[..4] + (data[4..4 + |v|] + data[4 + |v|..]);
    }
  }

  /** Decoding returns a record that encoding accepted if and only if its salt is
      within the reader's field limit, which encoding does not check. */
  lemma DecodeAfterEncode(rec: Record)
    requires EncodeRecord(rec).Ok?
    ensures DecodeRecord(rec.alias, EncodeRecord(rec).value) == Ok(rec) <==> |rec.salt| <= MAX_PAYLOAD_FIELD
  {
    var data := EncodeRecord(rec).value;
    var afterSalt := LengthPrefixed(rec.rpID);
    var afterID := LengthPrefixed(rec.salt) + afterSalt;
    Widths();
    BigEndianInRange(2, FORMAT_VERSION);
    assert data[..2] == BigEndian(2, FORMAT_VERSION);
    assert data[2..] == LengthPrefixed(rec.credentialID) + afterID;
    ReadFieldIff(data[2..], rec.credentialID, afterID);
    if |rec.salt| <= MAX_PAYLOAD_FIELD {
      ReadFieldIff(afterID, rec.salt, afterSalt);
      assert afterSalt + [] == afterSalt;
      ReadFieldIff(afterSalt, rec.rpID, []);
    }
  }

  /** No record has two encodings: whatever decodes, re-encodes to the same bytes. */
  lemma EncodeAfterDecode(alias: Bytes, data: Bytes)
    requires DecodeRecord(alias, data).Ok?
    ensures EncodeRecord(DecodeRecord(alias, data).value) == Ok(data)
  {
    var rec := DecodeRecord(alias, data).value;
    BigEndianOfFromBigEndian(data[..2]);
    assert data == data[..2] + data[2..];
    var afterID := ReadField(data[2..]).value.1;
    var afterSalt := ReadField(afterID).value.1;
    ReadFieldIff(data[2..], rec.credentialID, afterID);
    ReadFieldIff(afterID, rec.salt, afterSalt);
    ReadFieldIff(afterSalt, rec.rpID, []);
    assert afterSalt == LengthPrefixed(rec.rpID);
  }
}
