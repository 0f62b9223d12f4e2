/** How the calls of an EnvelopeBackend answer each other: what each of them sees of
    what another has done, and with which error it refuses. */
module BackendLaws {
  import opened ByteStrings
  import opened Text
  import opened Storage
  import opened BackendContract
  import opened Unicode

  /** A blank name is refused everywhere and nothing is done. */
  lemma BlankNames(b: Backend, raw: Bytes, blob: Blob)
    requires Blank(raw)
    ensures PutEnvelope(b, raw, blob) == (b, Err(InvalidAlias)) && DeleteEnvelope(b, raw) == (b, Err(InvalidAlias))
    ensures GetEnvelope(b, raw) == Err(InvalidAlias) && HasEnvelope(b, raw) == Err(InvalidAlias)
  {
    BlankTrims(raw);
    hide TrimSpace, Blank;
  }

  /** A Put goes through exactly where Get finds nothing; Get finds its blob from then
      on; a Delete undoes it; and no other name notices either of them. */
  lemma PutGetDelete(b: Backend, raw: Bytes, other: Bytes, blob: Blob)
    requires !Blank(raw) && !Blank(other)
    ensures var (p, put) := PutEnvelope(b, raw, blob);
      var (d, del) := DeleteEnvelope(p, raw);
      && p.header == b.header == d.header
      && (put == Ok(()) <==> GetEnvelope(b, raw) == Err(NotFound))
      && (put != Ok(()) ==> put == Err(Exists) && p == b)
      && GetEnvelope(p, raw) == (if put.Ok? then Ok(blob) else GetEnvelope(b, raw))
      && del == Ok(()) && (put.Ok? ==> d == b)
      && GetEnvelope(d, raw) == Err(NotFound) && DeleteEnvelope(d, raw) == (d, Err(NotFound))
      && (TrimSpace(other) == TrimSpace(raw) ==> GetEnvelope(p, other) == GetEnvelope(p, raw))
      && (TrimSpace(other) != TrimSpace(raw) ==> GetEnvelope(p, other) == GetEnvelope(b, other) == GetEnvelope(d, other))
  {
    BlankTrims(raw);
    BlankTrims(other);
    hide TrimSpace, Blank;
    var key := TrimSpace(raw);
    if key !in b.envelopes {
      assert b.envelopes[key := blob] - {key} == b.envelopes;
    }
  }

  /** Get, Has and List tell the same: the stored names, in order, and their blobs. */
  lemma ReadsAgree(b: Backend, raw: Bytes)
    requires !Blank(raw)
    ensures HasEnvelope(b, raw) == Ok(GetEnvelope(b, raw).Ok?)
    ensures GetEnvelope(b, raw).Ok? <==> TrimSpace(raw) in ListEnvelopes(b)
    ensures GetEnvelope(b, raw).Err? ==> GetEnvelope(b, raw).error == NotFound
    ensures StrictlyAscending(ListEnvelopes(b)) && |ListEnvelopes(b)| == |b.envelopes.Keys|
    ensures GetEnvelope(EMPTY, raw) == Err(NotFound) && ListEnvelopes(EMPTY) == []
  {
    BlankTrims(raw);
    AscendingIsSorted(b.envelopes.Keys);
    hide TrimSpace, Blank, Ascending;
    assert EMPTY.envelopes.Keys == {};
  }

  /** What is read of a header that was written: all of it, but for strings that are
      not UTF-8. */
  ghost predicate ReadsAs(written: Header, read: Header) {
    && read.version == written.version && read.revision == written.revision && read.storeID == written.storeID
    && read.kek.credentialID == written.kek.credentialID && read.kek.salt == written.kek.salt
    && (read.kek.rpID == written.kek.rpID <==> ValidUtf8(written.kek.rpID))
    && read.wrappedDEK.version == written.wrappedDEK.version
    && (read.wrappedDEK.algorithm == written.wrappedDEK.algorithm <==> ValidUtf8(written.wrappedDEK.algorithm))
    && read.wrappedDEK.nonce == written.wrappedDEK.nonce && read.wrappedDEK.ciphertext == written.wrappedDEK.ciphertext
  }

  lemma WrittenHeader(h: Header)
    ensures ReadsAs(h, PersistHeader(h))
  {
    JsonLosslessIffValid(h.kek.rpID);
    JsonLosslessIffValid(h.wrappedDEK.algorithm);
    hide JsonRoundTrip, ValidUtf8;
  }

  /** A header is created once, where none can be loaded, and is loaded from then on. */
  lemma CreateThenLoad(b: Backend, h: Header, again: Header)
    ensures LoadHeader(EMPTY) == Err(NotInitialized)
    ensures LoadHeader(b).Err? ==> LoadHeader(b).error == NotInitialized
    ensures var (c, r) := BackendContract.CreateHeader(b, h);
      && c.envelopes == b.envelopes && LoadHeader(c).Ok?
      && (r == Ok(()) <==> LoadHeader(b).Err?) && (r != Ok(()) ==> r == Err(Exists) && c == b)
      && (r == Ok(()) ==> ReadsAs(h, LoadHeader(c).value))
      && BackendContract.CreateHeader(c, again) == (c, Err(Exists))
  {
    WrittenHeader(h);
    hide ReadsAs, PersistHeader;
  }

  /** A swap replaces the header if and only if the one that is loaded has the expected
      revision; the same swap again then conflicts unless it kept the revision. */
  lemma SwapThenLoad(b: Backend, expected: uint64, next: Header)
    ensures var (s, r) := BackendContract.CompareAndSwapHeader(b, expected, next);
      && s.envelopes == b.envelopes
      && (r == Err(NotInitialized) <==> LoadHeader(b).Err?)
      && (r == Err(Conflict) <==> LoadHeader(b).Ok? && LoadHeader(b).value.revision != expected)
      && (r == Ok(()) <==> LoadHeader(b).Ok? && LoadHeader(b).value.revision == expected)
      && (r != Ok(()) ==> s == b)
      && (r == Ok(()) ==> LoadHeader(s).Ok? && ReadsAs(next, LoadHeader(s).value))
      && (r == Ok(()) && next.revision != expected ==>
            BackendContract.CompareAndSwapHeader(s, expected, next) == (s, Err(Conflict)))
  {
    WrittenHeader(next);
    hide ReadsAs;
  }
}
