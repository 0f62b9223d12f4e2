/** pkg/store/sqlite as an EnvelopeBackend: a one-row header table with its own
    revision column, and a table of envelopes keyed by alias. */
module Sqlite {
  import opened ByteStrings
  import Text
  import opened Storage
  import opened BackendContract

  /** database/sql refuses to bind an unsigned value with the top bit set. */
  const MAX_BOUND_INTEGER: nat := 0x7FFF_FFFF_FFFF_FFFF

  datatype HeaderRow = HeaderRow(revision: uint64, body: Header)

  function BoundCreateHeader(b: Backend, h: Header): (Backend, Result<()>) {
    if h.revision > MAX_BOUND_INTEGER then (b, Err(Unavailable)) else BackendContract.CreateHeader(b, h)
  }

  function BoundCompareAndSwapHeader(b: Backend, expected: uint64, next: Header): (Backend, Result<()>) {
    if next.revision > MAX_BOUND_INTEGER || expected > MAX_BOUND_INTEGER then (b, Err(Unavailable))
    else BackendContract.CompareAndSwapHeader(b, expected, next)
  }

  class SqliteStore {
    var encryptionHeader: Option<HeaderRow>
    var encryptedCredentials: map<Bytes, Blob>

    /** The revision column always repeats the revision in the body. */
    ghost predicate Valid()
      reads this
    {
      encryptionHeader.Some? ==> encryptionHeader.value.revision == encryptionHeader.value.body.revision
    }

    ghost function Contents(): Backend
      reads this
    {
      Backend(if encryptionHeader.Some? then Some(encryptionHeader.value.body) else None, encryptedCredentials)
    }

    constructor ()
      ensures Valid() && Contents() == EMPTY
    {
      encryptionHeader := None;
      encryptedCredentials := map[];
    }

    method CreateHeader(header: Header) returns (r: Result<()>)
      requires Valid()
      modifies this
      ensures Valid() && (Contents(), r) == BoundCreateHeader(old(Contents()), header)
    {
      var body := PersistHeader(header);
      if header.revision > MAX_BOUND_INTEGER {
        return Err(Unavailable);
      }
      if encryptionHeader.Some? {
        return Err(Exists);
      }
      encryptionHeader := Some(HeaderRow(header.revision, body));
      return Ok(());
    }

    /** Never reports a mismatch between the column and the body. */
    method LoadHeader() returns (r: Result<Header>)
      requires Valid()
      ensures r == BackendContract.LoadHeader(Contents())
    {
      if encryptionHeader.None? {
        return Err(NotInitialized);
      }
      var row := encryptionHeader.value;
      if row.body.revision != row.revision {
        assert false;
        return Err(InvalidRecord);
      }
      return Ok(row.body);
    }

    method CompareAndSwapHeader(expected: uint64, next: Header) returns (r: Result<()>)
      requires Valid()
      modifies this
      ensures Valid() && (Contents(), r) == BoundCompareAndSwapHeader(old(Contents()), expected, next)
    {
      var body := PersistHeader(next);
      if next.revision > MAX_BOUND_INTEGER || expected > MAX_BOUND_INTEGER {
        return Err(Unavailable);
      }
      var affected := 0;
      if encryptionHeader.Some? && encryptionHeader.value.revision == expected {
        encryptionHeader := Some(HeaderRow(next.revision, body));
        affected := 1;
      }
      if affected != 0 {
        return Ok(());
      }
      if encryptionHeader.None? {
        return Err(NotInitialized);
      }
      return Err(Conflict);
    }

    method PutEnvelope(alias: Bytes, blob: Blob) returns (r: Result<()>)
      requires Valid()
      modifies this
      ensures Valid() && (Contents(), r) == BackendContract.PutEnvelope(old(Contents()), alias, blob)
    {
      var name := Text.TrimSpace(alias);
      var valid := ValidateAlias(name);
      if valid.Err? {
        return Err(valid.error);
      }
      if name in encryptedCredentials {
        return Err(Exists);
      }
      encryptedCredentials := encryptedCredentials[name := blob];
      return Ok(());
    }

    method GetEnvelope(alias: Bytes) returns (r: Result<Blob>)
      requires Valid()
      ensures r == BackendContract.GetEnvelope(Contents(), alias)
    {
      var name := Text.TrimSpace(alias);
      var valid := ValidateAlias(name);
      if valid.Err? {
        return Err(valid.error);
      }
      if name !in encryptedCredentials {
        return Err(NotFound);
      }
      return Ok(encryptedCredentials[name]);
    }

    method DeleteEnvelope(alias: Bytes) returns (r: Result<()>)
      requires Valid()
      modifies this
      ensures Valid() && (Contents(), r) == BackendContract.DeleteEnvelope(old(Contents()), alias)
    {
      var name := Text.TrimSpace(alias);
      var valid := ValidateAlias(name);
      if valid.Err? {
        return Err(valid.error);
      }
      var affected := if name in encryptedCredentials then 1 else 0;
      encryptedCredentials := encryptedCredentials - {name};
      if affected == 0 {
        assert encryptedCredentials == old(encryptedCredentials);
        return Err(NotFound);
      }
      return Ok(());
    }

    method HasEnvelope(alias: Bytes) returns (r: Result<bool>)
      requires Valid()
      ensures r == BackendContract.HasEnvelope(Contents(), alias)
    {
      var name := Text.TrimSpace(alias);
      var valid := ValidateAlias(name);
      if valid.Err? {
        return Err(valid.error);
      }
      return Ok(name in encryptedCredentials);
    }

    /** SELECT alias ... ORDER BY alias, one row at a time. */
    method ListEnvelopes() returns (aliases: seq<Bytes>)
      requires Valid()
      ensures aliases == BackendContract.ListEnvelopes(Contents())
      ensures StrictlyAscending(aliases) && forall a :: a in aliases <==> a in Contents().envelopes
    {
      var rows := Ascending(encryptedCredentials.Keys);
      AscendingIsSorted(encryptedCredentials.Keys);
      aliases := [];
      for i := 0 to |rows|
        invariant aliases == rows[..i]
      {
        aliases := aliases + [rows[i]];
      }
      assert rows[..|rows|] == rows;
    }
  }
}
