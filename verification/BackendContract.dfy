/** The EnvelopeBackend contract as functions on one abstract state: an optional
    header and a map from trimmed aliases to envelopes. */
module BackendContract {
  import opened ByteStrings
  import opened Text
  import opened Storage

  datatype Backend = Backend(header: Option<Header>, envelopes: map<Bytes, Blob>)

  const EMPTY: Backend := Backend(None, map[])

  /** A header after its JSON body has been written and read back. */
  function PersistHeader(h: Header): Header {
    h.(kek := h.kek.(rpID := JsonRoundTrip(h.kek.rpID)), wrappedDEK := PersistBlob(h.wrappedDEK))
  }

  function PersistBlob(b: Blob): Blob {
    b.(algorithm := JsonRoundTrip(b.algorithm))
  }

  function CreateHeader(b: Backend, h: Header): (Backend, Result<()>) {
    if b.header.Some? then (b, Err(Exists)) else (b.(header := Some(PersistHeader(h))), Ok(()))
  }

  function LoadHeader(b: Backend): Result<Header> {
    if b.header.Some? then Ok(b.header.value) else Err(NotInitialized)
  }

  function CompareAndSwapHeader(b: Backend, expected: uint64, next: Header): (Backend, Result<()>) {
    if b.header.None? then (b, Err(NotInitialized))
    else if b.header.value.revision != expected then (b, Err(Conflict))
    else (b.(header := Some(PersistHeader(next))), Ok(()))
  }

  function PutEnvelope(b: Backend, alias: Bytes, blob: Blob): (Backend, Result<()>) {
    var key := TrimSpace(alias);
    if ValidateAlias(key).Err? then (b, Err(ValidateAlias(key).error))
    else if key in b.envelopes then (b, Err(Exists))
    else (b.(envelopes := b.envelopes[key := blob]), Ok(()))
  }

  function GetEnvelope(b: Backend, alias: Bytes): Result<Blob> {
    var key := TrimSpace(alias);
    var _ :- ValidateAlias(key);
    if key in b.envelopes then Ok(b.envelopes[key]) else Err(NotFound)
  }

  function DeleteEnvelope(b: Backend, alias: Bytes): (Backend, Result<()>) {
    var key := TrimSpace(alias);
    if ValidateAlias(key).Err? then (b, Err(ValidateAlias(key).error))
    else if key !in b.envelopes then (b, Err(NotFound))
    else (b.(envelopes := b.envelopes - {key}), Ok(()))
  }

  function HasEnvelope(b: Backend, alias: Bytes): Result<bool> {
    var key := TrimSpace(alias);
    var _ :- ValidateAlias(key);
    Ok(key in b.envelopes)
  }

  function ListEnvelopes(b: Backend): seq<Bytes> {
    Ascending(b.envelopes.Keys)
  }
}
