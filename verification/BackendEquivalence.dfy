/** Pebble and SQLite as interchangeable EnvelopeBackends. */
module BackendEquivalence {
  import opened ByteStrings
  import Text
  import opened Storage
  import opened BackendContract
  import opened Pebble
  import opened Sqlite

  datatype Call =
    | CallCreateHeader(header: Header)
    | CallLoadHeader
    | CallCompareAndSwap(expected: uint64, next: Header)
    | CallPut(alias: Bytes, blob: Blob)
    | CallGet(alias: Bytes)
    | CallDelete(alias: Bytes)
    | CallHas(alias: Bytes)
    | CallList

  datatype Answer =
    | Status(status: Result<()>)
    | HeaderAnswer(header: Result<Header>)
    | BlobAnswer(blob: Result<Blob>)
    | BoolAnswer(present: Result<bool>)
    | ListAnswer(aliases: seq<Bytes>)

  function Respond(b: Backend, c: Call): (Backend, Answer) {
    match c
    case CallCreateHeader(h) => var (b', r) := BackendContract.CreateHeader(b, h); (b', Status(r))
    case CallLoadHeader => (b, HeaderAnswer(LoadHeader(b)))
    case CallCompareAndSwap(e, h) => var (b', r) := BackendContract.CompareAndSwapHeader(b, e, h); (b', Status(r))
    case CallPut(a, blob) => var (b', r) := PutEnvelope(b, a, blob); (b', Status(r))
    case CallGet(a) => (b, BlobAnswer(GetEnvelope(b, a)))
    case CallDelete(a) => var (b', r) := DeleteEnvelope(b, a); (b', Status(r))
    case CallHas(a) => (b, BoolAnswer(HasEnvelope(b, a)))
    case CallList => (b, ListAnswer(ListEnvelopes(b)))
  }

  /** Pebble writes envelopes as JSON too. */
  function PebbleRespond(b: Backend, c: Call): (Backend, Answer) {
    Respond(b, if c.CallPut? then c.(blob := PersistBlob(c.blob)) else c)
  }

  function SqliteRespond(b: Backend, c: Call): (Backend, Answer) {
    match c
    case CallCreateHeader(h) => var (b', r) := Sqlite.BoundCreateHeader(b, h); (b', Status(r))
    case CallCompareAndSwap(e, h) => var (b', r) := Sqlite.BoundCompareAndSwapHeader(b, e, h); (b', Status(r))
    case _ => Respond(b, c)
  }

  /** Revisions fit SQLite's signed column and algorithm names survive JSON. */
  predicate Portable(c: Call) {
    match c
    case CallCreateHeader(h) => h.revision <= MAX_BOUND_INTEGER
    case CallCompareAndSwap(e, h) => e <= MAX_BOUND_INTEGER && h.revision <= MAX_BOUND_INTEGER
    case CallPut(a, blob) => Text.TrimSpace(a) == [] || Text.ValidUtf8(blob.algorithm)
    case _ => true
  }

  /** A call tells the two backends apart in some state unless it is portable. */
  lemma PortableIff(c: Call)
    ensures Portable(c) <==> forall b :: PebbleRespond(b, c) == SqliteRespond(b, c)
  {
    if c.CallPut? {
      Text.JsonLosslessIffValid(c.blob.algorithm);
      var key := Text.TrimSpace(c.alias);
      if !Portable(c) {
        var p, q := PebbleRespond(EMPTY, c).0, SqliteRespond(EMPTY, c).0;
        assert p.envelopes[key] != q.envelopes[key];
      }
    } else if !Portable(c) {
      assert PebbleRespond(EMPTY, c).1 != SqliteRespond(EMPTY, c).1;
    }
  }

  /** SQLite refuses headers from revision 2^63 on, which Pebble stores, and nothing else. */
  lemma SqliteRevisionLimit(b: Backend, h: Header, expected: uint64)
    ensures var limit := 0x8000_0000_0000_0000;
      && SqliteRespond(b, CallCreateHeader(h)) ==
           (if h.revision >= limit then (b, Status(Err(Unavailable))) else PebbleRespond(b, CallCreateHeader(h)))
      && SqliteRespond(b, CallCompareAndSwap(expected, h)) ==
           (if h.revision >= limit || expected >= limit then (b, Status(Err(Unavailable)))
            else PebbleRespond(b, CallCompareAndSwap(expected, h)))
      && (b.header.None? ==> PebbleRespond(b, CallCreateHeader(h)).1 == Status(Ok(())))
  {
  }

  method PebblePerform(p: PebbleStore, c: Call) returns (a: Answer)
    requires p.Valid()
    modifies p
    ensures p.Valid() && (p.Contents(), a) == PebbleRespond(old(p.Contents()), c)
  {
    hide WellTyped, View;
    match c
    case CallCreateHeader(h) => var r := p.CreateHeader(h); a := Status(r);
    case CallLoadHeader => var r := p.LoadHeader(); a := HeaderAnswer(r);
    case CallCompareAndSwap(e, h) => var r := p.CompareAndSwapHeader(e, h); a := Status(r);
    case CallPut(n, blob) => var r := p.PutEnvelope(n, blob); a := Status(r);
    case CallGet(n) => var r := p.GetEnvelope(n); a := BlobAnswer(r);
    case CallDelete(n) => var r := p.DeleteEnvelope(n); a := Status(r);
    case CallHas(n) => var r := p.HasEnvelope(n); a := BoolAnswer(r);
    case CallList => var r := p.ListEnvelopes(); a := ListAnswer(r);
  }

  method SqlitePerform(q: SqliteStore, c: Call) returns (a: Answer)
    requires q.Valid()
    modifies q
    ensures q.Valid() && (q.Contents(), a) == SqliteRespond(old(q.Contents()), c)
  {
    match c
    case CallCreateHeader(h) => var r := q.CreateHeader(h); a := Status(r);
    case CallLoadHeader => var r := q.LoadHeader(); a := HeaderAnswer(r);
    case CallCompareAndSwap(e, h) => var r := q.CompareAndSwapHeader(e, h); a := Status(r);
    case CallPut(n, blob) => var r := q.PutEnvelope(n, blob); a := Status(r);
    case CallGet(n) => var r := q.GetEnvelope(n); a := BlobAnswer(r);
    case CallDelete(n) => var r := q.DeleteEnvelope(n); a := Status(r);
    case CallHas(n) => var r := q.HasEnvelope(n); a := BoolAnswer(r);
    case CallList => var r := q.ListEnvelopes(); a := ListAnswer(r);
  }

  /** Any sequence of portable calls gets the same answers from both databases and
      leaves them with the same contents. */
  method RunBoth(p: PebbleStore, q: SqliteStore, calls: seq<Call>) returns (fromPebble: seq<Answer>, fromSqlite: seq<Answer>)
    requires p.Valid() && q.Valid() && p.Contents() == q.Contents()
    requires forall c :: c in calls ==> Portable(c)
    modifies p, q
    ensures p.Valid() && q.Valid() && p.Contents() == q.Contents()
    ensures |fromPebble| == |calls| && fromPebble == fromSqlite
  {
    hide WellTyped, View, PebbleRespond, SqliteRespond, Portable;
    fromPebble, fromSqlite := [], [];
    for i := 0 to |calls|
      invariant p.Valid() && q.Valid() && p.Contents() == q.Contents()
      invariant |fromPebble| == i && fromPebble == fromSqlite
    {
      PortableIff(calls[i]);
      var a := PebblePerform(p, calls[i]);
      var b := SqlitePerform(q, calls[i]);
      fromPebble, fromSqlite := fromPebble + [a], fromSqlite + [b];
    }
  }
}
