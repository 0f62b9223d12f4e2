/** The store contract as a plain map from trimmed alias to normalised record, and
    what it says about whole histories of calls. */
module AliasMap {
  import opened ByteStrings
  import opened Text
  import opened Storage
  import Codec

  /** The calls of an encrypted store. */
  datatype Op =
    | Initialize(ref: KEKReference, kek: Key)
    | Unlock(kek: Key)
    | Lock
    | RotateKEK(next: KEKReference, nextKEK: Key)
    | ReadHeader
    | Put(rec: Record)
    | Get(alias: Bytes)
    | Delete(alias: Bytes)
    | Has(alias: Bytes)
    | List

  datatype Reply =
    | Success
    | Found(rec: Record)
    | Present(present: bool)
    | Aliases(aliases: seq<Bytes>)
    | HeaderIs(header: Header)
    | Failure(error: Error)

  type Records = map<Bytes, Record>

  predicate IsData(op: Op) {
    op.Put? || op.Get? || op.Delete? || op.Has? || op.List?
  }

  /** One call on the map. Put also keeps to the payload limits of the format. */
  function MapStep(m: Records, op: Op): (Records, Reply)
    requires IsData(op)
  {
    match op
    case Put(raw) =>
      var rec := Normalize(raw);
      if ValidateRecord(rec).Err? then (m, Failure(ValidateRecord(rec).error))
      else if |rec.credentialID| > Codec.MAX_PAYLOAD_FIELD || |rec.rpID| > Codec.MAX_PAYLOAD_FIELD then (m, Failure(InvalidRecord))
      else if rec.alias in m then (m, Failure(Exists))
      else (m[rec.alias := rec], Success)
    case Get(raw) =>
      var alias := TrimSpace(raw);
      if alias == [] then (m, Failure(InvalidAlias))
      else if alias in m then (m, Found(m[alias]))
      else (m, Failure(NotFound))
    case Delete(raw) =>
      var alias := TrimSpace(raw);
      if alias == [] then (m, Failure(InvalidAlias))
      else if alias in m then (m - {alias}, Success)
      else (m, Failure(NotFound))
    case Has(raw) =>
      var alias := TrimSpace(raw);
      if alias == [] then (m, Failure(InvalidAlias)) else (m, Present(alias in m))
    case List => (m, Aliases(Ascending(m.Keys)))
  }

  /** A completed data call: which thread made it and what it was told. */
  datatype Event = Event(thread: nat, op: Op, reply: Reply)

  type Events = seq<Event>

  predicate AllData(es: Events) {
    forall i :: 0 <= i < |es| ==> IsData(es[i].op)
  }

  /** The map after the calls of a history, one at a time. */
  function Contents(es: Events): Records
    requires AllData(es)
  {
    if es == [] then map[] else MapStep(Contents(es[..|es| - 1]), es[|es| - 1].op).0
  }

  /** Every call was answered as the plain map answers it at that point. */
  ghost predicate Legal(es: Events) {
    AllData(es) && forall i :: 0 <= i < |es| ==> es[i].reply == MapStep(Contents(es[..i]), es[i].op).1
  }

  lemma LegalExtension(es: Events, e: Event)
    requires Legal(es) && IsData(e.op) && e.reply == MapStep(Contents(es), e.op).1
    ensures Legal(es + [e]) && Contents(es + [e]) == MapStep(Contents(es), e.op).0
  {
    var fs := es + [e];
    assert fs[..|fs| - 1] == es;
    forall i | 0 <= i < |es| ensures fs[..i] == es[..i] {}
  }

  predicate Stores(e: Event, alias: Bytes) {
    e.op.Put? && e.reply == Success && TrimSpace(e.op.rec.alias) == alias
  }

  predicate Removes(e: Event, alias: Bytes) {
    e.op.Delete? && e.reply == Success && TrimSpace(e.op.alias) == alias
  }

  lemma OneMoreEvent(es: Events, k: nat)
    requires Legal(es) && k < |es|
    ensures AllData(es[..k]) && AllData(es[..k + 1])
    ensures Contents(es[..k + 1]) == MapStep(Contents(es[..k]), es[k].op).0
    ensures es[k].reply == MapStep(Contents(es[..k]), es[k].op).1
  {
    assert es[..k + 1][..k] == es[..k];
  }

  /** A call changes at most the alias it names: Put stores exactly when it reports
      success, Delete removes exactly when it does, nothing else moves. */
  lemma MapStepOnAlias(m: Records, e: Event, alias: Bytes)
    requires IsData(e.op) && e.reply == MapStep(m, e.op).1
    ensures var m' := MapStep(m, e.op).0;
      && (Stores(e, alias) ==> alias !in m && alias in m' && m'[alias] == Normalize(e.op.rec))
      && (Removes(e, alias) ==> alias in m && alias !in m')
      && (!Stores(e, alias) && !Removes(e, alias) ==>
            (alias in m <==> alias in m') && (alias in m ==> m'[alias] == m[alias]))
  {
    hide TrimSpace, ValidateRecord;
  }

  /** A stored record stays, unchanged, until its alias is removed. */
  lemma {:induction false} RecordStays(es: Events, i: nat, j: nat, alias: Bytes)
    requires Legal(es) && i < j <= |es| && Stores(es[i], alias)
    requires forall k :: i < k < j ==> !Removes(es[k], alias)
    ensures AllData(es[..j])
    ensures alias in Contents(es[..j]) && Contents(es[..j])[alias] == Normalize(es[i].op.rec)
    decreases j
  {
    hide MapStep;
    OneMoreEvent(es, j - 1);
    MapStepOnAlias(Contents(es[..j - 1]), es[j - 1], alias);
    if j > i + 1 {
      RecordStays(es, i, j - 1, alias);
    }
  }

  /** Read your writes, across anything that happens to other aliases. */
  lemma GetReturnsStored(es: Events, i: nat, j: nat, alias: Bytes)
    requires Legal(es) && i < j < |es| && Stores(es[i], alias)
    requires forall k :: i < k < j ==> !Removes(es[k], alias)
    requires es[j].op.Get? && TrimSpace(es[j].op.alias) == alias && alias != []
    ensures es[j].reply == Found(Normalize(es[i].op.rec))
  {
    RecordStays(es, i, j, alias);
    OneMoreEvent(es, j);
  }

  /** Between two successful Puts of an alias lies a successful Delete of it. */
  lemma PutsAreSeparated(es: Events, i: nat, j: nat, alias: Bytes)
    requires Legal(es) && i < j < |es| && Stores(es[i], alias) && Stores(es[j], alias)
    ensures exists k :: i < k < j && Removes(es[k], alias)
  {
    if forall k :: i < k < j ==> !Removes(es[k], alias) {
      RecordStays(es, i, j, alias);
      OneMoreEvent(es, j);
      assert false;
    }
  }

  /** Aliases are the trimmed, non-empty names of their records, all of them valid. */
  ghost predicate WellFormed(m: Records) {
    forall a :: a in m ==>
      a != [] && TrimSpace(a) == a && m[a].alias == a && Normalize(m[a]) == m[a] && ValidateRecord(m[a]).Ok?
  }

  lemma NormalizeIdempotent(rec: Record)
    ensures Normalize(Normalize(rec)) == Normalize(rec)
  {
    TrimSpaceIdempotent(rec.alias);
    TrimSpaceIdempotent(rec.rpID);
  }

  lemma MapStepWellFormed(m: Records, op: Op)
    requires IsData(op) && WellFormed(m)
    ensures WellFormed(MapStep(m, op).0)
  {
    hide TrimSpace;
    if op.Put? {
      NormalizeIdempotent(op.rec);
    }
  }

  lemma {:induction false} ContentsWellFormed(es: Events)
    requires AllData(es)
    ensures WellFormed(Contents(es))
  {
    hide MapStep;
    if es != [] {
      ContentsWellFormed(es[..|es| - 1]);
      MapStepWellFormed(Contents(es[..|es| - 1]), es[|es| - 1].op);
    }
  }
}
