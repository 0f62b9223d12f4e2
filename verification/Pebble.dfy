/** pkg/store/pebble as an EnvelopeBackend: header and envelopes share one ordered
    byte-key space with whatever else the database holds. */
module Pebble {
  import opened ByteStrings
  import Text
  import opened Storage
  import opened BackendContract

  const HEADER_KEY: Bytes := [0] + Ascii("hmacsecret/header")
  const ENVELOPE_PREFIX: Bytes := [0] + Ascii("hmacsecret/record/")

  function EnvelopeKey(alias: Bytes): (key: Bytes)
    ensures IsPrefix(ENVELOPE_PREFIX, key) && key[|ENVELOPE_PREFIX|..] == alias
    ensures key != HEADER_KEY
  {
    assert |ENVELOPE_PREFIX| > |HEADER_KEY|;
    ENVELOPE_PREFIX + alias
  }

  lemma KeyOfSuffix(k: Bytes)
    requires IsPrefix(ENVELOPE_PREFIX, k)
    ensures EnvelopeKey(k[|ENVELOPE_PREFIX|..]) == k
  {
    assert k == k[..|ENVELOPE_PREFIX|] + k[|ENVELOPE_PREFIX|..];
  }

  // ---------- prefixUpperBound ----------

  /** The smallest key above every key with prefix p, if there is one. */
  function UpperBound(p: Bytes): Option<Bytes> {
    if p == [] then None
    else if p[|p| - 1] != 0xFF then Some(p[..|p| - 1] + [p[|p| - 1] + 1])
    else UpperBound(p[..|p| - 1])
  }

  /** LowerBound <= k < UpperBound, the keys an iterator visits. */
  predicate InRange(k: Bytes, lower: Bytes, upper: Option<Bytes>) {
    !LexLess(k, lower) && (upper.None? || LexLess(k, upper.value))
  }

  lemma {:induction false} UpperBoundFromFront(p: Bytes)
    requires p != []
    ensures UpperBound(p) ==
            if UpperBound(p[1..]).Some? then Some([p[0]] + UpperBound(p[1..]).value)
            else if p[0] != 0xFF then Some([p[0] + 1])
            else None
    decreases |p|
  {
    if |p| > 1 {
      var q, x := p[..|p| - 1], p[|p| - 1];
      assert p[1..][..|p| - 2] == q[1..];
      assert p[1..][|p| - 2] == x;
      if x == 0xFF {
        UpperBoundFromFront(q);
        assert UpperBound(p[1..]) == UpperBound(q[1..]);
      } else {
        assert [p[0]] + (q[1..] + [x + 1]) == q + [x + 1];
      }
    } else {
      assert p[1..] == [] && p[..|p| - 1] == [];
      if p[0] != 0xFF {
        assert p[..|p| - 1] + [p[|p| - 1] + 1] == [p[0] + 1];
      }
    }
  }

  /** The range [p, UpperBound(p)) holds exactly the keys with prefix p. */
  lemma {:induction false} UpperBoundExact(p: Bytes, k: Bytes)
    ensures InRange(k, p, UpperBound(p)) <==> IsPrefix(p, k)
    decreases |p|
  {
    if p != [] {
      UpperBoundFromFront(p);
      if k != [] {
        UpperBoundExact(p[1..], k[1..]);
        LexTotal(k[1..], []);
        if UpperBound(p[1..]).Some? {
          assert UpperBound(p).value[1..] == UpperBound(p[1..]).value;
        }
        if k[0] == p[0] {
          assert IsPrefix(p, k) <==> IsPrefix(p[1..], k[1..]) by {
            assert p == [p[0]] + p[1..] && k == [k[0]] + k[1..];
            if IsPrefix(p[1..], k[1..]) {
              assert k[..|p|] == [k[0]] + k[1..][..|p| - 1];
            }
            if IsPrefix(p, k) {
              assert k[1..][..|p| - 1] == k[..|p|][1..];
            }
          }
        } else {
          assert !IsPrefix(p, k);
          assert [p[0]][1..] == [];
          assert UpperBound(p).Some? && k[0] > p[0] ==> !LexLess(k, UpperBound(p).value);
        }
      }
    }
  }

  /** The loop of prefixUpperBound: copy, then increment the last byte that is not
      0xff and cut there. */
  method PrefixUpperBound(prefix: Bytes) returns (bound: Option<Bytes>)
    ensures bound == UpperBound(prefix)
    ensures forall k :: InRange(k, prefix, bound) <==> IsPrefix(prefix, k)
  {
    forall k ensures InRange(k, prefix, UpperBound(prefix)) <==> IsPrefix(prefix, k) {
      UpperBoundExact(prefix, k);
    }
    var upper := new byte[|prefix|](i requires 0 <= i < |prefix| => prefix[i]);
    var i := upper.Length;
    assert prefix[..i] == prefix;
    while i > 0
      invariant 0 <= i <= |prefix|
      invariant upper[..] == prefix
      invariant UpperBound(prefix) == UpperBound(prefix[..i])
    {
      if upper[i - 1] != 0xFF {
        upper[i - 1] := upper[i - 1] + 1;
        assert upper[..i] == prefix[..i - 1] + [prefix[i - 1] + 1];
        assert prefix[..i][..i - 1] == prefix[..i - 1];
        return Some(upper[..i]);
      }
      assert prefix[..i][..i - 1] == prefix[..i - 1];
      i := i - 1;
    }
    assert prefix[..0] == [];
    return None;
  }

  // ---------- The key space ----------

  /** A value under a key: a JSON body, or anything another user of the database
      stored under a key of its own. */
  datatype Value = HeaderBody(header: Header) | EnvelopeBody(blob: Blob) | Foreign(bytes: Bytes)

  ghost predicate WellTyped(db: map<Bytes, Value>) {
    && (HEADER_KEY in db ==> db[HEADER_KEY].HeaderBody?)
    && forall a :: EnvelopeKey(a) in db ==> db[EnvelopeKey(a)].EnvelopeBody?
  }

  /** Aliases of the stored envelopes: their keys without the common prefix. */
  function AliasesOf(db: map<Bytes, Value>): (s: set<Bytes>)
    ensures forall a :: a in s <==> EnvelopeKey(a) in db
  {
    var s := set k | k in db && IsPrefix(ENVELOPE_PREFIX, k) :: k[|ENVELOPE_PREFIX|..];
    assert forall a :: a in s <==> EnvelopeKey(a) in db by {
      forall a ensures a in s <==> EnvelopeKey(a) in db {
        if a in s {
          var k :| k in db && IsPrefix(ENVELOPE_PREFIX, k) && k[|ENVELOPE_PREFIX|..] == a;
          KeyOfSuffix(k);
        }
      }
    }
    s
  }

  ghost function EnvelopesOf(db: map<Bytes, Value>): (m: map<Bytes, Blob>)
    requires WellTyped(db)
    ensures m.Keys == AliasesOf(db)
    ensures forall a :: a in m ==> m[a] == db[EnvelopeKey(a)].blob
  {
    map a | a in AliasesOf(db) :: db[EnvelopeKey(a)].blob
  }

  /** What the byte keys mean as an EnvelopeBackend. */
  ghost function View(db: map<Bytes, Value>): Backend
    requires WellTyped(db)
  {
    Backend(if HEADER_KEY in db then Some(db[HEADER_KEY].header) else None, EnvelopesOf(db))
  }

  lemma SetHeaderView(db: map<Bytes, Value>, h: Header)
    requires WellTyped(db)
    ensures WellTyped(db[HEADER_KEY := HeaderBody(h)])
    ensures View(db[HEADER_KEY := HeaderBody(h)]) == View(db).(header := Some(h))
  {
    var db' := db[HEADER_KEY := HeaderBody(h)];
    assert AliasesOf(db') == AliasesOf(db);
    assert EnvelopesOf(db') == EnvelopesOf(db);
  }

  lemma SetEnvelopeEntry(db: map<Bytes, Value>, a: Bytes, b: Blob, x: Bytes)
    requires WellTyped(db)
    ensures WellTyped(db[EnvelopeKey(a) := EnvelopeBody(b)])
    ensures AliasesOf(db[EnvelopeKey(a) := EnvelopeBody(b)]) == AliasesOf(db) + {a}
    ensures EnvelopesOf(db[EnvelopeKey(a) := EnvelopeBody(b)])[a] == b
    ensures x != a && x in EnvelopesOf(db) ==>
      EnvelopesOf(db[EnvelopeKey(a) := EnvelopeBody(b)])[x] == EnvelopesOf(db)[x]
  {
  }

  lemma SetEnvelopeView(db: map<Bytes, Value>, a: Bytes, b: Blob)
    requires WellTyped(db)
    ensures WellTyped(db[EnvelopeKey(a) := EnvelopeBody(b)])
    ensures View(db[EnvelopeKey(a) := EnvelopeBody(b)]) == View(db).(envelopes := View(db).envelopes[a := b])
  {
    SetEnvelopeEntry(db, a, b, a);
    var m, m' := EnvelopesOf(db), EnvelopesOf(db[EnvelopeKey(a) := EnvelopeBody(b)]);
    forall x | x in m && x != a ensures m'[x] == m[x] {
      SetEnvelopeEntry(db, a, b, x);
    }
    UpdateIsExtensional(m, m', a, b);
  }

  lemma DeleteEnvelopeAliases(db: map<Bytes, Value>, a: Bytes)
    requires WellTyped(db)
    ensures WellTyped(db - {EnvelopeKey(a)})
    ensures AliasesOf(db - {EnvelopeKey(a)}) == AliasesOf(db) - {a}
  {
  }

  lemma SameEntry(db: map<Bytes, Value>, db': map<Bytes, Value>, x: Bytes)
    requires WellTyped(db) && WellTyped(db') && x in AliasesOf(db) && x in AliasesOf(db')
    requires db[EnvelopeKey(x)] == db'[EnvelopeKey(x)]
    ensures EnvelopesOf(db)[x] == EnvelopesOf(db')[x]
  {
  }

  lemma DeleteEnvelopeView(db: map<Bytes, Value>, a: Bytes)
    requires WellTyped(db)
    ensures WellTyped(db - {EnvelopeKey(a)})
    ensures View(db - {EnvelopeKey(a)}) == View(db).(envelopes := View(db).envelopes - {a})
  {
    DeleteEnvelopeAliases(db, a);
    var m, m' := EnvelopesOf(db), EnvelopesOf(db - {EnvelopeKey(a)});
    forall x | x in m && x != a ensures m'[x] == m[x] {
      SameEntry(db, db - {EnvelopeKey(a)}, x);
    }
    RemovalIsExtensional(m, m', a);
  }

  predicate Reserved(k: Bytes) {
    k == HEADER_KEY || IsPrefix(ENVELOPE_PREFIX, k)
  }

  /** The keys that are neither the header nor an envelope. */
  ghost function RestOf(db: map<Bytes, Value>): map<Bytes, Value> {
    map k | k in db && !Reserved(k) :: db[k]
  }

  lemma RestUnchanged(db: map<Bytes, Value>, k: Bytes, v: Value)
    requires Reserved(k)
    ensures RestOf(db[k := v]) == RestOf(db) && RestOf(db - {k}) == RestOf(db)
  {
  }

  /** Stripping the common prefix from a sorted scan leaves a sorted alias list. */
  lemma StrippedScanIsListing(db: map<Bytes, Value>, keys: seq<Bytes>, aliases: seq<Bytes>)
    requires keys == Ascending(set k | k in db && IsPrefix(ENVELOPE_PREFIX, k))
    requires |aliases| == |keys| && forall i :: 0 <= i < |keys| ==> keys[i] == EnvelopeKey(aliases[i])
    ensures aliases == Ascending(AliasesOf(db))
    ensures StrictlyAscending(aliases)
  {
    var scan := set k | k in db && IsPrefix(ENVELOPE_PREFIX, k);
    AscendingIsSorted(scan);
    forall i, j | 0 <= i < j < |aliases| ensures LexLess(aliases[i], aliases[j]) {
      LexCommonPrefix(ENVELOPE_PREFIX, aliases[i], aliases[j]);
    }
    forall a ensures a in aliases <==> a in AliasesOf(db) {
      if a in aliases {
        var i :| 0 <= i < |aliases| && aliases[i] == a;
        assert keys[i] in scan;
      }
      if a in AliasesOf(db) {
        assert EnvelopeKey(a) in scan;
        var i :| 0 <= i < |keys| && keys[i] == EnvelopeKey(a);
        assert aliases[i] == EnvelopeKey(aliases[i])[|ENVELOPE_PREFIX|..] == a;
      }
    }
    SortedListIsAscending(aliases, AliasesOf(db));
  }

  // ---------- The store ----------

  class PebbleStore {
    var db: map<Bytes, Value>

    ghost predicate Valid()
      reads this
    {
      WellTyped(db)
    }

    /** The EnvelopeBackend this database is. */
    ghost function Contents(): Backend
      requires Valid()
      reads this
    {
      View(db)
    }

    constructor ()
      ensures Valid() && Contents() == EMPTY && RestOf(db) == map[]
    {
      db := map[];
      new;
      assert Contents().envelopes == map[];
    }

    method CreateHeader(header: Header) returns (r: Result<()>)
      requires Valid()
      modifies this
      ensures Valid() && (Contents(), r) == BackendContract.CreateHeader(old(Contents()), header)
      ensures RestOf(db) == RestOf(old(db))
    {
      var body := PersistHeader(header);
      if HEADER_KEY in db {
        return Err(Exists);
      }
      SetHeaderView(db, body);
      RestUnchanged(db, HEADER_KEY, HeaderBody(body));
      db := db[HEADER_KEY := HeaderBody(body)];
      return Ok(());
    }

    method LoadHeader() returns (r: Result<Header>)
      requires Valid()
      ensures r == BackendContract.LoadHeader(Contents())
    {
      if HEADER_KEY !in db {
        return Err(NotInitialized);
      }
      return Ok(db[HEADER_KEY].header);
    }

    method CompareAndSwapHeader(expected: uint64, next: Header) returns (r: Result<()>)
      requires Valid()
      modifies this
      ensures Valid() && (Contents(), r) == BackendContract.CompareAndSwapHeader(old(Contents()), expected, next)
      ensures RestOf(db) == RestOf(old(db))
    {
      var body := PersistHeader(next);
      if HEADER_KEY !in db {
        return Err(NotInitialized);
      }
      var current := db[HEADER_KEY].header;
      if current.revision != expected {
        return Err(Conflict);
      }
      SetHeaderView(db, body);
      RestUnchanged(db, HEADER_KEY, HeaderBody(body));
      db := db[HEADER_KEY := HeaderBody(body)];
      return Ok(());
    }

    method PutEnvelope(alias: Bytes, blob: Blob) returns (r: Result<()>)
      requires Valid()
      modifies this
      ensures Valid() && (Contents(), r) == BackendContract.PutEnvelope(old(Contents()), alias, PersistBlob(blob))
      ensures RestOf(db) == RestOf(old(db))
    {
      var name := Text.TrimSpace(alias);
      var valid := ValidateAlias(name);
      if valid.Err? {
        return Err(valid.error);
      }
      var body := PersistBlob(blob);
      var key := EnvelopeKey(name);
      if key in db {
        return Err(Exists);
      }
      SetEnvelopeView(db, name, body);
      RestUnchanged(db, key, EnvelopeBody(body));
      db := db[key := EnvelopeBody(body)];
      return Ok(());
    }

    method GetEnvelope(alias: Bytes) returns (r: Result<Blob>)
      requires Valid()
      ensures r == BackendContract.GetEnvelope(Contents(), alias)
    {
      var name := Text.TrimSpace(alias);
      var valid := ValidateAlias(name);
      if valid.Err? {
        return Err(valid.error);
      }
      if EnvelopeKey(name) !in db {
        return Err(NotFound);
      }
      return Ok(db[EnvelopeKey(name)].blob);
    }

    method DeleteEnvelope(alias: Bytes) returns (r: Result<()>)
      requires Valid()
      modifies this
      ensures Valid() && (Contents(), r) == BackendContract.DeleteEnvelope(old(Contents()), alias)
      ensures RestOf(db) == RestOf(old(db))
    {
      var name := Text.TrimSpace(alias);
      var valid := ValidateAlias(name);
      if valid.Err? {
        return Err(valid.error);
      }
      var key := EnvelopeKey(name);
      if key !in db {
        return Err(NotFound);
      }
      DeleteEnvelopeView(db, name);
      RestUnchanged(db, key, db[key]);
      db := db - {key};
      return Ok(());
    }

    method HasEnvelope(alias: Bytes) returns (r: Result<bool>)
      requires Valid()
      ensures r == BackendContract.HasEnvelope(Contents(), alias)
    {
      var name := Text.TrimSpace(alias);
      var valid := ValidateAlias(name);
      if valid.Err? {
        return Err(valid.error);
      }
      return Ok(EnvelopeKey(name) in db);
    }

    /** The range scan: the break on a foreign key is never taken. */
    method ListEnvelopes() returns (aliases: seq<Bytes>)
      requires Valid()
      ensures aliases == BackendContract.ListEnvelopes(Contents())
      ensures StrictlyAscending(aliases) && forall a :: a in aliases <==> a in Contents().envelopes
    {
      var upper := PrefixUpperBound(ENVELOPE_PREFIX);
      var keys := Ascending(set k | k in db && InRange(k, ENVELOPE_PREFIX, upper));
      assert (set k | k in db && InRange(k, ENVELOPE_PREFIX, upper)) == (set k | k in db && IsPrefix(ENVELOPE_PREFIX, k));
      aliases := [];
      var i := 0;
      while i < |keys|
        invariant 0 <= i <= |keys| && |aliases| == i
        invariant forall j :: 0 <= j < i ==> keys[j] == EnvelopeKey(aliases[j])
      {
        var key := keys[i];
        assert key in keys;
        if !IsPrefix(ENVELOPE_PREFIX, key) {
          assert false;
          break;
        }
        aliases := aliases + [key[|ENVELOPE_PREFIX|..]];
        i := i + 1;
      }
      StrippedScanIsListing(db, keys, aliases);
    }
  }
}
