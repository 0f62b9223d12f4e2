/** What the record map answers, call by call and on its inputs alone: when each call
    succeeds, and with which error it fails otherwise. */
module Answers {
  import opened ByteStrings
  import opened Text
  import opened Storage
  import opened AliasMap
  import opened Unicode

  /** What a record must have to be stored at all. */
  ghost predicate Storable(raw: Record) {
    && !Blank(raw.alias) && !Blank(raw.rpID) && |raw.salt| == 32
    && 0 < |raw.credentialID| <= 0x10_0000 && |TrimSpace(raw.rpID)| <= 0x10_0000
  }

  lemma PutAnswer(m: Records, raw: Record)
    ensures var a := TrimSpace(raw.alias);
      var (m', reply) := MapStep(m, Op.Put(raw));
      && (Blank(raw.alias) ==> reply == Failure(InvalidAlias))
      && (!Blank(raw.alias) && !Storable(raw) ==> reply == Failure(InvalidRecord))
      && (Storable(raw) && a in m ==> reply == Failure(Exists))
      && (Storable(raw) && a !in m ==> reply == Success)
      && m' == if reply == Success then m[a := Record(a, raw.credentialID, raw.salt, TrimSpace(raw.rpID))] else m
  {
    BlankTrims(raw.alias);
    BlankTrims(raw.rpID);
    hide TrimSpace, Blank;
  }

  lemma GetAnswer(m: Records, raw: Bytes)
    ensures MapStep(m, Op.Get(raw)) == (m,
      if Blank(raw) then Failure(InvalidAlias)
      else if TrimSpace(raw) in m then Found(m[TrimSpace(raw)])
      else Failure(NotFound))
  {
    BlankTrims(raw);
    hide TrimSpace, Blank;
  }

  lemma DeleteAnswer(m: Records, raw: Bytes)
    ensures var a := TrimSpace(raw);
      var (m', reply) := MapStep(m, Op.Delete(raw));
      && (Blank(raw) ==> reply == Failure(InvalidAlias))
      && (!Blank(raw) ==> reply == if a in m then Success else Failure(NotFound))
      && (reply == Success ==> m'.Keys == m.Keys - {a})
      && (reply != Success ==> m' == m)
      && (forall x :: x in m && x != a ==> x in m' && m'[x] == m[x])
  {
    BlankTrims(raw);
    hide TrimSpace, Blank;
  }

  lemma HasAnswer(m: Records, raw: Bytes)
    ensures MapStep(m, Op.Has(raw)) == (m, if Blank(raw) then Failure(InvalidAlias) else Present(TrimSpace(raw) in m))
  {
    BlankTrims(raw);
    hide TrimSpace, Blank;
  }

  /** Exactly the stored aliases, each once, in ascending byte order. */
  lemma ListAnswer(m: Records)
    ensures var (m', reply) := MapStep(m, Op.List);
      && m' == m && reply.Aliases?
      && (forall a :: a in reply.aliases <==> a in m)
      && (forall i, j :: 0 <= i < j < |reply.aliases| ==> LexLess(reply.aliases[i], reply.aliases[j]))
  {
    AscendingIsSorted(m.Keys);
    hide LexLess, Ascending;
  }

  /** White space around a name makes no difference to any call. */
  lemma SpaceAroundNames(m: Records, l: Bytes, a: Bytes, r: Bytes, rec: Record)
    requires Blank(l) && Blank(r) && !StartsWithSpace(a) && !EndsWithSpace(a)
    ensures MapStep(m, Op.Put(rec.(alias := l + a + r))) == MapStep(m, Op.Put(rec.(alias := a)))
    ensures MapStep(m, Op.Get(l + a + r)) == MapStep(m, Op.Get(a))
    ensures MapStep(m, Op.Delete(l + a + r)) == MapStep(m, Op.Delete(a))
    ensures MapStep(m, Op.Has(l + a + r)) == MapStep(m, Op.Has(a))
    ensures a != [] && MapStep(m, Op.Put(rec.(alias := l + a + r))).1 == Success ==>
      a !in m && a in MapStep(m, Op.Put(rec.(alias := l + a + r))).0
  {
    hide TrimSpace, Blank, StartsWithSpace, EndsWithSpace, ValidateRecord;
    TrimRemoves(l, a, r);
    NothingIsBlank();
    assert [] + a + [] == a;
    TrimRemoves([], a, []);
  }

  /** A blank RP id is refused wherever a record is. */
  lemma BlankRPIDIsRefused(m: Records, raw: Record)
    requires Blank(raw.rpID) && !Blank(raw.alias)
    ensures MapStep(m, Op.Put(raw)) == (m, Failure(InvalidRecord))
  {
    PutAnswer(m, raw);
    hide MapStep, Blank;
  }
}
