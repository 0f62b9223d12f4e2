/** Why Get is promised only records that some Put sealed: a backend may keep the blob of
    a Put it reports failed, and hand it out later. */
module FailedPut {
  import Text
  import ByteStrings
  import opened Aead
  import opened Storage
  import opened Codec
  import opened KeyHierarchy
  import opened BackendContract
  import opened AliasMap
  import opened Protocol
  import opened ProtocolInvariant
  import opened SoloCalls
  import opened Reachability

  const ALIAS: ByteStrings.Bytes := [97]
  const RECORD: Record := Record(ALIAS, [1], Repeat(SALT_SIZE, 0), [120])

  lemma RecordIsNormal()
    ensures Text.TrimSpace(ALIAS) == ALIAS && Normalize(RECORD) == RECORD && ValidateRecord(RECORD).Ok?
  {
    var a, r := ALIAS, RECORD.rpID;
    assert Text.SkipSpace(a, 0) == 0 && Text.DropSpace(a, 0, 1) == 1;
    assert Text.SkipSpace(r, 0) == 0 && Text.DropSpace(r, 0, 1) == 1;
  }

  /** What the handle makes of the record. */
  lemma RecordSeals(key: HandleKey, b: Backend)
    requires key.Held? && |key.dek| == KEY_SIZE
    ensures var sealed := SealRecord(key.header.storeID, key.dek, RECORD, SOME_CHOICE.nonce);
      && sealed.Ok?
      && ThreadStep(key, b, Op.Put(RECORD), Start, SOME_CHOICE) == Next(key, b, PutSend(RECORD, sealed.value))
      && OpenRecord(key.header.storeID, key.dek, ALIAS, sealed.value) == Ok(RECORD)
  {
    RecordIsNormal();
    OpenAfterSeal(key.header.storeID, key.dek, RECORD, SOME_CHOICE.nonce);
    hide SealRecord, OpenRecord, ValidateRecord, Normalize;
  }

  lemma HeldKeySize(s: State, h: nat)
    requires Inv(s) && h in s.handles && s.handles[h].Held?
    ensures |s.handles[h].dek| == KEY_SIZE
  {
    assert KeyOk(s.log, s.handles[h]);
  }

  lemma SentWhenSealed(s: State, t: nat)
    requires Inv(s) && t in s.threads && s.threads[t].pc.PutSend?
    ensures WasSent(s.log, s.threads[t].pc.blob.ciphertext)
  {
    assert ThreadOk(s.log, s.threads[t]);
    hide LogOk, BackendOk, WasSent;
  }

  /** A Put seals its record, and its backend call fails. */
  lemma PutFails(steps: seq<Step>) returns (more: seq<Step>, blob: Blob)
    requires Possible(steps) && AtInstall(After(steps), 1)
    ensures Possible(more)
    ensures var s, s' := After(steps), After(more);
      && s'.handles == s.handles && WasSent(s'.log, blob.ciphertext)
      && s'.threads == s.threads[1 := Thread(0, Op.Put(RECORD), Reject(Unavailable))]
      && OpenRecord(s.handles[0].header.storeID, s.handles[0].dek, ALIAS, blob) == Ok(RECORD)
  {
    hide Enabled, Take, Inv, OpenRecord, SealRecord, ThreadStep, WasSent;
    SomeArgumentsAreValid();
    var s := After(steps);
    InvAlways(steps);
    HeldKeySize(s, 0);
    Begun(s);
    OneMoreStep(steps, Begin(1, 0, Op.Put(RECORD)));
    var begun := steps + [Begin(1, 0, Op.Put(RECORD))];
    hide Possible, After, AtInstall;
    RecordSeals(After(begun).handles[0], After(begun).backend);
    RunIsEnabled(After(begun), 1, SOME_CHOICE);
    RunTakes(After(begun), 1, SOME_CHOICE);
    OneMoreStep(begun, Run(1, SOME_CHOICE));
    var sent := begun + [Run(1, SOME_CHOICE)];
    InvAlways(sent);
    SentWhenSealed(After(sent), 1);
    Failing(After(sent));
    OneMoreStep(sent, Fail(1));
    more := sent + [Fail(1)];
    blob := After(sent).threads[1].pc.blob;
    assert After(more).threads == s.threads[1 := Thread(0, Op.Put(RECORD), Reject(Unavailable))];
    assert After(more).handles == s.handles;
  }

  lemma Begun(s: State)
    requires AtInstall(s, 1)
    ensures Enabled(s, Begin(1, 0, Op.Put(RECORD)))
    ensures var s' := Take(s, Begin(1, 0, Op.Put(RECORD)));
      && s'.handles == s.handles && s'.threads == s.threads[1 := Thread(0, Op.Put(RECORD), Start)]
      && QuietBut(s'.threads, 1)
  {
  }

  lemma Failing(s: State)
    requires 1 in s.threads && s.threads[1].pc.PutSend?
    ensures Enabled(s, Fail(1))
    ensures Take(s, Fail(1)) == s.(threads := s.threads[1 := s.threads[1].(pc := Reject(Unavailable))])
  {
  }

  lemma Tampering(s: State, blob: Blob)
    requires WasSent(s.log, blob.ciphertext)
    ensures Enabled(s, Tamper(map[ALIAS := blob]))
    ensures var s' := Take(s, Tamper(map[ALIAS := blob]));
      s'.handles == s.handles && s'.threads == s.threads && s'.backend.envelopes == map[ALIAS := blob]
  {
    hide WasSent;
  }

  lemma GetFinds(key: HandleKey, b: Backend, blob: Blob)
    requires key.Held? && b.envelopes == map[ALIAS := blob]
    requires OpenRecord(key.header.storeID, key.dek, ALIAS, blob) == Ok(RECORD)
    ensures RunAlone(key, b, Op.Get(ALIAS), Start, SOME_CHOICE) == (key, b, Found(RECORD))
  {
    RecordIsNormal();
    GetResult(key, b, ALIAS, SOME_CHOICE);
    hide RunAlone, OpenRecord, Text.TrimSpace;
  }

  /** In some run a Get returns a record although every Put failed. */
  lemma FailedPutComesBack() returns (steps: seq<Step>)
    ensures Possible(steps) && 2 in After(steps).threads
    ensures After(steps).threads[2].op == Op.Get(ALIAS) && After(steps).threads[2].pc == Finished(Found(RECORD))
    ensures forall t :: t in After(steps).threads && After(steps).threads[t].op.Put? ==>
      After(steps).threads[t].pc == Finished(Failure(Unavailable))
  {
    hide Enabled, Take, OpenRecord, RunAlone, WasSent;
    SomeArgumentsAreValid();
    var start := FirstHeader();
    var failed, blob := PutFails(start);
    Tampering(After(failed), blob);
    OneMoreStep(failed, Tamper(map[ALIAS := blob]));
    var tampered := failed + [Tamper(map[ALIAS := blob])];
    hide Possible, After;
    GetFinds(After(tampered).handles[0], After(tampered).backend, blob);
    steps := CallAlone(tampered, 2, 0, Op.Get(ALIAS), SOME_CHOICE);
  }
}
