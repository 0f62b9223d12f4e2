/** A backend that moves, copies, replays or invents envelopes: Get never returns a
    record for an alias unless a Put sealed that record for that alias; and unless a Put
    stored it, if the backend only rearranges what it accepted. */
module EnvelopeBinding {
  import opened ByteStrings
  import opened Text
  import opened Storage
  import opened Aead
  import opened Codec
  import opened KeyHierarchy
  import opened BackendContract
  import opened AliasMap
  import opened Protocol
  import opened ProtocolInvariant
  import History

  // ---------- Any backend without the DEK ----------

  /** What opens under the record key for an alias is a record sealed for that alias: a
      wrapped key has other associated data, and so has any other alias. */
  lemma OpenedWasSealed(log: Log, alias: Bytes, blob: Blob) returns (k: nat)
    requires LogOk(log) && log.installs != [] && Accounted(log, blob.ciphertext)
    requires OpenRecord(log.storeID, log.dek, alias, blob).Ok?
    ensures k < |log.sent| && log.sent[k].rec.alias == alias && log.sent[k].blob.ciphertext == blob.ciphertext
    ensures OpenRecord(log.storeID, log.dek, alias, blob) == Ok(log.sent[k].rec)
  {
    var c := blob.ciphertext;
    assert SealedUnder(c, log.dek) && c.aad == RecordAAD(log.storeID, alias);
    RecordAADHasOwnPrefix(log.storeID, alias);
    k :| 0 <= k < |log.sent| && log.sent[k].blob.ciphertext == c;
    assert SealsRecord(log, log.sent[k].rec, log.sent[k].blob);
    SameRecord(log, alias, blob, log.sent[k].rec, log.sent[k].blob);
  }

  lemma SameRecord(log: Log, alias: Bytes, blob: Blob, rec: Record, written: Blob)
    requires SealsRecord(log, rec, written) && written.ciphertext == blob.ciphertext
    requires |log.dek| == KEY_SIZE && OpenRecord(log.storeID, log.dek, alias, blob).Ok?
    ensures OpenRecord(log.storeID, log.dek, alias, blob) == Ok(rec) && rec.alias == alias
  {
    assert blob.ciphertext.aad == RecordAAD(log.storeID, alias) == RecordAAD(log.storeID, rec.alias);
    RecordAADInjective(log.storeID, alias, log.storeID, rec.alias);
    DecodeAfterEncode(rec);
  }

  lemma FoundEnvelope(b: Backend, alias: Bytes, storeID: Bytes, dek: Key) returns (blob: Blob)
    ensures var pc := GetSendStep(b, alias, storeID, dek); pc.Finished? && pc.reply.Found? ==>
      && TrimSpace(alias) in b.envelopes && b.envelopes[TrimSpace(alias)] == blob
      && OpenRecord(storeID, dek, alias, blob) == Ok(pc.reply.rec)
  {
    hide OpenRecord, TrimSpace;
    blob := if TrimSpace(alias) in b.envelopes then b.envelopes[TrimSpace(alias)] else NO_BLOB;
  }

  lemma OnlySendFinds(log: Log, b: Backend, key: HandleKey, th: Thread, c: Choice)
    requires ThreadOk(log, th) && th.op.Get? && !th.pc.GetSend? && !th.pc.Finished?
    ensures var pc := ThreadStep(key, b, th.op, th.pc, c).pc; !(pc.Finished? && pc.reply.Found?)
  {
    hide TrimSpace;
  }

  /** The step that answers a Get. */
  lemma GetAnswerWasSealed(log: Log, b: Backend, key: HandleKey, th: Thread, c: Choice) returns (k: nat)
    requires LocalInv(log, b, key, th) && th.op.Get? && !th.pc.Finished? && ThreadStep(key, b, th.op, th.pc, c).pc.Finished?
    requires ThreadStep(key, b, th.op, th.pc, c).pc.reply.Found?
    ensures var rec := ThreadStep(key, b, th.op, th.pc, c).pc.reply.rec;
      && k < |log.sent| && log.sent[k].rec == rec && rec.alias == TrimSpace(th.op.alias)
      && exists a :: a in b.envelopes && log.installs != [] && SealedUnder(b.envelopes[a].ciphertext, log.dek)
                     && log.sent[k].blob.ciphertext == b.envelopes[a].ciphertext && !WrapsKey(b.envelopes[a].ciphertext)
  {
    if !th.pc.GetSend? {
      OnlySendFinds(log, b, key, th, c);
      assert false;
    } else {
      var blob := FoundEnvelope(b, th.pc.alias, log.storeID, log.dek);
      hide GetSendStep, TrimSpace, LogOk, WasSent;
      k := OpenedWasSealed(log, th.pc.alias, blob);
      RecordAADHasOwnPrefix(log.storeID, th.pc.alias);
    }
  }

  /** Every sealed record is that of the Put call that sealed it. */
  ghost predicate SendersOf(threads: map<nat, Thread>, sent: seq<Sending>) {
    forall k :: 0 <= k < |sent| ==>
      && sent[k].putter in threads && !threads[sent[k].putter].pc.Start?
      && threads[sent[k].putter].op.Put? && Normalize(threads[sent[k].putter].op.rec) == sent[k].rec
  }

  /** Only the first step of a Put puts a record on file. */
  lemma LoggedSending(log: Log, b: Backend, key: HandleKey, th: Thread, t: nat, c: Choice)
    ensures var n := ThreadStep(key, b, th.op, th.pc, c);
      var log' := Logged(log, t, th.op, th.pc, c, n.pc);
      || log'.sent == log.sent
      || (th.op.Put? && n.pc.PutSend? && log'.sent == log.sent + [Sending(t, Normalize(th.op.rec), n.pc.blob)])
  {
    hide Normalize, InitCreateStep, RotateSwapStep, RotateLoadStep, GetSendStep, DeleteSendStep, InitListStep, ListEnvelopes;
    hide SealRecord, UnwrapHeader, ValidateHeader, HasEnvelope, Validate, TrimSpace;
  }

  lemma StepKeepsSenders(s: State, step: Step)
    requires SendersOf(s.threads, s.log.sent) && Enabled(s, step)
    ensures SendersOf(Take(s, step).threads, Take(s, step).log.sent)
  {
    hide Normalize, ThreadStep, MutexFree, NeedsMutex, Logged;
    History.StepKeepsThreads(s, step);
    if step.Run? {
      var th := s.threads[step.thread];
      LoggedSending(s.log, s.backend, s.handles[th.handle], th, step.thread, step.choice);
      NeverRestarts(s.handles[th.handle], s.backend, th.op, th.pc, step.choice);
    }
  }

  lemma NeverRestarts(key: HandleKey, b: Backend, op: Op, pc: PC, c: Choice)
    ensures !pc.Finished? ==> !ThreadStep(key, b, op, pc, c).pc.Start?
  {
    hide ThreadStep;
    StepsDescend(key, b, op, pc, c);
  }

  lemma {:induction false} SendersAlways(steps: seq<Step>)
    requires Possible(steps)
    ensures SendersOf(After(steps).threads, After(steps).log.sent)
  {
    hide Enabled, Take;
    if steps != [] {
      SendersAlways(steps[..|steps| - 1]);
      hide SendersOf;
      StepKeepsSenders(After(steps[..|steps| - 1]), steps[|steps| - 1]);
    }
  }

  /** In every reachable state, with a backend that may use every ciphertext it was ever
      handed, in whatever call and whatever came of it: a record that a Get returns was
      sealed before, for this store and the alias asked for, by a Put of that record. */
  lemma GetReturnsSealed(steps: seq<Step>, t: nat, c: Choice) returns (k: nat)
    requires Possible(steps) && Enabled(After(steps), Run(t, c)) && After(steps).threads[t].op.Get?
    requires var pc := Take(After(steps), Run(t, c)).threads[t].pc; pc.Finished? && pc.reply.Found?
    ensures var s := After(steps);
      var rec := Take(s, Run(t, c)).threads[t].pc.reply.rec;
      && rec.alias == TrimSpace(s.threads[t].op.alias)
      && k < |s.log.sent| && s.log.sent[k].rec == rec && SealsRecord(s.log, rec, s.log.sent[k].blob)
      && s.log.sent[k].putter in s.threads
      && var putter := s.threads[s.log.sent[k].putter];
        putter.op.Put? && Normalize(putter.op.rec) == rec && !putter.pc.Start?
  {
    var s := After(steps);
    InvAlways(steps);
    SendersAlways(steps);
    InvIsLocal(s, t);
    hide Possible, After, MutexFree, NeedsMutex, ThreadStep, ThreadOk, KeyOk, BackendOk, Logged, SealsRecord, Normalize, TrimSpace;
    k := GetAnswerWasSealed(s.log, s.backend, s.handles[s.threads[t].handle], s.threads[t], c);
  }

  // ---------- A backend that only rearranges ----------

  ghost predicate WrittenBefore(es: Events, n: nat, rec: Record)
    requires n <= |es|
  {
    exists k :: 0 <= k < n && es[k].op.Put? && es[k].reply == Success && Normalize(es[k].op.rec) == rec
  }

  /** Every record a Get returned was put before, under the alias asked for. */
  ghost predicate Sourced(es: Events) {
    forall j :: 0 <= j < |es| && es[j].op.Get? && es[j].reply.Found? ==>
      es[j].reply.rec.alias == TrimSpace(es[j].op.alias) && WrittenBefore(es, j, es[j].reply.rec)
  }

  /** What the backend takes on in a step: the blob of a Put that it reports stored. */
  function TakenOn(s: State, step: Step): set<Ciphertext>
    requires Enabled(s, step)
  {
    if step.Run? && s.threads[step.thread].pc.PutSend? && Take(s, step).threads[step.thread].pc == Finished(Success)
    then {s.threads[step.thread].pc.blob.ciphertext}
    else {}
  }

  function Accepted(steps: seq<Step>): set<Ciphertext>
    requires Possible(steps)
  {
    if steps == [] then {}
    else Accepted(steps[..|steps| - 1]) + TakenOn(After(steps[..|steps| - 1]), steps[|steps| - 1])
  }

  /** The tampering uses only what was accepted, wrapped keys, and inventions. */
  predicate UsesOnly(s: State, step: Step, accepted: set<Ciphertext>) {
    step.Tamper? && s.log.installs != [] ==>
      forall a :: a in step.envelopes ==>
        var c := step.envelopes[a].ciphertext; c in accepted || WrapsKey(c) || !SealedUnder(c, s.log.dek)
  }

  predicate OnlyRearranges(steps: seq<Step>)
    requires Possible(steps)
  {
    steps == []
    || (OnlyRearranges(steps[..|steps| - 1])
        && UsesOnly(After(steps[..|steps| - 1]), steps[|steps| - 1], Accepted(steps[..|steps| - 1])))
  }

  /** c is the blob of a Put that reported success. */
  ghost predicate FromPut(log: Log, c: Ciphertext) {
    exists k, blob: Blob :: 0 <= k < |log.events| && FromPutAt(log, c, k, blob)
  }

  ghost predicate FromPutAt(log: Log, c: Ciphertext, k: nat, blob: Blob)
    requires k < |log.events|
  {
    && log.events[k].op.Put? && log.events[k].reply == Success
    && blob.ciphertext == c && SealsRecord(log, Normalize(log.events[k].op.rec), blob)
  }

  lemma FromPutGrows(log: Log, log': Log, c: Ciphertext)
    requires Grows(log, log') && FromPut(log, c)
    ensures FromPut(log', c)
  {
    hide SealRecord, ValidateRecord, Normalize;
    var k, blob: Blob :| 0 <= k < |log.events| && FromPutAt(log, c, k, blob);
    assert log'.events[k] == log.events[k];
    assert FromPutAt(log', c, k, blob);
  }

  /** Accepted ciphertexts, and those now in the backend, are blobs of successful Puts. */
  ghost predicate PutOnly(log: Log, b: Backend, accepted: set<Ciphertext>) {
    && (forall c :: c in accepted ==> FromPut(log, c))
    && (log.installs != [] ==> forall a :: a in b.envelopes ==> PutOrOther(log, b.envelopes[a].ciphertext))
  }

  ghost predicate PutOrOther(log: Log, c: Ciphertext) {
    SealedUnder(c, log.dek) ==> WrapsKey(c) || FromPut(log, c)
  }

  /** Where the envelopes after a step of a call come from. */
  lemma EnvelopesAfter(log: Log, b: Backend, key: HandleKey, th: Thread, t: nat, c: Choice, a: Bytes)
    requires LocalInv(log, b, key, th) && !th.pc.Finished? && ValidChoice(c)
    requires a in ThreadStep(key, b, th.op, th.pc, c).backend.envelopes
    ensures var n := ThreadStep(key, b, th.op, th.pc, c);
      || (a in b.envelopes && n.backend.envelopes[a] == b.envelopes[a])
      || (th.pc.PutSend? && n.pc == Finished(Success) && n.backend.envelopes[a] == th.pc.blob)
  {
    hide LocalInv, RotateLoadStep, GetSendStep, TrimSpace, PersistHeader, WrapInto, StartStep;
    StartTouchesNothing(key, b, th.op, c);
  }

  /** A Put that reports success is on record with the blob it sent. */
  lemma StoredIsFromPut(log: Log, b: Backend, key: HandleKey, th: Thread, t: nat, c: Choice)
    requires LocalInv(log, b, key, th) && th.pc.PutSend? && ThreadStep(key, b, th.op, th.pc, c).pc == Finished(Success)
    ensures var log' := Logged(log, t, th.op, th.pc, c, Finished(Success)); FromPut(log', th.pc.blob.ciphertext)
  {
    hide LogOk, BackendOk, KeyOk, WasSent, TrimSpace, SealRecord, ValidateRecord, Normalize, ThreadStep;
    var log' := Logged(log, t, th.op, th.pc, c, Finished(Success));
    assert log'.events[|log.events|] == Event(t, th.op, Success);
    assert FromPutAt(log', th.pc.blob.ciphertext, |log.events|, th.pc.blob);
  }

  lemma PutOrOtherGrows(log: Log, log': Log, c: Ciphertext)
    requires Grows(log, log') && log.installs != [] && PutOrOther(log, c)
    ensures PutOrOther(log', c)
  {
    hide FromPut, WrapsKey;
    if FromPut(log, c) {
      FromPutGrows(log, log', c);
    }
  }

  lemma RunKeepsPutOnly(s: State, t: nat, c: Choice, accepted: set<Ciphertext>)
    requires Inv(s) && PutOnly(s.log, s.backend, accepted) && Enabled(s, Run(t, c))
    ensures var s' := Take(s, Run(t, c)); PutOnly(s'.log, s'.backend, accepted + TakenOn(s, Run(t, c)))
  {
    hide Inv, LocalInv, Grows, ThreadStep, Logged, FromPut, WrapsKey, MutexFree, NeedsMutex, PutOrOther;
    var th, s' := s.threads[t], Take(s, Run(t, c));
    var key := s.handles[th.handle];
    InvIsLocal(s, t);
    StepKeepsInv(s, Run(t, c));
    var n := ThreadStep(key, s.backend, th.op, th.pc, c);
    if th.pc.PutSend? && n.pc == Finished(Success) {
      StoredIsFromPut(s.log, s.backend, key, th, t, c);
    }
    forall x | x in accepted ensures FromPut(s'.log, x) {
      FromPutGrows(s.log, s'.log, x);
    }
    forall a | s'.log.installs != [] && a in s'.backend.envelopes ensures PutOrOther(s'.log, s'.backend.envelopes[a].ciphertext) {
      EnvelopesAfter(s.log, s.backend, key, th, t, c, a);
      var ct := s'.backend.envelopes[a].ciphertext;
      if FromPut(s'.log, ct) {
        KnownPut(s'.log, ct);
      } else if s.log.installs != [] {
        PutOrOtherGrows(s.log, s'.log, ct);
      } else {
        FirstKeyIsFresh(s, t, c);
        KnownOther(s'.log, ct);
      }
    }
  }

  lemma KnownPut(log: Log, c: Ciphertext)
    requires FromPut(log, c)
    ensures PutOrOther(log, c)
  {
  }

  lemma KnownOther(log: Log, c: Ciphertext)
    requires !SealedUnder(c, log.dek)
    ensures PutOrOther(log, c)
  {
  }

  /** The first header comes with a DEK under which nothing is sealed. */
  lemma FirstKeyIsFresh(s: State, t: nat, c: Choice)
    requires Inv(s) && Enabled(s, Run(t, c)) && s.log.installs == [] && Take(s, Run(t, c)).log.installs != []
    ensures Take(s, Run(t, c)).log.dek == c.dek
    ensures forall a :: a in s.backend.envelopes ==> !SealedUnder(s.backend.envelopes[a].ciphertext, c.dek)
  {
    var th := s.threads[t];
    assert ThreadOk(s.log, th);
    hide Inv, LogOk, BackendOk, ThreadStep, MutexFree, NeedsMutex;
  }

  lemma StepKeepsPutOnly(s: State, step: Step, accepted: set<Ciphertext>)
    requires Inv(s) && PutOnly(s.log, s.backend, accepted) && Enabled(s, step) && UsesOnly(s, step, accepted)
    ensures PutOnly(Take(s, step).log, Take(s, step).backend, accepted + TakenOn(s, step))
  {
    if step.Run? {
      RunKeepsPutOnly(s, step.thread, step.choice, accepted);
    } else {
      StepKeepsInv(s, step);
      var s' := Take(s, step);
      assert accepted + TakenOn(s, step) == accepted;
      forall x | x in accepted ensures FromPut(s'.log, x) {
        FromPutGrows(s.log, s'.log, x);
      }
      hide Inv, Grows, FromPut, WrapsKey, MutexFree, NeedsMutex, ThreadStep, WasSent;
      forall a | s'.log.installs != [] && a in s'.backend.envelopes ensures PutOrOther(s'.log, s'.backend.envelopes[a].ciphertext) {
        assert step.Tamper? || PutOrOther(s.log, s.backend.envelopes[a].ciphertext);
        if !step.Tamper? {
          PutOrOtherGrows(s.log, s'.log, s.backend.envelopes[a].ciphertext);
        }
      }
    }
  }

  lemma {:induction false} RearrangedIsPut(steps: seq<Step>)
    requires Possible(steps) && OnlyRearranges(steps)
    ensures PutOnly(After(steps).log, After(steps).backend, Accepted(steps))
  {
    hide Enabled, Take, Inv, UsesOnly, TakenOn;
    if steps != [] {
      RearrangedIsPut(steps[..|steps| - 1]);
      InvAlways(steps[..|steps| - 1]);
      hide PutOnly;
      StepKeepsPutOnly(After(steps[..|steps| - 1]), steps[|steps| - 1], Accepted(steps[..|steps| - 1]));
    }
  }

  /** The step that answers a Get, over such a backend. */
  lemma GetAnswerWasPut(log: Log, b: Backend, key: HandleKey, th: Thread, c: Choice, accepted: set<Ciphertext>)
    requires LocalInv(log, b, key, th) && th.op.Get? && !th.pc.Finished? && ThreadStep(key, b, th.op, th.pc, c).pc.Finished?
    requires ThreadStep(key, b, th.op, th.pc, c).pc.reply.Found? && PutOnly(log, b, accepted)
    ensures var rec := ThreadStep(key, b, th.op, th.pc, c).pc.reply.rec;
      rec.alias == TrimSpace(th.op.alias) && WrittenBefore(log.events, |log.events|, rec)
  {
    var k := GetAnswerWasSealed(log, b, key, th, c);
    assert SealsRecord(log, log.sent[k].rec, log.sent[k].blob);
    hide ThreadStep, ThreadOk, KeyOk, LogOk, BackendOk, TrimSpace, WrapsKey, SealsRecord, Normalize;
    var a :| a in b.envelopes && SealedUnder(b.envelopes[a].ciphertext, log.dek)
             && log.sent[k].blob.ciphertext == b.envelopes[a].ciphertext && !WrapsKey(b.envelopes[a].ciphertext);
    assert PutOrOther(log, b.envelopes[a].ciphertext);
    var i, blob: Blob :| 0 <= i < |log.events| && FromPutAt(log, b.envelopes[a].ciphertext, i, blob);
    OneRecordPerCiphertext(log, log.sent[k].rec, log.sent[k].blob, Normalize(log.events[i].op.rec), blob);
  }

  lemma OneRecordPerCiphertext(log: Log, r1: Record, b1: Blob, r2: Record, b2: Blob)
    requires SealsRecord(log, r1, b1) && SealsRecord(log, r2, b2) && b1.ciphertext == b2.ciphertext
    ensures r1 == r2
  {
    hide ValidateRecord, Normalize, EncodeRecord;
    RecordAADInjective(log.storeID, r1.alias, log.storeID, r2.alias);
    SaltFits(r1);
    SaltFits(r2);
    DecodeAfterEncode(r1);
    DecodeAfterEncode(r2);
  }

  lemma SaltFits(rec: Record)
    requires ValidateRecord(rec).Ok?
    ensures |rec.salt| <= MAX_PAYLOAD_FIELD
  {
  }

  lemma StepKeepsSources(s: State, step: Step, accepted: set<Ciphertext>)
    requires Inv(s) && Sourced(s.log.events) && Enabled(s, step) && PutOnly(s.log, s.backend, accepted)
    ensures Sourced(Take(s, step).log.events)
  {
    hide ThreadStep, Inv, Normalize, TrimSpace, MutexFree, NeedsMutex, PutOnly;
    if step.Run? {
      var th, es, es' := s.threads[step.thread], s.log.events, Take(s, step).log.events;
      var n := ThreadStep(s.handles[th.handle], s.backend, th.op, th.pc, step.choice);
      if n.pc.Finished? && th.op.Get? && n.pc.reply.Found? {
        assert LocalInv(s.log, s.backend, s.handles[th.handle], th) by { InvIsLocal(s, step.thread); }
        GetAnswerWasPut(s.log, s.backend, s.handles[th.handle], th, step.choice, accepted);
      }
      LoggedEvents(s.log, step.thread, th.op, th.pc, step.choice, n.pc);
      hide Logged, Take;
      forall j | 0 <= j < |es'| && es'[j].op.Get? && es'[j].reply.Found?
        ensures es'[j].reply.rec.alias == TrimSpace(es'[j].op.alias) && WrittenBefore(es', j, es'[j].reply.rec)
      {
        WritesStay(es, es', if j < |es| then j else |es|, es'[j].reply.rec);
      }
    }
  }

  lemma WritesStay(es: Events, es': Events, n: nat, rec: Record)
    requires n <= |es| && es <= es'
    ensures WrittenBefore(es, n, rec) ==> WrittenBefore(es', n, rec)
  {
    if WrittenBefore(es, n, rec) {
      var k :| 0 <= k < n && es[k].op.Put? && es[k].reply == Success && Normalize(es[k].op.rec) == rec;
      assert es'[k] == es[k];
    }
  }

  /** In every run in which the backend only rearranges what it accepted, Get only
      returns what was put. */
  lemma {:induction false} GetsAreSourced(steps: seq<Step>)
    requires Possible(steps) && OnlyRearranges(steps)
    ensures Sourced(After(steps).log.events)
  {
    hide Enabled, Take, UsesOnly;
    if steps != [] {
      var init := steps[..|steps| - 1];
      GetsAreSourced(init);
      InvAlways(init);
      RearrangedIsPut(init);
      hide Inv, Sourced, PutOnly;
      StepKeepsSources(After(init), steps[|steps| - 1], Accepted(init));
    }
  }
}
