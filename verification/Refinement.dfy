/** The encrypted store is a plain map: every data call of every handle, stale or
    not, takes effect atomically at its one backend call. With a backend that
    rearranges envelopes, Get still returns only what some Put wrote for that alias. */
module Refinement {
  import Aead
  import opened ByteStrings
  import opened Text
  import opened Storage
  import opened Codec
  import opened KeyHierarchy
  import opened BackendContract
  import opened AliasMap
  import opened Protocol
  import opened ProtocolInvariant

  // ---------- The abstraction ----------

  /** The backend stores exactly the records of m, each sealed for its alias. */
  ghost predicate Represents(log: Log, b: Backend, m: Records) {
    && b.envelopes.Keys == m.Keys
    && WellFormed(m)
    && forall a :: a in m ==> SealsRecord(log, m[a], b.envelopes[a])
  }

  /** While nobody tampers, the history is legal and ends in what is stored. */
  ghost predicate Refines(log: Log, b: Backend) {
    AllData(log.events) && (!log.tampered ==> Legal(log.events) && Represents(log, b, Contents(log.events)))
  }

  lemma RepresentsGrows(log: Log, log': Log, b: Backend, b': Backend, m: Records)
    requires Grows(log, log') && Represents(log, b, m) && b'.envelopes == b.envelopes
    ensures Represents(log', b', m)
  {
    hide SealRecord, ValidateRecord, Normalize, WellFormed;
    forall a | a in m ensures SealsRecord(log', m[a], b'.envelopes[a]) {
      assert SealsRecord(log, m[a], b.envelopes[a]);
    }
  }

  /** A stored envelope opens, under the store's key, to the record it represents. */
  lemma RepresentedOpens(log: Log, b: Backend, m: Records, alias: Bytes)
    requires LogOk(log) && Represents(log, b, m) && alias in m
    ensures OpenRecord(log.storeID, log.dek, alias, b.envelopes[alias]) == Ok(m[alias])
  {
    assert SealsRecord(log, m[alias], b.envelopes[alias]);
    OpenAfterSeal(log.storeID, log.dek, m[alias], b.envelopes[alias].nonce);
  }

  // ---------- One completed data call ----------

  /** The call answers and changes the store as MapStep does on the same map. */
  ghost predicate Atomic(log: Log, b: Backend, th: Thread, n: Next, m: Records)
    requires IsData(th.op) && n.pc.Finished?
  {
    && n.pc.reply == MapStep(m, th.op).1
    && Represents(log, n.backend, MapStep(m, th.op).0)
  }

  lemma RejectedIsAtomic(log: Log, b: Backend, key: HandleKey, th: Thread, c: Choice, m: Records)
    requires Represents(log, b, m) && th.pc.Start? && IsData(th.op) && Validate(th.op).Err?
    ensures Atomic(log, b, th, ThreadStep(key, b, th.op, th.pc, c), m)
  {
    hide Represents;
  }

  lemma StartIsAtomic(log: Log, b: Backend, key: HandleKey, th: Thread, c: Choice, m: Records)
    requires LocalInv(log, b, key, th) && Represents(log, b, m) && ValidChoice(c)
    requires th.pc.Start? && TookEffect(th.op, ThreadStep(key, b, th.op, th.pc, c).pc)
    ensures Atomic(log, b, th, ThreadStep(key, b, th.op, th.pc, c), m)
  {
    if Validate(th.op).Err? {
      RejectedIsAtomic(log, b, key, th, c, m);
    } else {
      hide Represents, LogOk, BackendOk, Atomic, StartStep, Validate;
      match th.op
      case Put(raw) => OversizedIsAtomic(log, b, key, th, c, m);
      case Has(raw) => ReadIsAtomic(log, b, key, th, c, m);
      case List => ReadIsAtomic(log, b, key, th, c, m);
      case _ => WaitsForBackend(log, b, key, th, c);
    }
  }

  lemma WaitsForBackend(log: Log, b: Backend, key: HandleKey, th: Thread, c: Choice)
    requires th.op.Get? || th.op.Delete?
    requires th.pc.Start? && Validate(th.op).Ok?
    ensures !TookEffect(th.op, ThreadStep(key, b, th.op, th.pc, c).pc)
  {
  }

  lemma ReadIsAtomic(log: Log, b: Backend, key: HandleKey, th: Thread, c: Choice, m: Records)
    requires Represents(log, b, m) && th.pc.Start? && (th.op.Has? || th.op.List?) && Validate(th.op).Ok?
    ensures ThreadStep(key, b, th.op, th.pc, c).pc.Finished?
    ensures Atomic(log, b, th, ThreadStep(key, b, th.op, th.pc, c), m)
  {
    assert b.envelopes.Keys == m.Keys;
    hide Represents;
    if th.op.Has? {
      TrimSpaceIdempotent(th.op.alias);
    }
  }

  lemma OversizedIsAtomic(log: Log, b: Backend, key: HandleKey, th: Thread, c: Choice, m: Records)
    requires LocalInv(log, b, key, th) && Represents(log, b, m) && ValidChoice(c)
    requires th.pc.Start? && th.op.Put? && Validate(th.op).Ok?
    requires TookEffect(th.op, ThreadStep(key, b, th.op, th.pc, c).pc)
    ensures Atomic(log, b, th, ThreadStep(key, b, th.op, th.pc, c), m)
  {
    hide Represents;
    OpenAfterSeal(key.header.storeID, key.dek, Normalize(th.op.rec), c.nonce);
  }

  lemma PutIsAtomic(log: Log, b: Backend, key: HandleKey, th: Thread, c: Choice, m: Records)
    requires LocalInv(log, b, key, th) && Represents(log, b, m) && th.pc.PutSend?
    ensures Atomic(log, b, th, ThreadStep(key, b, th.op, th.pc, c), m)
  {
    hide LogOk, BackendOk, KeyOk, WasSent, Represents, ThreadStep, SealsRecord, MapStep, PutEnvelope, Normalize;
    var rec, blob := th.pc.rec, th.pc.blob;
    SealedFits(log, rec, blob) by { assert |log.dek| == Aead.KEY_SIZE by { SealingLog(log, rec, blob); } }
    PutOnMap(b, th.op, rec, blob, m) by { SameAliases(log, b, m); }
    PutSendResult(key, b, th.op, th.pc, c);
    if rec.alias !in m {
      PutRepresented(log, b, m, rec, blob);
    }
  }

  lemma SealingLog(log: Log, rec: Record, blob: Blob)
    requires LogOk(log) && SealsRecord(log, rec, blob)
    ensures |log.dek| == Aead.KEY_SIZE
  {
    hide SealRecord;
  }

  lemma SameAliases(log: Log, b: Backend, m: Records)
    requires Represents(log, b, m)
    ensures b.envelopes.Keys == m.Keys
  {
    hide WellFormed, SealsRecord;
  }

  lemma SealedFits(log: Log, rec: Record, blob: Blob)
    requires SealsRecord(log, rec, blob) && |log.dek| == Aead.KEY_SIZE
    ensures ValidateRecord(rec).Ok? && Normalize(rec) == rec
    ensures |rec.credentialID| <= MAX_PAYLOAD_FIELD && |rec.rpID| <= MAX_PAYLOAD_FIELD
  {
    hide Normalize;
    OpenAfterSeal(log.storeID, log.dek, rec, blob.nonce);
  }

  /** Backend and map agree on whether the record goes in. */
  lemma PutOnMap(b: Backend, op: Op, rec: Record, blob: Blob, m: Records)
    requires op.Put? && rec == Normalize(op.rec) && b.envelopes.Keys == m.Keys
    requires ValidateRecord(rec).Ok? && Normalize(rec) == rec
    requires |rec.credentialID| <= MAX_PAYLOAD_FIELD && |rec.rpID| <= MAX_PAYLOAD_FIELD
    ensures if rec.alias in m then PutEnvelope(b, rec.alias, blob) == (b, Err(Exists)) && MapStep(m, op) == (m, Failure(Exists))
            else PutEnvelope(b, rec.alias, blob) == (b.(envelopes := b.envelopes[rec.alias := blob]), Ok(()))
                 && MapStep(m, op) == (m[rec.alias := rec], Success)
  {
    PutAlias(rec);
    hide TrimSpace;
  }

  lemma PutAlias(rec: Record)
    requires Normalize(rec) == rec && ValidateRecord(rec).Ok?
    ensures TrimSpace(rec.alias) == rec.alias && rec.alias != []
  {
  }

  lemma PutRepresented(log: Log, b: Backend, m: Records, rec: Record, blob: Blob)
    requires Represents(log, b, m) && SealsRecord(log, rec, blob)
    ensures Represents(log, b.(envelopes := b.envelopes[rec.alias := blob]), m[rec.alias := rec])
  {
    hide TrimSpace, SealRecord;
    PutAlias(rec);
    var b', m' := b.(envelopes := b.envelopes[rec.alias := blob]), m[rec.alias := rec];
    hide SealsRecord, ValidateRecord, Normalize;
    forall a | a in m' ensures SealsRecord(log, m'[a], b'.envelopes[a]) {
      assert a != rec.alias ==> SealsRecord(log, m[a], b.envelopes[a]);
    }
  }

  lemma GetIsAtomic(log: Log, b: Backend, key: HandleKey, th: Thread, c: Choice, m: Records)
    requires LocalInv(log, b, key, th) && Represents(log, b, m) && th.pc.GetSend?
    ensures Atomic(log, b, th, ThreadStep(key, b, th.op, th.pc, c), m)
  {
    var alias := th.pc.alias;
    TrimSpaceIdempotent(th.op.alias);
    if alias in m {
      RepresentedOpens(log, b, m, alias);
    }
  }

  lemma DeleteIsAtomic(log: Log, b: Backend, key: HandleKey, th: Thread, c: Choice, m: Records)
    requires LocalInv(log, b, key, th) && Represents(log, b, m) && th.pc.DeleteSend?
    ensures Atomic(log, b, th, ThreadStep(key, b, th.op, th.pc, c), m)
  {
    TrimSpaceIdempotent(th.op.alias);
    DeleteRepresented(log, b, m, th.pc.alias);
    assert b.envelopes.Keys == m.Keys;
    hide Represents, LogOk, BackendOk;
  }

  lemma DeleteRepresented(log: Log, b: Backend, m: Records, alias: Bytes)
    requires Represents(log, b, m)
    ensures Represents(log, b.(envelopes := b.envelopes - {alias}), m - {alias})
  {
    hide SealsRecord, Normalize, ValidateRecord;
  }

  lemma DataCallIsAtomic(log: Log, b: Backend, key: HandleKey, th: Thread, c: Choice, m: Records)
    requires LocalInv(log, b, key, th) && Represents(log, b, m) && ValidChoice(c)
    requires !th.pc.Finished? && TookEffect(th.op, ThreadStep(key, b, th.op, th.pc, c).pc)
    ensures Atomic(log, b, th, ThreadStep(key, b, th.op, th.pc, c), m)
  {
    hide LogOk, BackendOk, Represents, Atomic, StartStep, InitCreateStep, RotateLoadStep, GetSendStep;
    match th.pc
    case Start => StartIsAtomic(log, b, key, th, c, m);
    case PutSend(_, _) => PutIsAtomic(log, b, key, th, c, m);
    case GetSend(_, _, _) => GetIsAtomic(log, b, key, th, c, m);
    case DeleteSend(_) => DeleteIsAtomic(log, b, key, th, c, m);
    case _ =>
  }

  /** A step that completes no data call leaves the envelopes alone. */
  lemma OtherStepsKeepEnvelopes(b: Backend, key: HandleKey, th: Thread, c: Choice)
    requires !th.pc.Finished?
    ensures var n := ThreadStep(key, b, th.op, th.pc, c);
      (th.pc.PutSend? ==> th.op.Put?) && (th.pc.DeleteSend? ==> th.op.Delete?) && !TookEffect(th.op, n.pc) ==>
        n.backend.envelopes == b.envelopes
  {
    hide StartStep, RotateLoadStep, GetSendStep, WrapInto, PersistHeader;
    StartTouchesNothing(key, b, th.op, c);
  }

  // ---------- Every step, every run ----------

  lemma EffectRefines(log: Log, b: Backend, key: HandleKey, th: Thread, t: nat, c: Choice, log': Log)
    requires LocalInv(log, b, key, th) && Refines(log, b) && !log.tampered && ValidChoice(c) && !th.pc.Finished?
    requires Grows(log, log') && TookEffect(th.op, ThreadStep(key, b, th.op, th.pc, c).pc)
    requires log'.events == log.events + [Event(t, th.op, ThreadStep(key, b, th.op, th.pc, c).pc.reply)]
    ensures Refines(log', ThreadStep(key, b, th.op, th.pc, c).backend)
  {
    hide ThreadStep, Represents, LocalInv, MapStep, Grows, Legal, Contents;
    var n := ThreadStep(key, b, th.op, th.pc, c);
    var m := Contents(log.events);
    DataCallIsAtomic(log, b, key, th, c, m);
    LegalExtension(log.events, Event(t, th.op, n.pc.reply));
    RepresentsGrows(log, log', n.backend, n.backend, MapStep(m, th.op).0);
    assert AllData(log'.events) by { LegalIsData(log'.events); }
  }

  lemma LegalIsData(es: Events)
    requires Legal(es)
    ensures AllData(es)
  {
    hide Contents, MapStep;
  }

  lemma SendersSend(log: Log, th: Thread)
    requires ThreadOk(log, th)
    ensures (th.pc.PutSend? ==> th.op.Put?) && (th.pc.DeleteSend? ==> th.op.Delete?)
  {
    hide TrimSpace;
  }

  lemma QuietRefines(log: Log, b: Backend, key: HandleKey, th: Thread, c: Choice, log': Log)
    requires ThreadOk(log, th) && Refines(log, b) && !log.tampered && !th.pc.Finished?
    requires Grows(log, log') && !TookEffect(th.op, ThreadStep(key, b, th.op, th.pc, c).pc) && log'.events == log.events
    ensures Refines(log', ThreadStep(key, b, th.op, th.pc, c).backend)
  {
    SendersSend(log, th);
    OtherStepsKeepEnvelopes(b, key, th, c);
    hide ThreadStep, ThreadOk, Represents, Grows, Legal, Contents, TookEffect;
    RepresentsGrows(log, log', b, ThreadStep(key, b, th.op, th.pc, c).backend, Contents(log.events));
  }

  /** A header write never completes a data call, so the log records each effect. */
  lemma LoggedExactly(log: Log, b: Backend, key: HandleKey, th: Thread, t: nat, c: Choice)
    requires LocalInv(log, b, key, th) && !th.pc.Finished?
    ensures var pc' := ThreadStep(key, b, th.op, th.pc, c).pc;
      var log' := Logged(log, t, th.op, th.pc, c, pc');
      && log'.tampered == log.tampered
      && log'.events == if TookEffect(th.op, pc') then log.events + [Event(t, th.op, pc'.reply)] else log.events
  {
    hide ThreadStep, LogOk, KeyOk;
  }

  lemma RunKeepsRefinement(s: State, t: nat, c: Choice)
    requires Inv(s) && Refines(s.log, s.backend) && Enabled(s, Run(t, c))
    ensures Refines(Take(s, Run(t, c)).log, Take(s, Run(t, c)).backend)
  {
    var th := s.threads[t];
    var key := s.handles[th.handle];
    RunKeepsInv(s, t, c);
    LoggedExactly(s.log, s.backend, key, th, t, c);
    if !s.log.tampered {
      hide ThreadStep, Inv, Logged, MutexFree, NeedsMutex, Refines, Grows, LogOk, BackendOk, TookEffect;
      if TookEffect(th.op, ThreadStep(key, s.backend, th.op, th.pc, c).pc) {
        EffectRefines(s.log, s.backend, key, th, t, c, Take(s, Run(t, c)).log);
      } else {
        QuietRefines(s.log, s.backend, key, th, c, Take(s, Run(t, c)).log);
      }
    }
  }

  lemma StepKeepsRefinement(s: State, step: Step)
    requires Inv(s) && Refines(s.log, s.backend) && Enabled(s, step)
    ensures Refines(Take(s, step).log, Take(s, step).backend)
  {
    hide Inv, Represents, Legal;
    if step.Run? {
      RunKeepsRefinement(s, step.thread, step.choice);
    }
  }

  /** Every untampered run answers its data calls as one plain map would, in the
      order of their backend calls, and stores exactly what that map holds. */
  lemma {:induction false} RunsAreLinearizable(steps: seq<Step>)
    requires Possible(steps)
    ensures Refines(After(steps).log, After(steps).backend)
  {
    hide Enabled, Take;
    if steps != [] {
      var init := steps[..|steps| - 1];
      RunsAreLinearizable(init);
      InvAlways(init);
      hide Inv, Refines;
      StepKeepsRefinement(After(init), steps[|steps| - 1]);
    }
  }

  // ---------- A call alone ----------

  /** A data call on an unlocked handle with nothing beside it is answered as by the map,
      and leaves what the map leaves. */
  lemma DataCallAlone(steps: seq<Step>, h: nat, op: Op, c: Choice)
    requires Possible(steps) && !After(steps).log.tampered && IsData(op) && ValidChoice(c)
    requires h in After(steps).handles && After(steps).handles[h].Held?
    ensures Legal(After(steps).log.events)
    ensures var s := After(steps);
      var m := Contents(s.log.events);
      var (key, b, reply) := RunAlone(s.handles[h], s.backend, op, Start, c);
      && key == s.handles[h] && b.header == s.backend.header
      && reply == MapStep(m, op).1 && Represents(s.log, b, MapStep(m, op).0)
  {
    var s := After(steps);
    RunsAreLinearizable(steps);
    InvAlways(steps);
    hide Possible, After, RunAlone, Legal, Represents, LogOk, BackendOk, KeyOk, MapStep, Contents;
    StartAlone(s.log, s.backend, s.handles[h], op, c, Contents(s.log.events));
  }

  lemma StartAlone(log: Log, b: Backend, key: HandleKey, op: Op, c: Choice, m: Records)
    requires LogOk(log) && BackendOk(log, b) && KeyOk(log, key) && Represents(log, b, m) && ValidChoice(c)
    requires IsData(op) && key.Held?
    ensures var (key', b', reply) := RunAlone(key, b, op, Start, c);
      key' == key && b'.header == b.header && reply == MapStep(m, op).1 && Represents(log, b', MapStep(m, op).0)
  {
    hide RunAlone, Represents, LocalInv, LogOk, BackendOk, KeyOk, MapStep, StartStep, ThreadOk;
    var th, n := Thread(0, op, Start), StartStep(key, b, op, c);
    StartIsOk(log, b, key, th);
    FirstStep(key, b, op, c);
    assert ThreadStep(key, b, op, Start, c) == n;
    StartOfData(key, b, op, c);
    if n.pc.Finished? {
      StartIsAtomic(log, b, key, th, c, m);
    } else {
      var log' := Logged(log, 0, op, Start, c, n.pc);
      StartKeeps(log, b, key, th, 0, c);
      SameStore(log, log', b, m);
      SendAlone(log', b, key, Thread(0, op, n.pc), c, m);
      SameStore(log', log, RunAlone(key, b, op, n.pc, c).1, MapStep(m, op).0);
    }
  }

  lemma StartIsOk(log: Log, b: Backend, key: HandleKey, th: Thread)
    requires LogOk(log) && BackendOk(log, b) && KeyOk(log, key) && th.pc.Start?
    ensures LocalInv(log, b, key, th)
  {
    hide LogOk, BackendOk, KeyOk;
  }

  lemma SameStore(log: Log, log': Log, b: Backend, m: Records)
    requires Represents(log, b, m)
    requires log'.dek == log.dek && log'.storeID == log.storeID && log'.installs == log.installs
    ensures Represents(log', b, m)
  {
    hide SealRecord, ValidateRecord, Normalize, WellFormed;
    forall a | a in m ensures SealsRecord(log', m[a], b.envelopes[a]) {
      assert SealsRecord(log, m[a], b.envelopes[a]);
    }
  }

  /** The first step of a data call is its last, or prepares its one backend call. */
  lemma StartOfData(key: HandleKey, b: Backend, op: Op, c: Choice)
    requires IsData(op) && key.Held?
    ensures var n := StartStep(key, b, op, c);
      && n.key == key && n.backend == b
      && (n.pc.Finished? || n.pc.PutSend? || n.pc.GetSend? || n.pc.DeleteSend?)
      && (n.pc.Finished? ==> TookEffect(op, n.pc))
  {
    hide TrimSpace, RecordAAD, ValidateRecord, Normalize;
    if Validate(op).Err? {
      ArgumentErrors(op);
    }
  }

  lemma ArgumentErrors(op: Op)
    requires IsData(op) && Validate(op).Err?
    ensures Validate(op).error == InvalidAlias || Validate(op).error == InvalidRecord
  {
    hide TrimSpace;
  }

  lemma SendAlone(log: Log, b: Backend, key: HandleKey, th: Thread, c: Choice, m: Records)
    requires LocalInv(log, b, key, th) && Represents(log, b, m) && IsData(th.op) && ValidChoice(c)
    requires th.pc.PutSend? || th.pc.GetSend? || th.pc.DeleteSend?
    ensures var (key', b', reply) := RunAlone(key, b, th.op, th.pc, c);
      key' == key && b'.header == b.header && reply == MapStep(m, th.op).1 && Represents(log, b', MapStep(m, th.op).0)
  {
    hide RunAlone, Represents, LogOk, BackendOk, KeyOk, MapStep, ThreadOk, ThreadStep;
    var n := ThreadStep(key, b, th.op, th.pc, c);
    SendFinishes(key, b, th, c);
    Unroll(key, b, th.op, th.pc, c);
    UnrollFinished(key, n.backend, th.op, n.pc.reply, c);
    match th.pc
    case PutSend(_, _) => PutIsAtomic(log, b, key, th, c, m);
    case GetSend(_, _, _) => GetIsAtomic(log, b, key, th, c, m);
    case DeleteSend(_) => DeleteIsAtomic(log, b, key, th, c, m);
  }

  lemma SendFinishes(key: HandleKey, b: Backend, th: Thread, c: Choice)
    requires th.pc.PutSend? || th.pc.GetSend? || th.pc.DeleteSend?
    ensures var n := ThreadStep(key, b, th.op, th.pc, c);
      n.pc.Finished? && n.key == key && n.backend.header == b.header
  {
    hide TrimSpace, OpenRecord, StartStep;
  }

  // ---------- While locked ----------

  /** On a locked handle Put, Get and Delete fail and change nothing, while Has and List
      answer what the map answers. */
  lemma LockedHandle(steps: seq<Step>, t: nat, c: Choice)
    requires Possible(steps) && !After(steps).log.tampered && Enabled(After(steps), Run(t, c))
    requires var s := After(steps); s.threads[t].pc.Start? && IsData(s.threads[t].op) && s.handles[s.threads[t].handle].NoKey?
    ensures Legal(After(steps).log.events)
    ensures var s, op := After(steps), After(steps).threads[t].op;
      var s' := Take(s, Run(t, c));
      && s'.backend == s.backend && s'.handles == s.handles
      && s'.threads[t].pc == Finished(
           if op.Has? || op.List? then MapStep(Contents(s.log.events), op).1
           else if Validate(op).Err? then Failure(Validate(op).error)
           else Failure(Locked))
  {
    var s := After(steps);
    RunsAreLinearizable(steps);
    hide Possible, After;
    StartedByRun(s, t, c);
    hide Enabled, Take, StartStep, Legal, Contents, MapStep, Validate, SealsRecord, WellFormed;
    LockedStart(s.backend, s.threads[t], c, Contents(s.log.events));
  }

  lemma StartedByRun(s: State, t: nat, c: Choice)
    requires Enabled(s, Run(t, c)) && s.threads[t].pc.Start?
    ensures var s', key := Take(s, Run(t, c)), s.handles[s.threads[t].handle];
      var n := StartStep(key, s.backend, s.threads[t].op, c);
      && s'.backend == n.backend && s'.threads[t].pc == n.pc
      && (n.key == key ==> s'.handles == s.handles)
  {
    hide StartStep, Logged, MutexFree, NeedsMutex;
    var h := s.threads[t].handle;
    assert s.handles[h := s.handles[h]] == s.handles;
  }

  lemma LockedStart(b: Backend, th: Thread, c: Choice, m: Records)
    requires b.envelopes.Keys == m.Keys && IsData(th.op)
    ensures var n := StartStep(NoKey, b, th.op, c);
      && n.backend == b && n.key == NoKey
      && n.pc == Finished(
           if th.op.Has? || th.op.List? then MapStep(m, th.op).1
           else if Validate(th.op).Err? then Failure(Validate(th.op).error)
           else Failure(Locked))
  {
    hide TrimSpace, ValidateRecord, Normalize;
    if th.op.Has? {
      TrimSpaceIdempotent(th.op.alias);
    }
  }

  /** Records never exist without a header, so Initialize meets envelopes only when
      another call has just initialised the store. */
  lemma RecordsNeedHeader(steps: seq<Step>)
    requires Possible(steps) && !After(steps).log.tampered && After(steps).backend.header.None?
    ensures After(steps).backend.envelopes == map[]
  {
    RunsAreLinearizable(steps);
    InvAlways(steps);
    var s := After(steps);
    hide Possible, After, Contents, WellFormed, LogOk, Legal;
    assert forall a :: a !in s.backend.envelopes;
  }
}
