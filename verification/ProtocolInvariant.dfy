/** What every step of every interleaving keeps: one DEK and one store id for ever,
    headers that wrap that DEK at consecutive revisions, handles and calls in flight
    that hold it, and envelopes sealed under it only by Put. */
module ProtocolInvariant {
  import opened ByteStrings
  import opened Text
  import opened Aead
  import opened Storage
  import opened Codec
  import opened KeyHierarchy
  import opened BackendContract
  import opened AliasMap
  import opened Protocol

  const REVISIONS: nat := 0x1_0000_0000_0000_0000

  /** The revision of the i-th installed header: 1, 2, ..., 2^64 - 1, and then 0. */
  function RevisionAt(i: nat): uint64
    requires i < REVISIONS
  {
    if i + 1 == REVISIONS then 0 else i + 1
  }

  ghost predicate KnownRevision(log: Log, r: uint64) {
    1 <= r <= |log.installs| || (r == 0 && |log.installs| == REVISIONS)
  }

  /** h carries dek wrapped under kek for its own identity. */
  ghost predicate Wraps(h: Header, kek: Key, dek: Key) {
    |kek| == KEY_SIZE && |h.wrappedDEK.nonce| == NONCE_SIZE && WrapInto(h, kek, dek, h.wrappedDEK.nonce) == Ok(h)
  }

  lemma WrapIntoWraps(g: Header, kek: Key, dek: Key, nonce: Bytes)
    requires |nonce| == NONCE_SIZE && WrapInto(g, kek, dek, nonce).Ok?
    ensures Wraps(WrapInto(g, kek, dek, nonce).value, kek, dek)
  {
    assert HeaderAAD(WrapInto(g, kek, dek, nonce).value) == HeaderAAD(g);
  }

  ghost predicate InstallOk(log: Log, i: nat)
    requires i < |log.installs| <= REVISIONS
  {
    var n := log.installs[i];
    && n.header.version == FORMAT_VERSION && n.header.revision == RevisionAt(i)
    && n.header.storeID == log.storeID && ValidateKEKReference(n.header.kek).Ok?
    && Wraps(n.header, n.kek, log.dek)
  }

  /** blob is rec sealed under the store's DEK for its own alias. */
  ghost predicate SealsRecord(log: Log, rec: Record, blob: Blob) {
    && log.installs != [] && ValidateRecord(rec).Ok? && Normalize(rec) == rec && |blob.nonce| == NONCE_SIZE
    && SealRecord(log.storeID, log.dek, rec, blob.nonce) == Ok(blob)
  }

  ghost predicate LogOk(log: Log) {
    && |log.installs| <= REVISIONS
    && (log.installs != [] ==> |log.dek| == KEY_SIZE && |log.storeID| == STORE_ID_SIZE)
    && (forall i :: 0 <= i < |log.installs| ==> InstallOk(log, i))
    && AllData(log.events)
    && (forall k :: 0 <= k < |log.sent| ==> SealsRecord(log, log.sent[k].rec, log.sent[k].blob))
  }

  /** c is no record of this store, or one that a Put has sealed. */
  ghost predicate Accounted(log: Log, c: Ciphertext) {
    SealedUnder(c, log.dek) ==> WrapsKey(c) || WasSent(log, c)
  }

  /** The stored header is the last one installed, as JSON returns it, and the backend
      cannot make ciphertexts under the DEK. */
  ghost predicate BackendOk(log: Log, b: Backend) {
    && b.header == (if log.installs == [] then None else Some(PersistHeader(log.installs[|log.installs| - 1].header)))
    && (log.installs != [] ==> forall a :: a in b.envelopes ==> Accounted(log, b.envelopes[a].ciphertext))
  }

  ghost predicate Holds(log: Log, h: Header, dek: Key) {
    log.installs != [] && dek == log.dek && h.storeID == log.storeID && KnownRevision(log, h.revision)
  }

  ghost predicate KeyOk(log: Log, key: HandleKey) {
    key.Held? ==> Holds(log, key.header, key.dek)
  }

  predicate Initializes(op: Op, ref: KEKReference, kek: Key) {
    op.Initialize? && op.kek == kek && ref == NormalizeReference(op.ref) && Validate(op).Ok?
  }

  predicate Rotates(op: Op, next: KEKReference, kek: Key) {
    op.RotateKEK? && op.nextKEK == kek && next == NormalizeReference(op.next) && Validate(op).Ok?
  }

  ghost predicate ThreadOk(log: Log, th: Thread) {
    match th.pc
    case Start => true
    case InitList(ref, kek) => Initializes(th.op, ref, kek)
    case InitCreate(ref, kek) => Initializes(th.op, ref, kek)
    case Publish(h, dek) => (th.op.Initialize? || th.op.Unlock?) && Holds(log, h, dek)
    case RotateLoad(next, kek) => Rotates(th.op, next, kek) && log.installs != []
    case RotateSwap(expected, rotated, kek) =>
      && Rotates(th.op, rotated.kek, kek) && log.installs != []
      && 1 <= expected <= |log.installs| && rotated.revision == Increment(expected)
      && rotated.version == FORMAT_VERSION && rotated.storeID == log.storeID && Wraps(rotated, kek, log.dek)
    case RotatePublish(rotated) => th.op.RotateKEK? && Holds(log, rotated, log.dek)
    case PutSend(rec, blob) =>
      && th.op.Put? && rec == Normalize(th.op.rec)
      && SealsRecord(log, rec, blob) && WasSent(log, blob.ciphertext)
    case GetSend(alias, storeID, dek) =>
      && th.op.Get? && alias == TrimSpace(th.op.alias) && alias != []
      && log.installs != [] && storeID == log.storeID && dek == log.dek
    case DeleteSend(alias) => th.op.Delete? && alias == TrimSpace(th.op.alias) && alias != []
    case Finished(_) => true
  }

  ghost predicate Inv(s: State) {
    && LogOk(s.log)
    && BackendOk(s.log, s.backend)
    && (forall h :: h in s.handles ==> KeyOk(s.log, s.handles[h]))
    && (forall t :: t in s.threads ==> ThreadOk(s.log, s.threads[t]) && s.threads[t].handle in s.handles)
  }

  /** log' is a later log of the same store. */
  ghost predicate Grows(log: Log, log': Log) {
    && log.installs <= log'.installs && log.events <= log'.events && log.sent <= log'.sent
    && (log.installs != [] ==> log'.dek == log.dek && log'.storeID == log.storeID)
  }

  /** The part of the invariant one call sees. */
  ghost predicate LocalInv(log: Log, b: Backend, key: HandleKey, th: Thread) {
    LogOk(log) && BackendOk(log, b) && KeyOk(log, key) && ThreadOk(log, th)
  }

  lemma KeyOkGrows(log: Log, log': Log, key: HandleKey)
    requires Grows(log, log') && |log'.installs| <= REVISIONS && KeyOk(log, key)
    ensures KeyOk(log', key)
  {
  }

  lemma WasSentGrows(log: Log, log': Log, c: Ciphertext)
    requires log.sent <= log'.sent && WasSent(log, c)
    ensures WasSent(log', c)
  {
    var k :| 0 <= k < |log.sent| && log.sent[k].blob.ciphertext == c;
    assert log'.sent[k].blob.ciphertext == c;
  }

  lemma ThreadOkGrows(log: Log, log': Log, th: Thread)
    requires Grows(log, log') && |log'.installs| <= REVISIONS && ThreadOk(log, th)
    ensures ThreadOk(log', th)
  {
    hide Initializes, Rotates, Normalize, Wraps, SealRecord, ValidateRecord, TrimSpace, WasSent;
    if th.pc.PutSend? {
      WasSentGrows(log, log', th.pc.blob.ciphertext);
    }
  }

  lemma BackendOkGrows(log: Log, log': Log, b: Backend)
    requires BackendOk(log, b) && Grows(log, log') && log'.installs == log.installs
    ensures BackendOk(log', b)
  {
    hide PersistHeader, WrapsKey, WasSent;
    forall a | log.installs != [] && a in b.envelopes ensures Accounted(log', b.envelopes[a].ciphertext) {
      var c := b.envelopes[a].ciphertext;
      assert Accounted(log, c);
      if WasSent(log, c) {
        WasSentGrows(log, log', c);
      }
    }
  }

  lemma LogOkBounds(log: Log)
    requires LogOk(log)
    ensures |log.installs| <= REVISIONS
  {
  }

  // ---------- One step of one call ----------

  /** The log entry and the local invariant after a step. */
  ghost predicate StepKeeps(log: Log, b: Backend, key: HandleKey, th: Thread, t: nat, c: Choice) {
    var n := ThreadStep(key, b, th.op, th.pc, c);
    var log' := Logged(log, t, th.op, th.pc, c, n.pc);
    Grows(log, log') && LocalInv(log', n.backend, n.key, th.(pc := n.pc))
  }

  /** Reporting the result of a data call, or nothing, changes no other fact. */
  lemma QuietLog(log: Log, b: Backend, key: HandleKey, th: Thread, t: nat, c: Choice, pc': PC)
    requires LocalInv(log, b, key, th)
    requires !(th.pc.InitCreate? && pc'.Publish?) && !(th.pc.RotateSwap? && pc'.RotatePublish?)
    requires !(th.pc.Start? && pc'.PutSend?)
    ensures var log' := Logged(log, t, th.op, th.pc, c, pc');
      Grows(log, log') && LogOk(log') && BackendOk(log', b) && KeyOk(log', key)
      && log'.installs == log.installs && log'.sent == log.sent && log'.dek == log.dek && log'.storeID == log.storeID
  {
    hide LogOk, BackendOk;
    var log' := Logged(log, t, th.op, th.pc, c, pc');
    assert AllData(log.events) by { LogOkIsData(log); }
    SameFacts(log, log');
    BackendOkGrows(log, log', b);
  }

  lemma LogOkIsData(log: Log)
    requires LogOk(log)
    ensures AllData(log.events)
  {
  }

  lemma SameFacts(log: Log, log': Log)
    requires LogOk(log) && AllData(log'.events)
    requires log'.installs == log.installs && log'.sent == log.sent && log'.dek == log.dek && log'.storeID == log.storeID
    ensures LogOk(log')
  {
    hide SealRecord, ValidateRecord, Normalize, Wraps, ValidateKEKReference;
    forall i | 0 <= i < |log'.installs| ensures InstallOk(log', i) {
      assert InstallOk(log, i);
    }
    forall k | 0 <= k < |log'.sent| ensures SealsRecord(log', log'.sent[k].rec, log'.sent[k].blob) {
      assert SealsRecord(log, log.sent[k].rec, log.sent[k].blob);
    }
  }

  /** A Put has sealed one more record. */
  lemma SendingLog(log: Log, log': Log, b: Backend, key: HandleKey, s: Sending)
    requires LogOk(log) && BackendOk(log, b) && KeyOk(log, key) && SealsRecord(log, s.rec, s.blob)
    requires log' == log.(sent := log.sent + [s])
    ensures Grows(log, log') && LogOk(log') && BackendOk(log', b) && KeyOk(log', key) && WasSent(log', s.blob.ciphertext)
  {
    hide SealRecord, ValidateRecord, Normalize, Wraps, ValidateKEKReference, BackendOk;
    forall i | 0 <= i < |log'.installs| ensures InstallOk(log', i) {
      assert InstallOk(log, i);
    }
    forall k | 0 <= k < |log'.sent| ensures SealsRecord(log', log'.sent[k].rec, log'.sent[k].blob) {
      if k < |log.sent| {
        assert SealsRecord(log, log.sent[k].rec, log.sent[k].blob);
      }
    }
    assert log'.sent[|log.sent|] == s;
    BackendOkGrows(log, log', b);
  }

  // ---------- What the stored header unlocks to ----------

  /** The stored header opens under the last installed KEK if that KEK's RP id is
      valid UTF-8; every other key fails authentication. After 2^64 headers the
      revision is 0 and nothing opens it. */
  lemma StoredHeaderOpens(log: Log, b: Backend, kek: Key)
    requires LogOk(log) && BackendOk(log, b) && log.installs != [] && |kek| == KEY_SIZE
    ensures var last := log.installs[|log.installs| - 1];
      UnwrapHeader(b.header.value, kek) ==
        if |log.installs| == REVISIONS then Err(InvalidRecord)
        else if kek == last.kek && ValidUtf8(last.header.kek.rpID) then Ok(log.dek)
        else Err(Integrity)
  {
    var i := |log.installs| - 1;
    var last := log.installs[i];
    assert InstallOk(log, i);
    if |log.installs| < REVISIONS {
      StoredHeaderValid(log, b);
      JsonLosslessIffValid(last.header.kek.rpID);
      AlgorithmSurvivesJson();
      UnwrapIff(last.header, last.kek, log.dek, last.header.wrappedDEK.nonce, b.header.value, kek);
    }
  }

  lemma StoredHeaderValid(log: Log, b: Backend)
    requires LogOk(log) && BackendOk(log, b) && log.installs != []
    ensures b.header.Some? && b.header.value.storeID == log.storeID
    ensures b.header.value.version == FORMAT_VERSION
    ensures b.header.value.revision == RevisionAt(|log.installs| - 1)
    ensures ValidateKEKReference(b.header.value.kek).Ok?
    ensures ValidateHeader(b.header.value).Ok? <==> |log.installs| < REVISIONS
  {
    var last := log.installs[|log.installs| - 1];
    assert InstallOk(log, |log.installs| - 1);
    JsonKeepsNonBlank(last.header.kek.rpID);
    AlgorithmSurvivesJson();
  }

  // ---------- Each kind of step ----------

  lemma StartKeeps(log: Log, b: Backend, key: HandleKey, th: Thread, t: nat, c: Choice)
    requires LocalInv(log, b, key, th) && th.pc.Start? && ValidChoice(c)
    ensures StepKeeps(log, b, key, th, t, c)
  {
    hide LogOk, BackendOk, KeyOk, StartStep, Validate, ThreadOk, SealsRecord;
    var n := ThreadStep(key, b, th.op, th.pc, c);
    var log' := Logged(log, t, th.op, th.pc, c, n.pc);
    StartTouchesNothing(key, b, th.op, c);
    StartedThread(log, b, key, th, c);
    if n.pc.PutSend? {
      SendingLog(log, log', b, key, Sending(t, n.pc.rec, n.pc.blob));
      PutIsUnderWay(log, log', th, n.pc);
    } else {
      QuietLog(log, b, key, th, t, c, n.pc);
      LogOkBounds(log');
      ThreadOkGrows(log, log', th.(pc := n.pc));
    }
    NoKeyIsOk(log');
  }

  lemma PutIsUnderWay(log: Log, log': Log, th: Thread, pc: PC)
    requires pc.PutSend? && StartedOk(log, th, pc) && WasSent(log', pc.blob.ciphertext)
    requires log' == log.(sent := log'.sent)
    ensures ThreadOk(log', th.(pc := pc))
  {
    hide SealRecord, ValidateRecord, Normalize;
  }

  lemma NoKeyIsOk(log: Log)
    ensures KeyOk(log, NoKey)
  {
  }

  lemma StartTouchesNothing(key: HandleKey, b: Backend, op: Op, c: Choice)
    ensures var n := StartStep(key, b, op, c); n.backend == b && (n.key == key || n.key == NoKey)
  {
  }

  /** What a call's first step leaves it with; a Put's blob is not on record yet. */
  ghost predicate StartedOk(log: Log, th: Thread, pc: PC) {
    if pc.PutSend? then th.op.Put? && pc.rec == Normalize(th.op.rec) && SealsRecord(log, pc.rec, pc.blob)
    else ThreadOk(log, th.(pc := pc))
  }

  lemma UnlockStarts(log: Log, b: Backend, kek: Key)
    requires LogOk(log) && BackendOk(log, b) && |kek| == KEY_SIZE
    ensures var pc := UnlockLoad(b, kek); (pc.Finished? && pc.reply.Failure?) || (pc.Publish? && Holds(log, pc.header, pc.dek))
  {
    if log.installs != [] {
      StoredHeaderOpens(log, b, kek);
      StoredHeaderValid(log, b);
      LogOkBounds(log);
      hide LogOk, BackendOk, UnwrapHeader, ValidUtf8;
    } else {
      hide LogOk, UnwrapHeader;
    }
  }

  lemma PutStarts(log: Log, key: HandleKey, raw: Record, c: Choice)
    requires KeyOk(log, key) && ValidateRecord(Normalize(raw)).Ok? && ValidChoice(c)
    ensures var pc := PutSnapshot(key, Normalize(raw), c);
      (pc.Finished? && pc.reply.Failure?) || (pc.PutSend? && pc.rec == Normalize(raw) && SealsRecord(log, pc.rec, pc.blob))
  {
    NormalizeIdempotent(raw);
    hide Normalize, ValidateRecord, EncodeRecord, RecordAAD;
  }

  lemma OtherStarts(log: Log, b: Backend, key: HandleKey, th: Thread, c: Choice)
    requires KeyOk(log, key) && !th.op.Unlock? && !th.op.Put?
    ensures StartedOk(log, th, StartStep(key, b, th.op, c).pc)
  {
    hide TrimSpace, NormalizeReference, ValidateKEKReference, ValidateHeader, ListEnvelopes, KnownRevision;
    hide UnlockLoad, PutSnapshot;
  }

  lemma StartedThread(log: Log, b: Backend, key: HandleKey, th: Thread, c: Choice)
    requires LocalInv(log, b, key, th) && th.pc.Start? && ValidChoice(c)
    ensures StartedOk(log, th, StartStep(key, b, th.op, c).pc)
  {
    hide LogOk, BackendOk, KeyOk, TrimSpace, ValidateKEKReference;
    if th.op.Unlock? {
      hide Holds, UnlockLoad;
      if |th.op.kek| == KEY_SIZE {
        UnlockStarts(log, b, th.op.kek);
      }
    } else if th.op.Put? {
      hide Normalize, SealsRecord, PutSnapshot, ValidateRecord;
      if Validate(th.op).Ok? {
        PutStarts(log, key, th.op.rec, c);
      }
    } else {
      hide StartedOk, StartStep;
      OtherStarts(log, b, key, th, c);
    }
  }

  lemma InitListKeeps(log: Log, b: Backend, key: HandleKey, th: Thread, t: nat, c: Choice)
    requires LocalInv(log, b, key, th) && th.pc.InitList? && ValidChoice(c)
    ensures StepKeeps(log, b, key, th, t, c)
  {
    hide StartStep, InitCreateStep, RotateLoadStep, GetSendStep, LogOk, BackendOk, Validate;
    QuietLog(log, b, key, th, t, c, ThreadStep(key, b, th.op, th.pc, c).pc);
  }

  lemma InitCreateKeeps(log: Log, b: Backend, key: HandleKey, th: Thread, t: nat, c: Choice)
    requires LocalInv(log, b, key, th) && th.pc.InitCreate? && ValidChoice(c)
    requires forall a :: a in b.envelopes ==> !SealedUnder(b.envelopes[a].ciphertext, c.dek)
    ensures StepKeeps(log, b, key, th, t, c)
  {
    hide StartStep, RotateLoadStep, GetSendStep, LogOk, Wraps, WrapInto, ValidateKEKReference, InstallOk;
    var n := ThreadStep(key, b, th.op, th.pc, c);
    var log' := Logged(log, t, th.op, th.pc, c, n.pc);
    if n.pc.Publish? {
      CreatedHeader(b, th.pc.ref, th.pc.kek, c);
      FirstInstall(log, log', th.pc.ref, Install(t, th.pc.kek, n.pc.header), c);
    } else {
      QuietLog(log, b, key, th, t, c, n.pc);
    }
  }

  lemma CreatedHeader(b: Backend, ref: KEKReference, kek: Key, c: Choice)
    requires ValidChoice(c)
    ensures var pc := InitCreateStep(b, ref, kek, c).1; pc.Publish? || (pc.Finished? && pc.reply.Failure?)
    ensures var (b', pc) := InitCreateStep(b, ref, kek, c); pc.Publish? ==>
      && b.header.None? && b' == b.(header := Some(PersistHeader(pc.header))) && pc.dek == c.dek
      && pc.header == Header(FORMAT_VERSION, 1, c.storeID, ref, pc.header.wrappedDEK)
      && Wraps(pc.header, kek, c.dek)
  {
    var h := Header(FORMAT_VERSION, 1, c.storeID, ref, NO_BLOB);
    if WrapInto(h, kek, c.dek, c.nonce).Ok? {
      WrapIntoWraps(h, kek, c.dek, c.nonce);
    }
  }

  lemma FirstInstall(log: Log, log': Log, ref: KEKReference, install: Install, c: Choice)
    requires LogOk(log) && log.installs == [] && ValidChoice(c) && ValidateKEKReference(ref).Ok?
    requires install.header == Header(FORMAT_VERSION, 1, c.storeID, ref, install.header.wrappedDEK)
    requires Wraps(install.header, install.kek, c.dek)
    requires log' == log.(dek := c.dek, storeID := c.storeID, installs := [install])
    ensures Grows(log, log') && LogOk(log')
  {
    hide Wraps, ValidateKEKReference, SealRecord, ValidateRecord, Normalize;
    assert InstallOk(log', 0);
    assert log.sent == [] by {
      assert log.sent != [] ==> SealsRecord(log, log.sent[0].rec, log.sent[0].blob);
    }
  }

  lemma RotateLoadKeeps(log: Log, b: Backend, key: HandleKey, th: Thread, t: nat, c: Choice)
    requires LocalInv(log, b, key, th) && th.pc.RotateLoad? && ValidChoice(c)
    ensures StepKeeps(log, b, key, th, t, c)
  {
    hide StartStep, InitCreateStep, RotateLoadStep, RotateSwapStep, GetSendStep, LogOk, Wraps, ValidateHeader, Validate;
    var n := ThreadStep(key, b, th.op, th.pc, c);
    LoadedForRotation(key, b, th.pc.next, th.pc.kek, c);
    QuietLog(log, b, key, th, t, c, n.pc);
    if n.pc.RotateSwap? {
      StoredHeaderValid(log, b);
    }
  }

  lemma LoadedForRotation(key: HandleKey, b: Backend, next: KEKReference, kek: Key, c: Choice)
    requires ValidChoice(c)
    ensures var pc := RotateLoadStep(key, b, next, kek, c);
      && (pc.RotateSwap? || (pc.Finished? && pc.reply.Failure?))
      && (pc.RotateSwap? ==>
            && key.Held? && b.header.Some? && ValidateHeader(b.header.value).Ok? && pc.kek == kek
            && pc.expected == b.header.value.revision == key.header.revision
            && pc.rotated == b.header.value.(revision := Increment(pc.expected), kek := next, wrappedDEK := pc.rotated.wrappedDEK)
            && Wraps(pc.rotated, kek, key.dek))
  {
    hide ValidateHeader;
    if key.Held? && b.header.Some? {
      var g := b.header.value.(revision := Increment(b.header.value.revision), kek := next);
      if WrapInto(g, kek, key.dek, c.nonce).Ok? {
        WrapIntoWraps(g, kek, key.dek, c.nonce);
      }
    }
  }

  lemma RotateSwapKeeps(log: Log, b: Backend, key: HandleKey, th: Thread, t: nat, c: Choice)
    requires LocalInv(log, b, key, th) && th.pc.RotateSwap? && ValidChoice(c)
    ensures StepKeeps(log, b, key, th, t, c)
  {
    hide StartStep, InitCreateStep, RotateLoadStep, GetSendStep, PutSendStep, DeleteSendStep, LogOk, Wraps, ValidateKEKReference;
    var n := ThreadStep(key, b, th.op, th.pc, c);
    var log' := Logged(log, t, th.op, th.pc, c, n.pc);
    if n.pc.RotatePublish? {
      StoredHeaderValid(log, b);
      LogOkBounds(log);
      RotatesToValid(th.op, th.pc.rotated.kek, th.pc.kek);
      SwapExtendsLog(log, log', Install(t, th.pc.kek, th.pc.rotated));
      KeyOkGrows(log, log', key);
    } else {
      QuietLog(log, b, key, th, t, c, n.pc);
    }
  }

  lemma RotatesToValid(op: Op, next: KEKReference, kek: Key)
    requires Rotates(op, next, kek)
    ensures ValidateKEKReference(next).Ok? && |kek| == KEY_SIZE
  {
  }

  lemma SwapExtendsLog(log: Log, log': Log, install: Install)
    requires LogOk(log) && 0 < |log.installs| < REVISIONS
    requires log' == log.(installs := log.installs + [install])
    requires InstallOk(log', |log.installs|)
    ensures Grows(log, log') && LogOk(log')
  {
    hide SealRecord, ValidateRecord, Normalize, Wraps, ValidateKEKReference;
    forall i | 0 <= i < |log'.installs| ensures InstallOk(log', i) {
      if i < |log.installs| {
        assert InstallOk(log, i);
        assert log'.installs[i] == log.installs[i];
      }
    }
    forall k | 0 <= k < |log'.sent| ensures SealsRecord(log', log'.sent[k].rec, log'.sent[k].blob) {
      assert SealsRecord(log, log.sent[k].rec, log.sent[k].blob);
    }
  }

  lemma PublishKeeps(log: Log, b: Backend, key: HandleKey, th: Thread, t: nat, c: Choice)
    requires LocalInv(log, b, key, th) && (th.pc.Publish? || th.pc.RotatePublish?)
    ensures StepKeeps(log, b, key, th, t, c)
  {
    hide StartStep, InitCreateStep, RotateLoadStep, GetSendStep;
    QuietLog(log, b, key, th, t, c, Finished(Success));
  }

  lemma PutSendResult(key: HandleKey, b: Backend, op: Op, pc: PC, c: Choice)
    requires pc.PutSend?
    ensures var (b', r) := PutEnvelope(b, pc.rec.alias, pc.blob);
      ThreadStep(key, b, op, pc, c) == Next(key, b', Finished(if r.Ok? then Success else Failure(r.error)))
  {
    hide PutEnvelope;
  }

  lemma PutSendKeeps(log: Log, b: Backend, key: HandleKey, th: Thread, t: nat, c: Choice)
    requires LocalInv(log, b, key, th) && th.pc.PutSend?
    ensures StepKeeps(log, b, key, th, t, c)
  {
    hide ThreadStep, Logged, LogOk, KeyOk, BackendOk, Grows, WasSent, SealsRecord, Normalize, PutEnvelope;
    var n := ThreadStep(key, b, th.op, th.pc, c);
    PutSendResult(key, b, th.op, th.pc, c);
    QuietLog(log, b, key, th, t, c, n.pc);
    assert WasSent(Logged(log, t, th.op, th.pc, c, n.pc), th.pc.blob.ciphertext) by {
      WasSentGrows(log, Logged(log, t, th.op, th.pc, c, n.pc), th.pc.blob.ciphertext);
    }
    OneMoreEnvelope(Logged(log, t, th.op, th.pc, c, n.pc), b, th.pc.rec.alias, th.pc.blob);
  }

  lemma OneMoreEnvelope(log: Log, b: Backend, alias: Bytes, blob: Blob)
    requires BackendOk(log, b) && WasSent(log, blob.ciphertext)
    ensures BackendOk(log, PutEnvelope(b, alias, blob).0)
  {
    hide WasSent, WrapsKey, PersistHeader, TrimSpace;
  }

  lemma GetSendKeeps(log: Log, b: Backend, key: HandleKey, th: Thread, t: nat, c: Choice)
    requires LocalInv(log, b, key, th) && th.pc.GetSend?
    ensures StepKeeps(log, b, key, th, t, c)
  {
    hide StartStep, InitCreateStep, RotateLoadStep, RotateSwapStep, OpenRecord, GetEnvelope, LogOk;
    QuietLog(log, b, key, th, t, c, ThreadStep(key, b, th.op, th.pc, c).pc);
  }

  lemma DeleteSendResult(key: HandleKey, b: Backend, op: Op, pc: PC, c: Choice)
    requires pc.DeleteSend?
    ensures var n := ThreadStep(key, b, op, pc, c);
      n.key == key && n.backend == DeleteEnvelope(b, pc.alias).0 && n.pc.Finished?
  {
    hide DeleteEnvelope;
  }

  lemma DeleteSendKeeps(log: Log, b: Backend, key: HandleKey, th: Thread, t: nat, c: Choice)
    requires LocalInv(log, b, key, th) && th.pc.DeleteSend?
    ensures StepKeeps(log, b, key, th, t, c)
  {
    hide ThreadStep, Logged, LogOk, KeyOk, BackendOk, Grows, TrimSpace, DeleteEnvelope;
    var n := ThreadStep(key, b, th.op, th.pc, c);
    DeleteSendResult(key, b, th.op, th.pc, c);
    DeletedEnvelopes(b, th.pc.alias);
    QuietLog(log, b, key, th, t, c, n.pc);
    FewerEnvelopes(Logged(log, t, th.op, th.pc, c, n.pc), b, n.backend);
  }

  lemma FewerEnvelopes(log: Log, b: Backend, b': Backend)
    requires BackendOk(log, b) && b'.header == b.header
    requires forall a :: a in b'.envelopes ==> a in b.envelopes && b'.envelopes[a] == b.envelopes[a]
    ensures BackendOk(log, b')
  {
  }

  lemma DeletedEnvelopes(b: Backend, alias: Bytes)
    ensures var b' := DeleteEnvelope(b, alias).0;
      b'.header == b.header && forall a :: a in b'.envelopes ==> a in b.envelopes && b'.envelopes[a] == b.envelopes[a]
  {
  }

  lemma ThreadStepKeeps(log: Log, b: Backend, key: HandleKey, th: Thread, t: nat, c: Choice)
    requires LocalInv(log, b, key, th) && !th.pc.Finished? && ValidChoice(c)
    requires th.pc.InitCreate? ==> forall a :: a in b.envelopes ==> !SealedUnder(b.envelopes[a].ciphertext, c.dek)
    ensures StepKeeps(log, b, key, th, t, c)
  {
    hide StepKeeps, LocalInv;
    match th.pc
    case Start => StartKeeps(log, b, key, th, t, c);
    case InitList(_, _) => InitListKeeps(log, b, key, th, t, c);
    case InitCreate(_, _) => InitCreateKeeps(log, b, key, th, t, c);
    case RotateLoad(_, _) => RotateLoadKeeps(log, b, key, th, t, c);
    case RotateSwap(_, _, _) => RotateSwapKeeps(log, b, key, th, t, c);
    case PutSend(_, _) => PutSendKeeps(log, b, key, th, t, c);
    case Publish(_, _) => PublishKeeps(log, b, key, th, t, c);
    case RotatePublish(_) => PublishKeeps(log, b, key, th, t, c);
    case GetSend(_, _, _) => GetSendKeeps(log, b, key, th, t, c);
    case DeleteSend(_) => DeleteSendKeeps(log, b, key, th, t, c);
  }

  // ---------- Every step of the machine ----------

  lemma RunKeepsInv(s: State, t: nat, c: Choice)
    requires Inv(s) && Enabled(s, Run(t, c))
    ensures Inv(Take(s, Run(t, c))) && Grows(s.log, Take(s, Run(t, c)).log)
  {
    var th := s.threads[t];
    var key := s.handles[th.handle];
    var s' := Take(s, Run(t, c));
    ThreadStepKeeps(s.log, s.backend, key, th, t, c);
    hide ThreadStep, Logged, ThreadOk, KeyOk, LogOk, BackendOk, Grows;
    forall h | h in s'.handles ensures KeyOk(s'.log, s'.handles[h]) {
      if h != th.handle {
        LogOkBounds(s'.log);
        KeyOkGrows(s.log, s'.log, s.handles[h]);
      }
    }
    forall u | u in s'.threads ensures ThreadOk(s'.log, s'.threads[u]) && s'.threads[u].handle in s'.handles {
      if u != t {
        LogOkBounds(s'.log);
        ThreadOkGrows(s.log, s'.log, s.threads[u]);
      }
    }
  }

  lemma InvIsLocal(s: State, t: nat)
    requires Inv(s) && t in s.threads
    ensures s.threads[t].handle in s.handles
    ensures LocalInv(s.log, s.backend, s.handles[s.threads[t].handle], s.threads[t])
  {
  }

  lemma StepKeepsInv(s: State, step: Step)
    requires Inv(s) && Enabled(s, step)
    ensures Inv(Take(s, step)) && Grows(s.log, Take(s, step).log)
  {
    match step
    case Run(t, c) => RunKeepsInv(s, t, c);
    case Tamper(envelopes) => TamperKeepsInv(s, envelopes);
    case _ => LifecycleKeepsInv(s, step);
  }

  lemma LifecycleKeepsInv(s: State, step: Step)
    requires Inv(s) && Enabled(s, step) && !step.Run? && !step.Tamper?
    ensures Inv(Take(s, step)) && Take(s, step).log == s.log
  {
    hide LogOk, BackendOk, Initializes, Rotates, Holds, SealsRecord;
  }

  lemma TamperKeepsInv(s: State, envelopes: map<Bytes, Blob>)
    requires Inv(s) && Enabled(s, Tamper(envelopes))
    ensures Inv(Take(s, Tamper(envelopes))) && Grows(s.log, Take(s, Tamper(envelopes)).log)
  {
    var s' := Take(s, Tamper(envelopes));
    assert LogOk(s'.log) by { assert AllData(s.log.events); SameFacts(s.log, s'.log); }
    TamperedBackend(s, envelopes);
    hide LogOk, BackendOk;
    forall h | h in s'.handles ensures KeyOk(s'.log, s'.handles[h]) {
      LogOkBounds(s'.log);
      KeyOkGrows(s.log, s'.log, s.handles[h]);
    }
    forall u | u in s'.threads ensures ThreadOk(s'.log, s'.threads[u]) && s'.threads[u].handle in s'.handles {
      LogOkBounds(s'.log);
      ThreadOkGrows(s.log, s'.log, s.threads[u]);
    }
  }

  lemma TamperedBackend(s: State, envelopes: map<Bytes, Blob>)
    requires BackendOk(s.log, s.backend) && Enabled(s, Tamper(envelopes))
    ensures BackendOk(Take(s, Tamper(envelopes)).log, Take(s, Tamper(envelopes)).backend)
  {
    hide WrapsKey, PersistHeader;
  }

  /** The invariant holds after every possible run, tampered with or not. */
  lemma {:induction false} InvAlways(steps: seq<Step>)
    requires Possible(steps)
    ensures Inv(After(steps))
  {
    if steps != [] {
      InvAlways(steps[..|steps| - 1]);
      hide Inv, Enabled, Take;
      StepKeepsInv(After(steps[..|steps| - 1]), steps[|steps| - 1]);
    }
  }

  lemma {:induction false} LogOnlyGrows(steps: seq<Step>, n: nat)
    requires Possible(steps) && n <= |steps|
    ensures Possible(steps[..n]) && Grows(After(steps[..n]).log, After(steps).log)
    decreases |steps| - n
  {
    hide Enabled, Take;
    if n == |steps| {
      assert steps[..n] == steps;
    } else {
      var init := steps[..|steps| - 1];
      InvAlways(init);
      StepKeepsInv(After(init), steps[|steps| - 1]);
      LogOnlyGrows(init, n);
      assert init[..n] == steps[..n];
    }
  }
}
