/** What Unlock needs: the KEK of the last installed header, and an RP id that JSON
    carries unchanged. */
module KeyLifecycle {
  import opened Text
  import opened Aead
  import opened Storage
  import opened Codec
  import opened KeyHierarchy
  import opened BackendContract
  import opened AliasMap
  import opened Protocol
  import opened SoloCalls
  import opened ProtocolInvariant
  import Refinement
  import Rotation

  /** In every reachable state Unlock loads and opens the stored header if and only if
      it is given the KEK of the call that installed that header and the RP id of that
      call was valid UTF-8. Any other 32-byte key fails authentication; no key opens a
      header whose revision has wrapped to 0. Until it publishes, nothing changes. */
  lemma UnlockOutcome(steps: seq<Step>, t: nat, c: Choice)
    requires Possible(steps) && Enabled(After(steps), Run(t, c))
    requires After(steps).threads[t].pc.Start? && After(steps).threads[t].op.Unlock?
    requires |After(steps).threads[t].op.kek| == KEY_SIZE
    ensures After(steps).backend.header.Some? <==> After(steps).log.installs != []
    ensures var s, kek := After(steps), After(steps).threads[t].op.kek;
      var s' := Take(s, Run(t, c));
      && s'.handles == s.handles && s'.backend == s.backend && s'.log == s.log
      && s'.threads[t].pc ==
           if s.backend.header.None? then Reject(NotInitialized)
           else if s.backend.header.value.revision == 0 then Reject(InvalidRecord)
           else if kek == s.log.installs[|s.log.installs| - 1].kek
                && ValidUtf8(s.log.installs[|s.log.installs| - 1].header.kek.rpID)
             then Publish(s.backend.header.value, s.log.dek)
           else Reject(Integrity)
  {
    var s := After(steps);
    var th := s.threads[t];
    InvAlways(steps);
    if s.log.installs != [] {
      StoredHeaderOpens(s.log, s.backend, th.op.kek);
      StoredHeaderValid(s.log, s.backend);
    } else {
      assert s.backend.header.None?;
    }
    LogOkBounds(s.log);
    assert s.handles[th.handle := s.handles[th.handle]] == s.handles;
    hide LogOk, BackendOk, UnwrapHeader, ValidUtf8, Possible, After;
  }

  /** Unlock with nothing beside it, in every reachable state: with the last installed
      KEK and an RP id that JSON carries, the handle holds the stored header and the
      store's key, whatever it held before; otherwise it is as it was. */
  lemma UnlockAlone(steps: seq<Step>, h: nat, kek: Key, c: Choice)
    requires Possible(steps) && h in After(steps).handles && |kek| == KEY_SIZE
    ensures var s := After(steps);
      && (s.backend.header.Some? <==> s.log.installs != [])
      && RunAlone(s.handles[h], s.backend, Unlock(kek), Start, c) ==
           if s.backend.header.None? then (s.handles[h], s.backend, Failure(NotInitialized))
           else if s.backend.header.value.revision == 0 then (s.handles[h], s.backend, Failure(InvalidRecord))
           else if kek == s.log.installs[|s.log.installs| - 1].kek
                && ValidUtf8(s.log.installs[|s.log.installs| - 1].header.kek.rpID)
             then (Held(s.backend.header.value, s.log.dek), s.backend, Success)
           else (s.handles[h], s.backend, Failure(Integrity))
  {
    var s := After(steps);
    InvAlways(steps);
    Rotation.StoredRevision(s);
    if s.log.installs != [] {
      StoredHeaderOpens(s.log, s.backend, kek);
    }
    hide Possible, After, Inv, UnwrapHeader, ValidUtf8, RunAlone;
    UnlockResult(s.handles[h], s.backend, kek, c);
  }

  // ---------- Locked and unlocked ----------

  /** The step that ends Initialize or Unlock leaves the handle unlocked with the header
      and key it publishes. */
  lemma PublishUnlocks(s: State, t: nat, c: Choice)
    requires Enabled(s, Run(t, c)) && s.threads[t].pc.Publish?
    ensures var th, s' := s.threads[t], Take(s, Run(t, c));
      && s'.handles == s.handles[th.handle := Held(th.pc.header, th.pc.dek)]
      && s'.backend == s.backend && s'.threads[t].pc == Finished(Success)
  {
    hide MutexFree;
  }

  /** Lock's one step always succeeds and leaves the handle without a key. */
  lemma LockForgets(s: State, t: nat, c: Choice)
    requires Enabled(s, Run(t, c)) && s.threads[t].pc.Start? && s.threads[t].op.Lock?
    ensures var th, s' := s.threads[t], Take(s, Run(t, c));
      && s'.handles == s.handles[th.handle := NoKey]
      && s'.backend == s.backend && s'.threads[t].pc == Finished(Success)
  {
    hide MutexFree;
  }

  /** A failing call ends with Unavailable and touches nothing; a crash does that to every
      call under way on the handle, and takes its key. */
  lemma TroubleTouchesNothing(s: State, h: nat, t: nat)
    requires h in s.handles && t in s.threads
    ensures Enabled(s, Crash(h))
    ensures MayFail(s.threads[t]) ==>
      Take(s, Step.Fail(t)) == s.(threads := s.threads[t := s.threads[t].(pc := Finished(Failure(Unavailable)))])
    ensures var s' := Take(s, Crash(h));
      && s'.handles == s.handles[h := NoKey] && s'.backend == s.backend && s'.log == s.log
      && s'.threads.Keys == s.threads.Keys && s'.threads[t].op == s.threads[t].op
      && s'.threads[t].pc == if s.threads[t].handle == h && !s.threads[t].pc.Finished?
                             then Finished(Failure(Unavailable)) else s.threads[t].pc
  {
    hide MayFail, MutexFree;
  }

  /** A step that publishes to handle h. */
  predicate Publishes(s: State, step: Step, h: nat) {
    step.Run? && step.thread in s.threads && s.threads[step.thread].handle == h && s.threads[step.thread].pc.Publish?
  }

  lemma OnlyPublishUnlocks(s: State, step: Step, h: nat)
    requires Enabled(s, step) && h in s.handles && s.handles[h].NoKey? && !Publishes(s, step, h)
    ensures h in Take(s, step).handles && Take(s, step).handles[h].NoKey?
  {
    hide MutexFree, NeedsMutex, StartStep, Logged, ThreadStep;
    if step.Run? {
      var th := s.threads[step.thread];
      if th.handle == h {
        KeyAfter(s.handles[h], s.backend, th.op, th.pc, step.choice);
      }
    }
  }

  lemma KeyAfter(key: HandleKey, b: Backend, op: Op, pc: PC, c: Choice)
    requires key.NoKey? && !pc.Publish?
    ensures ThreadStep(key, b, op, pc, c).key.NoKey?
  {
    hide StartStep, RotateLoadStep, GetSendStep;
    StartTouchesNothing(key, b, op, c);
  }

  /** A handle stays locked until an Initialize or Unlock on it publishes: no rotation,
      other call, failure or crash gives it a key. */
  lemma {:induction false} StaysLocked(steps: seq<Step>, n: nat, h: nat)
    requires Possible(steps) && n <= |steps| && Possible(steps[..n])
    requires h in After(steps[..n]).handles && After(steps[..n]).handles[h].NoKey?
    requires forall i :: n <= i < |steps| && Possible(steps[..i]) ==> !Publishes(After(steps[..i]), steps[i], h)
    ensures h in After(steps).handles && After(steps).handles[h].NoKey?
    decreases |steps|
  {
    hide Enabled, Take, Publishes;
    if n == |steps| {
      assert steps[..n] == steps;
    } else {
      var init := steps[..|steps| - 1];
      assert init[..n] == steps[..n];
      forall i | n <= i < |init| && Possible(init[..i]) ensures !Publishes(After(init[..i]), init[i], h) {
        assert init[..i] == steps[..i];
      }
      StaysLocked(init, n, h);
      OnlyPublishUnlocks(After(init), steps[|steps| - 1], h);
    }
  }

  /** The last installed KEK, and the reference stored with it, are those passed to the
      call that installed the header: Initialize for the first, RotateKEK for the rest. */
  lemma LastKEKWasPassed(steps: seq<Step>)
    requires Possible(steps) && After(steps).log.installs != []
    ensures var s := After(steps);
      var last := s.log.installs[|s.log.installs| - 1];
      && last.installer in s.threads
      && var op := s.threads[last.installer].op;
        if |s.log.installs| == 1
        then op.Initialize? && op.kek == last.kek && last.header.kek == NormalizeReference(op.ref)
        else op.RotateKEK? && op.nextKEK == last.kek && last.header.kek == NormalizeReference(op.next)
  {
    Rotation.InstallersAlways(steps);
    var s := After(steps);
    assert Rotation.InstalledBy(s.threads, |s.log.installs| - 1, s.log.installs[|s.log.installs| - 1]);
  }

  /** Steps of Initialize, Unlock, Lock, RotateKEK and Header touch no envelope and no
      record, so every Get answers after them as it did before. */
  lemma KeyCallsKeepRecords(s: State, t: nat, c: Choice)
    requires Enabled(s, Run(t, c)) && !IsData(s.threads[t].op) && Inv(s)
    ensures var s' := Take(s, Run(t, c)); s'.backend.envelopes == s.backend.envelopes && s'.log.events == s.log.events
  {
    hide LocalInv, ThreadStep, Logged, MutexFree, NeedsMutex;
    var th := s.threads[t];
    InvIsLocal(s, t);
    Refinement.LoggedExactly(s.log, s.backend, s.handles[th.handle], th, t, c);
    assert ThreadOk(s.log, th);
    hide Inv, ThreadOk;
    Refinement.SendersSend(s.log, th);
    Refinement.OtherStepsKeepEnvelopes(s.backend, s.handles[th.handle], th, c);
  }

  // ---------- Initialize, then Unlock ----------

  lemma InitializeAlone(ref: KEKReference, kek: Key, c: Choice)
    requires ValidChoice(c) && Validate(Initialize(ref, kek)).Ok?
    ensures var h := FirstHeaderOf(NormalizeReference(ref), kek, c);
      && h.Ok?
      && RunAlone(NoKey, EMPTY, Initialize(ref, kek), Start, c)
         == (Held(h.value, c.dek), EMPTY.(header := Some(PersistHeader(h.value))), Success)
  {
    hide HeaderAAD, PersistHeader, NormalizeReference, ValidateKEKReference, RunAlone;
    InitializeResult(NoKey, EMPTY, ref, kek, c);
  }

  /** A store that accepted Initialize opens again with the same KEK if and only if the
      trimmed RP id is valid UTF-8: the header is authenticated with the bytes of the
      caller but stored as JSON, which replaces invalid ones. */
  lemma ReopensIff(ref: KEKReference, kek: Key, c: Choice, d: Choice)
    requires ValidChoice(c) && Validate(Initialize(ref, kek)).Ok?
    ensures var (key, b, reply) := RunAlone(NoKey, EMPTY, Initialize(ref, kek), Start, c);
      && reply == Success
      && b.header.Some?
      && RunAlone(NoKey, b, Unlock(kek), Start, d)
         == if ValidUtf8(TrimSpace(ref.rpID)) then (Held(b.header.value, c.dek), b, Success)
            else (NoKey, b, Failure(Integrity))
  {
    InitializeAlone(ref, kek, c);
    var ref' := NormalizeReference(ref);
    var g := Header(FORMAT_VERSION, 1, c.storeID, ref', NO_BLOB);
    var h := WrapInto(g, kek, c.dek, c.nonce).value;
    var stored := PersistHeader(h);
    JsonKeepsNonBlank(ref'.rpID) by { TrimSpaceIdempotent(ref.rpID); }
    JsonLosslessIffValid(ref'.rpID);
    AlgorithmSurvivesJson();
    UnwrapIff(g, kek, c.dek, c.nonce, stored, kek);
    var b := EMPTY.(header := Some(stored));
    hide WrapInto, UnwrapHeader, ValidUtf8, PersistHeader;
    UnlockResult(NoKey, b, kek, d);
  }

  /** An RP id of the single byte 0xFF is accepted and locks the store for good. */
  lemma LockedOutExample(ref: KEKReference, kek: Key, c: Choice, d: Choice)
    requires ValidChoice(c) && |kek| == KEY_SIZE
    requires ref.credentialID != [] && |ref.salt| == SALT_SIZE && ref.rpID == [0xFF]
    ensures var (key, b, reply) := RunAlone(NoKey, EMPTY, Initialize(ref, kek), Start, c);
      reply == Success && RunAlone(NoKey, b, Unlock(kek), Start, d).2 == Failure(Integrity)
  {
    assert SkipSpace(ref.rpID, 0) == 0 && DropSpace(ref.rpID, 0, 1) == 1;
    assert TrimSpace(ref.rpID) == ref.rpID;
    assert !ValidUtf8(ref.rpID);
    ReopensIff(ref, kek, c, d);
  }

  // ---------- Rotate, then Unlock ----------

  /** RotateKEK with nothing beside it: in every reachable state it goes through exactly
      when the handle is up to date and the revision has not wrapped. */
  lemma RotateAlone(steps: seq<Step>, h: nat, next: KEKReference, kek: Key, c: Choice)
    requires Possible(steps) && ValidChoice(c) && Validate(RotateKEK(next, kek)).Ok?
    requires h in After(steps).handles && After(steps).handles[h].Held?
    ensures var s := After(steps);
      var key, dek := s.handles[h], s.handles[h].dek;
      var r := RunAlone(key, s.backend, RotateKEK(next, kek), Start, c);
      s.backend.header.Some? &&
      var current := s.backend.header.value;
      if current.revision == 0 then r == (key, s.backend, Failure(InvalidRecord))
      else if current.revision != key.header.revision then r == (key, s.backend, Failure(Conflict))
      else
        var rotated := NextHeaderOf(current, NormalizeReference(next), kek, dek, c);
        rotated.Ok? &&
        r == (Held(rotated.value, dek), s.backend.(header := Some(PersistHeader(rotated.value))), Success)
  {
    var s := After(steps);
    InvAlways(steps);
    assert KeyOk(s.log, s.handles[h]);
    StoredHeaderValid(s.log, s.backend);
    LogOkBounds(s.log);
    hide Possible, After, LogOk, BackendOk, ValidateHeader, ValidateKEKReference, NormalizeReference, PersistHeader, HeaderAAD, RunAlone;
    RotateResult(s.handles[h], s.backend, next, kek, c);
  }

  /** After a rotation, any handle opens the store with the new KEK alone: the old one,
      like any other, fails authentication. The exceptions are an RP id that JSON does
      not carry, and a rotation of the last revision, 2^64 - 1. */
  lemma RotationReopensIff(steps: seq<Step>, h: nat, next: KEKReference, kek: Key, c: Choice, other: Key, d: Choice)
    requires Possible(steps) && ValidChoice(c) && Validate(RotateKEK(next, kek)).Ok? && |other| == KEY_SIZE
    requires h in After(steps).handles && After(steps).handles[h].Held?
    requires RunAlone(After(steps).handles[h], After(steps).backend, RotateKEK(next, kek), Start, c).2 == Success
    ensures var (key, b, reply) := RunAlone(After(steps).handles[h], After(steps).backend, RotateKEK(next, kek), Start, c);
      && After(steps).backend.header.Some? && b.envelopes == After(steps).backend.envelopes
      && b.header.Some?
      && RunAlone(NoKey, b, Unlock(other), Start, d) ==
           if After(steps).backend.header.value.revision == 0xFFFF_FFFF_FFFF_FFFF then (NoKey, b, Failure(InvalidRecord))
           else if other == kek && ValidUtf8(TrimSpace(next.rpID))
             then (Held(b.header.value, After(steps).handles[h].dek), b, Success)
           else (NoKey, b, Failure(Integrity))
  {
    var s := After(steps);
    RotateAlone(steps, h, next, kek, c);
    InvAlways(steps);
    assert KeyOk(s.log, s.handles[h]);
    StoredHeaderValid(s.log, s.backend);
    LogOkBounds(s.log);
    ReferenceIsValid(next, kek);
    hide Possible, After, LogOk, BackendOk, RunAlone, NextHeaderOf, NormalizeReference, ValidateKEKReference, PersistHeader, ValidUtf8;
    RotatedOpens(s.backend.header.value, next, kek, s.handles[h].dek, c, other);
    var b := RunAlone(s.handles[h], s.backend, RotateKEK(next, kek), Start, c).1;
    UnlockResult(NoKey, b, other, d);
  }

  lemma ReferenceIsValid(next: KEKReference, kek: Key)
    requires Validate(RotateKEK(next, kek)).Ok?
    ensures ValidateKEKReference(NormalizeReference(next)).Ok? && |kek| == KEY_SIZE
  {
  }

  lemma RotatedOpens(current: Header, next: KEKReference, kek: Key, dek: Key, c: Choice, other: Key)
    requires ValidChoice(c) && |kek| == |other| == |dek| == KEY_SIZE && NextHeaderOf(current, NormalizeReference(next), kek, dek, c).Ok?
    requires ValidateKEKReference(NormalizeReference(next)).Ok?
    requires current.version == FORMAT_VERSION && |current.storeID| == STORE_ID_SIZE
    ensures var stored := PersistHeader(NextHeaderOf(current, NormalizeReference(next), kek, dek, c).value);
      UnwrapHeader(stored, other) ==
        if stored.revision == 0 then Err(InvalidRecord)
        else if other == kek && ValidUtf8(TrimSpace(next.rpID)) then Ok(dek)
        else Err(Integrity)
  {
    hide TrimSpace, HeaderAAD, ValidUtf8;
    var g := current.(revision := Increment(current.revision), kek := NormalizeReference(next));
    var stored := PersistHeader(NextHeaderOf(current, NormalizeReference(next), kek, dek, c).value);
    if stored.revision != 0 {
      JsonKeepsNonBlank(g.kek.rpID) by { TrimSpaceIdempotent(next.rpID); }
      JsonLosslessIffValid(g.kek.rpID);
      AlgorithmSurvivesJson();
      UnwrapIff(g, kek, dek, c.nonce, stored, other);
    }
  }
}
