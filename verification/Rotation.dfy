/** KEK rotation across handles: no lost update, revisions without gap or reuse, one
    key for ever, and which KEK unlocks what. */
module Rotation {
  import opened Storage
  import opened KeyHierarchy
  import opened BackendContract
  import opened AliasMap
  import opened Protocol
  import opened ProtocolInvariant

  // ---------- One key ----------

  /** All handles, at all times of a run, that hold a key hold the same DEK for the
      same store; it is the store of the header in the backend, and no handle is ahead
      of that header's revision until it wraps to 0. */
  lemma OneKeyForever(steps: seq<Step>, n: nat, g: nat, h: nat)
    requires Possible(steps) && n <= |steps| && Possible(steps[..n])
    requires g in After(steps[..n]).handles && After(steps[..n]).handles[g].Held?
    requires h in After(steps).handles && After(steps).handles[h].Held?
    ensures var early, late := After(steps[..n]).handles[g], After(steps).handles[h];
      && early.dek == late.dek && early.header.storeID == late.header.storeID
      && After(steps).backend.header.Some? && After(steps).backend.header.value.storeID == early.header.storeID
      && (After(steps).backend.header.value.revision != 0 ==>
            1 <= late.header.revision <= After(steps).backend.header.value.revision)
  {
    hide Enabled, Take, LogOk;
    LogOnlyGrows(steps, n);
    InvAlways(steps[..n]);
    InvAlways(steps);
    assert KeyOk(After(steps[..n]).log, After(steps[..n]).handles[g]);
    assert KeyOk(After(steps).log, After(steps).handles[h]);
    StoredRevision(After(steps));
    hide Possible, After, BackendOk;
  }

  /** No header to revision 1, or a non-zero revision to its successor, in one store. */
  predicate Advances(before: Option<Header>, after: Option<Header>) {
    || after == before
    || (before.None? && after.Some? && after.value.revision == 1)
    || (before.Some? && after.Some? && before.value.revision != 0
        && after.value.revision == Increment(before.value.revision) && after.value.storeID == before.value.storeID)
  }

  lemma StepAdvancesHeader(s: State, step: Step)
    requires Inv(s) && Enabled(s, step)
    ensures Advances(s.backend.header, Take(s, step).backend.header)
  {
    var s' := Take(s, step);
    StepKeepsInv(s, step);
    InstallsAdvance(s, step);
    hide Inv, Enabled, Take;
    StoredRevision(s);
    StoredRevision(s');
  }

  /** The stored header never goes away, and moves only from no header to revision 1
      or from a non-zero revision to its successor, in the same store. */
  lemma HeaderAdvances(steps: seq<Step>)
    requires Possible(steps) && steps != []
    ensures Advances(After(steps[..|steps| - 1]).backend.header, After(steps).backend.header)
  {
    hide Enabled, Take, Inv, Advances;
    InvAlways(steps[..|steps| - 1]);
    StepAdvancesHeader(After(steps[..|steps| - 1]), steps[|steps| - 1]);
  }

  lemma InstallsAdvance(s: State, step: Step)
    requires Enabled(s, step)
    ensures |s.log.installs| <= |Take(s, step).log.installs| <= |s.log.installs| + 1
    ensures |Take(s, step).log.installs| == |s.log.installs| ==> Take(s, step).backend.header == s.backend.header
  {
    hide StartStep, RotateLoadStep, GetSendStep, WrapInto, PersistHeader, MutexFree;
    if step.Run? {
      var th := s.threads[step.thread];
      StartTouchesNothing(s.handles[th.handle], s.backend, th.op, step.choice);
    }
  }

  /** The number of headers installed fixes the stored revision. */
  lemma StoredRevision(s: State)
    requires Inv(s)
    ensures s.backend.header.Some? <==> s.log.installs != []
    ensures |s.log.installs| <= REVISIONS
    ensures s.backend.header.Some? ==>
      && s.backend.header.value.revision == RevisionAt(|s.log.installs| - 1)
      && s.backend.header.value.storeID == s.log.storeID
  {
    if s.log.installs != [] {
      StoredHeaderValid(s.log, s.backend);
    }
  }

  /** A stored header fails validation exactly when its revision has wrapped to 0. */
  lemma StoredHeaderValidIff(steps: seq<Step>)
    requires Possible(steps) && After(steps).backend.header.Some?
    ensures var h := After(steps).backend.header.value; ValidateHeader(h).Ok? <==> h.revision != 0
  {
    InvAlways(steps);
    StoredRevision(After(steps));
    StoredHeaderValid(After(steps).log, After(steps).backend);
    hide Possible, After, Inv, ValidateHeader;
  }

  /** Rotating at revision 2^64 - 1 stores revision 0, and that header is the last. */
  lemma {:induction false} WrappedRevisionIsFinal(steps: seq<Step>, n: nat)
    requires Possible(steps) && n <= |steps| && Possible(steps[..n])
    requires After(steps[..n]).backend.header.Some? && After(steps[..n]).backend.header.value.revision == 0
    ensures After(steps).backend.header == After(steps[..n]).backend.header
    decreases |steps|
  {
    hide Enabled, Take;
    if n == |steps| {
      assert steps[..n] == steps;
    } else {
      var init := steps[..|steps| - 1];
      assert init[..n] == steps[..n];
      WrappedRevisionIsFinal(init, n);
      HeaderAdvances(steps);
    }
  }

  // ---------- The mutex ----------

  /** At most one call per handle is inside RotateKEK's locked section, and while it
      is there the handle keeps its key and the revision the call compared. */
  ghost predicate MutexInv(s: State) {
    && (forall t, u :: t in s.threads && u in s.threads && t != u && s.threads[t].handle == s.threads[u].handle ==>
          !(HoldsMutex(s.threads[t].pc) && HoldsMutex(s.threads[u].pc)))
    && (forall t :: t in s.threads && HoldsMutex(s.threads[t].pc) ==>
          s.threads[t].handle in s.handles && HolderOk(s.handles[s.threads[t].handle], s.threads[t].pc))
  }

  predicate HolderOk(key: HandleKey, pc: PC) {
    && key.Held?
    && (pc.RotateSwap? ==> pc.expected == key.header.revision)
    && (pc.RotatePublish? ==> pc.rotated.revision == Increment(key.header.revision))
  }

  lemma KeyChangesUnderMutex(key: HandleKey, b: Backend, op: Op, pc: PC, c: Choice)
    ensures ThreadStep(key, b, op, pc, c).key != key ==> NeedsMutex(op, pc) || pc.RotatePublish?
    ensures !HoldsMutex(pc) && HoldsMutex(ThreadStep(key, b, op, pc, c).pc) ==> NeedsMutex(op, pc)
  {
    hide Validate, UnwrapHeader, WrapInto, SealRecord, OpenRecord, ValidateHeader, NormalizeReference, Normalize;
  }

  lemma StartTakesMutex(key: HandleKey, b: Backend, op: Op, c: Choice)
    ensures var n := StartStep(key, b, op, c); HoldsMutex(n.pc) ==> n.pc.RotateLoad? && n.key == key && key.Held?
  {
    hide Validate, UnwrapHeader, SealRecord, ValidateHeader, NormalizeReference, Normalize;
  }

  lemma HolderSteps(log: Log, b: Backend, key: HandleKey, th: Thread, c: Choice)
    requires ThreadOk(log, th) && ValidChoice(c)
    requires HoldsMutex(th.pc) ==> HolderOk(key, th.pc)
    ensures var n := ThreadStep(key, b, th.op, th.pc, c);
      HoldsMutex(n.pc) && !th.pc.Finished? ==> HolderOk(n.key, n.pc)
  {
    hide StartStep, InitCreateStep, RotateLoadStep, OpenRecord, GetEnvelope, Normalize, Wraps, SealsRecord, Validate;
    match th.pc
    case Start => StartTakesMutex(key, b, th.op, c);
    case InitCreate(ref, kek) => CreatedHeader(b, ref, kek, c);
    case RotateLoad(next, kek) => LoadedForRotation(key, b, next, kek, c);
    case _ =>
  }

  lemma StepKeepsMutex(s: State, step: Step)
    requires Inv(s) && MutexInv(s) && Enabled(s, step)
    ensures MutexInv(Take(s, step))
  {
    if step.Run? {
      RunKeepsMutex(s, step.thread, step.choice);
    } else {
      LifecycleKeepsMutex(s, step);
    }
  }

  lemma LifecycleKeepsMutex(s: State, step: Step)
    requires MutexInv(s) && Enabled(s, step) && !step.Run?
    ensures MutexInv(Take(s, step))
  {
    hide HolderOk, ThreadStep, Logged, NeedsMutex, SealedUnder;
  }

  lemma RunKeepsMutex(s: State, t: nat, c: Choice)
    requires Inv(s) && MutexInv(s) && Enabled(s, Run(t, c))
    ensures MutexInv(Take(s, Run(t, c)))
  {
    var th := s.threads[t];
    var key := s.handles[th.handle];
    KeyChangesUnderMutex(key, s.backend, th.op, th.pc, c);
    HolderSteps(s.log, s.backend, key, th, c);
    hide ThreadStep, Inv, Logged, HolderOk, NeedsMutex;
    var s' := Take(s, Run(t, c));
    forall u | u in s'.threads && HoldsMutex(s'.threads[u].pc)
      ensures s'.threads[u].handle in s'.handles && HolderOk(s'.handles[s'.threads[u].handle], s'.threads[u].pc)
    {
    }
  }

  lemma {:induction false} MutexAlways(steps: seq<Step>)
    requires Possible(steps)
    ensures MutexInv(After(steps))
  {
    hide Enabled, Take;
    if steps != [] {
      MutexAlways(steps[..|steps| - 1]);
      InvAlways(steps[..|steps| - 1]);
      hide Inv, MutexInv;
      StepKeepsMutex(After(steps[..|steps| - 1]), steps[|steps| - 1]);
    }
  }

  // ---------- No lost rotation ----------

  /** The call is past its header write. */
  predicate Landed(pc: PC) {
    pc.Publish? || pc.RotatePublish? || pc.Finished?
  }

  /** The call has reported success, or is only left to publish. */
  predicate Installed(th: Thread) {
    || th.pc.RotatePublish?
    || (th.op.Initialize? && (th.pc.Publish? || th.pc == Finished(Success)))
    || (th.op.RotateKEK? && th.pc == Finished(Success))
  }

  /** n was installed by Initialize if it is the first and by RotateKEK otherwise,
      under the KEK and the trimmed reference that caller passed. */
  ghost predicate InstalledBy(threads: map<nat, Thread>, i: nat, n: Install) {
    && n.installer in threads && Landed(threads[n.installer].pc)
    && CalledFor(threads[n.installer].op, i, n.kek, n.header.kek)
  }

  predicate CalledFor(op: Op, i: nat, kek: Key, ref: KEKReference) {
    if i == 0 then op.Initialize? && op.kek == kek && NormalizeReference(op.ref) == ref
    else op.RotateKEK? && op.nextKEK == kek && NormalizeReference(op.next) == ref
  }

  ghost predicate HasInstalled(installs: seq<Install>, t: nat) {
    exists i :: 0 <= i < |installs| && installs[i].installer == t
  }

  /** Each installed header has its own installer, and every call that reports
      success installed one. */
  ghost predicate InstallersOf(threads: map<nat, Thread>, installs: seq<Install>) {
    && (forall i :: 0 <= i < |installs| ==> InstalledBy(threads, i, installs[i]))
    && (forall i, j :: 0 <= i < j < |installs| ==> installs[i].installer != installs[j].installer)
    && (forall t :: t in threads && Installed(threads[t]) ==> HasInstalled(installs, t))
  }

  /** Calls that move on without a header write. */
  lemma InstallersKept(threads: map<nat, Thread>, threads': map<nat, Thread>, installs: seq<Install>)
    requires InstallersOf(threads, installs)
    requires forall t :: t in threads ==> t in threads' && threads'[t].op == threads[t].op
    requires forall t :: t in threads && Landed(threads[t].pc) ==> Landed(threads'[t].pc)
    requires forall t :: t in threads' && Installed(threads'[t]) ==> t in threads && Installed(threads[t])
    ensures InstallersOf(threads', installs)
  {
    hide CalledFor, Landed, Installed;
    forall i | 0 <= i < |installs| ensures InstalledBy(threads', i, installs[i]) {
      assert InstalledBy(threads, i, installs[i]);
    }
  }

  /** One call that writes a header. */
  lemma InstallersExtended(threads: map<nat, Thread>, installs: seq<Install>, t: nat, th': Thread, n: Install)
    requires InstallersOf(threads, installs) && t in threads && !Landed(threads[t].pc)
    requires th'.op == threads[t].op && n.installer == t && Landed(th'.pc) && CalledFor(th'.op, |installs|, n.kek, n.header.kek)
    ensures InstallersOf(threads[t := th'], installs + [n])
  {
    hide CalledFor, Landed, Installed;
    var threads', installs' := threads[t := th'], installs + [n];
    forall i | 0 <= i < |installs'| ensures InstalledBy(threads', i, installs'[i]) {
      if i < |installs| {
        assert InstalledBy(threads, i, installs[i]);
      }
    }
    forall u | u in threads' && Installed(threads'[u]) ensures HasInstalled(installs', u) {
      if u == t {
        assert installs'[|installs|].installer == u;
      } else {
        var i :| 0 <= i < |installs| && installs[i].installer == u;
        assert installs'[i].installer == u;
      }
    }
    forall i, j | 0 <= i < j < |installs'| ensures installs'[i].installer != installs'[j].installer {
      assert InstalledBy(threads, i, installs[i]);
    }
  }

  lemma SwapStepResult(log: Log, b: Backend, key: HandleKey, th: Thread, c: Choice)
    requires LocalInv(log, b, key, th) && th.pc.RotateSwap?
    ensures ThreadStep(key, b, th.op, th.pc, c) ==
      if |log.installs| == th.pc.expected
      then Next(key, b.(header := Some(PersistHeader(th.pc.rotated))), RotatePublish(th.pc.rotated))
      else Next(key, b, Reject(Conflict))
    ensures th.op.RotateKEK? && th.op.nextKEK == th.pc.kek && NormalizeReference(th.op.next) == th.pc.rotated.kek
  {
    StoredHeaderValid(log, b);
    LogOkBounds(log);
    hide LogOk, BackendOk, Wraps, PersistHeader, NormalizeReference, Validate;
  }

  predicate WritesHeader(pc: PC, pc': PC) {
    (pc.InitCreate? && pc'.Publish?) || (pc.RotateSwap? && pc'.RotatePublish?)
  }

  lemma LoggedInstalls(log: Log, t: nat, op: Op, pc: PC, c: Choice, pc': PC)
    ensures Logged(log, t, op, pc, c, pc').installs ==
      if WritesHeader(pc, pc') then
        log.installs + [Install(t, pc.kek, if pc'.Publish? then pc'.header else pc'.rotated)]
      else log.installs
    requires pc.RotateSwap? && pc'.RotatePublish? ==> pc'.rotated == pc.rotated
  {
  }

  ghost predicate InstallsOnWrite(log: Log, th: Thread, pc': PC) {
    && (if WritesHeader(th.pc, pc') then
          && !Landed(th.pc) && Landed(pc')
          && CalledFor(th.op, |log.installs|, th.pc.kek, (if pc'.Publish? then pc'.header else pc'.rotated).kek)
          && (pc'.RotatePublish? ==> pc'.rotated == th.pc.rotated)
        else Installed(th.(pc := pc')) ==> Installed(th))
    && (Landed(th.pc) ==> Landed(pc'))
  }

  /** A call becomes Installed exactly in the step that writes its header. */
  lemma InstallsStep(log: Log, b: Backend, key: HandleKey, th: Thread, c: Choice)
    requires LocalInv(log, b, key, th) && !th.pc.Finished? && ValidChoice(c)
    ensures InstallsOnWrite(log, th, ThreadStep(key, b, th.op, th.pc, c).pc)
  {
    hide LocalInv, InstallsOnWrite, ThreadStep;
    match th.pc
    case InitCreate(_, _) => InitCreateInstalls(log, b, key, th, c);
    case RotateLoad(_, _) => RotateLoadInstalls(log, b, key, th, c);
    case RotateSwap(_, _, _) => RotateSwapInstalls(log, b, key, th, c);
    case _ => OtherStepInstalls(log, b, key, th, c);
  }

  lemma CreatingThread(log: Log, b: Backend, key: HandleKey, th: Thread)
    requires LocalInv(log, b, key, th) && th.pc.InitCreate?
    ensures th.op.Initialize? && th.op.kek == th.pc.kek && NormalizeReference(th.op.ref) == th.pc.ref
    ensures b.header.None? <==> log.installs == []
  {
    hide LogOk, Validate, NormalizeReference;
  }

  lemma CreatingStep(key: HandleKey, b: Backend, op: Op, pc: PC, c: Choice)
    requires pc.InitCreate?
    ensures ThreadStep(key, b, op, pc, c).pc == InitCreateStep(b, pc.ref, pc.kek, c).1
  {
  }

  lemma InitCreateInstalls(log: Log, b: Backend, key: HandleKey, th: Thread, c: Choice)
    requires LocalInv(log, b, key, th) && ValidChoice(c) && th.pc.InitCreate?
    ensures InstallsOnWrite(log, th, ThreadStep(key, b, th.op, th.pc, c).pc)
  {
    hide LocalInv, ThreadStep, InitCreateStep, Wraps, PersistHeader;
    CreatingThread(log, b, key, th);
    CreatingStep(key, b, th.op, th.pc, c);
    CreatedHeader(b, th.pc.ref, th.pc.kek, c);
  }

  lemma RotateLoadInstalls(log: Log, b: Backend, key: HandleKey, th: Thread, c: Choice)
    requires LocalInv(log, b, key, th) && ValidChoice(c) && th.pc.RotateLoad?
    ensures InstallsOnWrite(log, th, ThreadStep(key, b, th.op, th.pc, c).pc)
  {
    LoadedForRotation(key, b, th.pc.next, th.pc.kek, c);
    hide LogOk, BackendOk, RotateLoadStep, Wraps, Validate, Normalize;
  }

  lemma RotateSwapInstalls(log: Log, b: Backend, key: HandleKey, th: Thread, c: Choice)
    requires LocalInv(log, b, key, th) && ValidChoice(c) && th.pc.RotateSwap?
    ensures InstallsOnWrite(log, th, ThreadStep(key, b, th.op, th.pc, c).pc)
  {
    SwapStepResult(log, b, key, th, c);
    hide LogOk, BackendOk, ThreadStep, Wraps, Validate, Normalize;
  }

  lemma OtherStepInstalls(log: Log, b: Backend, key: HandleKey, th: Thread, c: Choice)
    requires LocalInv(log, b, key, th) && !th.pc.Finished?
    requires !th.pc.InitCreate? && !th.pc.RotateLoad? && !th.pc.RotateSwap?
    ensures InstallsOnWrite(log, th, ThreadStep(key, b, th.op, th.pc, c).pc)
  {
    hide LogOk, BackendOk, KeyOk;
    hide StartStep, OpenRecord, GetEnvelope, PutEnvelope, DeleteEnvelope, ListEnvelopes, SealsRecord, Validate, Normalize;
    StartInstallsNothing(key, b, th.op, c);
  }

  lemma StartInstallsNothing(key: HandleKey, b: Backend, op: Op, c: Choice)
    ensures op.Initialize? || op.RotateKEK? ==> !Installed(Thread(0, op, StartStep(key, b, op, c).pc))
    ensures !StartStep(key, b, op, c).pc.RotatePublish?
  {
    hide UnwrapHeader, WrapInto, SealRecord, OpenRecord, ValidateHeader, Normalize, ValidateRecord;
  }

  lemma StepKeepsInstallers(s: State, step: Step)
    requires Inv(s) && InstallersOf(s.threads, s.log.installs) && Enabled(s, step)
    ensures InstallersOf(Take(s, step).threads, Take(s, step).log.installs)
  {
    if step.Run? {
      RunKeepsInstallers(s, step.thread, step.choice);
    } else {
      hide Inv, InstallersOf, ThreadStep, Logged;
      InstallersKept(s.threads, Take(s, step).threads, s.log.installs);
    }
  }

  lemma RunKeepsInstallers(s: State, t: nat, c: Choice)
    requires Inv(s) && InstallersOf(s.threads, s.log.installs) && Enabled(s, Run(t, c))
    ensures InstallersOf(Take(s, Run(t, c)).threads, Take(s, Run(t, c)).log.installs)
  {
    var th, s' := s.threads[t], Take(s, Run(t, c));
    InstallsStep(s.log, s.backend, s.handles[th.handle], th, c);
    LoggedInstalls(s.log, t, th.op, th.pc, c, s'.threads[t].pc);
    hide ThreadStep, Logged, Inv, InstallersOf, MutexFree, CalledFor, Landed, Installed;
    if WritesHeader(th.pc, s'.threads[t].pc) {
      InstallersExtended(s.threads, s.log.installs, t, s'.threads[t], s'.log.installs[|s.log.installs|]);
    } else {
      InstallersKept(s.threads, s'.threads, s.log.installs);
    }
  }

  lemma {:induction false} InstallersAlways(steps: seq<Step>)
    requires Possible(steps)
    ensures InstallersOf(After(steps).threads, After(steps).log.installs)
  {
    hide Enabled, Take;
    if steps != [] {
      InstallersAlways(steps[..|steps| - 1]);
      InvAlways(steps[..|steps| - 1]);
      hide Inv, InstallersOf;
      StepKeepsInstallers(After(steps[..|steps| - 1]), steps[|steps| - 1]);
    }
  }

  /** A compare-and-swap goes through exactly when no header was installed since the
      call loaded the one it rotates; otherwise it reports a conflict and changes
      neither the header, nor the envelopes, nor the handle. */
  lemma SwapIff(s: State, t: nat, c: Choice)
    requires Inv(s) && Enabled(s, Run(t, c)) && s.threads[t].pc.RotateSwap?
    ensures var th, s' := s.threads[t], Take(s, Run(t, c));
      if |s.log.installs| == th.pc.expected then
        && s'.threads[t].pc == RotatePublish(th.pc.rotated)
        && s'.log.installs == s.log.installs + [Install(t, th.pc.kek, th.pc.rotated)]
        && s'.backend == s.backend.(header := Some(PersistHeader(th.pc.rotated)))
        && s'.handles == s.handles
      else s' == s.(threads := s.threads[t := th.(pc := Reject(Conflict))])
  {
    var th := s.threads[t];
    SwapStepResult(s.log, s.backend, s.handles[th.handle], th, c);
    assert s.handles[th.handle := s.handles[th.handle]] == s.handles;
    hide Inv, ThreadStep, PersistHeader, MutexFree;
  }

  // ---------- Races ----------

  /** A call that once reached its swap from revision e is still there, has failed, or
      has installed the header after revision e. */
  ghost predicate RaceOutcome(s: State, t: nat, e: nat) {
    t in s.threads && s.threads[t].op.RotateKEK? &&
    ( || (s.threads[t].pc.RotateSwap? && s.threads[t].pc.expected == e)
      || (s.threads[t].pc.Finished? && s.threads[t].pc.reply.Failure?)
      || (e < |s.log.installs| && s.log.installs[e].installer == t && Landed(s.threads[t].pc)))
  }

  lemma InstallsPersist(log: Log, log': Log, e: nat, t: nat)
    requires Grows(log, log') && e < |log.installs| && log.installs[e].installer == t
    ensures e < |log'.installs| && log'.installs[e].installer == t
  {
    assert log'.installs[e] == log.installs[e];
  }

  /** Calls of other threads, and the end of this one. */
  lemma OtherStepKeepsRaceOutcome(s: State, step: Step, t: nat, e: nat)
    requires Enabled(s, step) && RaceOutcome(s, t, e) && Grows(s.log, Take(s, step).log)
    requires step.Run? && step.thread == t ==> !s.threads[t].pc.RotateSwap?
    ensures RaceOutcome(Take(s, step), t, e)
  {
    var log, log' := s.log, Take(s, step).log;
    if e < |log.installs| && log.installs[e].installer == t {
      InstallsPersist(log, log', e, t);
    }
    hide StartStep, RotateLoadStep, GetSendStep, InitCreateStep, RotateSwapStep, PutSendStep, DeleteSendStep, InitListStep;
    hide Logged, MutexFree, NeedsMutex, SealedUnder, Grows;
  }

  lemma StepKeepsRaceOutcome(s: State, step: Step, t: nat, e: nat)
    requires Inv(s) && Enabled(s, step) && RaceOutcome(s, t, e)
    ensures RaceOutcome(Take(s, step), t, e)
  {
    if step.Run? && step.thread == t && s.threads[t].pc.RotateSwap? {
      SwapIff(s, t, step.choice);
    } else {
      StepKeepsInv(s, step);
      hide Inv, Enabled, Take, RaceOutcome, Grows;
      OtherStepKeepsRaceOutcome(s, step, t, e);
    }
  }

  lemma {:induction false} RaceFollows(steps: seq<Step>, n: nat, t: nat, e: nat)
    requires Possible(steps) && n <= |steps| && Possible(steps[..n]) && RaceOutcome(After(steps[..n]), t, e)
    ensures RaceOutcome(After(steps), t, e)
    decreases |steps|
  {
    hide Enabled, Take, RaceOutcome;
    if n == |steps| {
      assert steps[..n] == steps;
    } else {
      var init := steps[..|steps| - 1];
      assert init[..n] == steps[..n];
      RaceFollows(init, n, t, e);
      InvAlways(init);
      StepKeepsRaceOutcome(After(init), steps[|steps| - 1], t, e);
    }
  }

  lemma SwapsToOutcome(steps: seq<Step>, n: nat, t: nat)
    requires Possible(steps) && n <= |steps| && Possible(steps[..n])
    requires t in After(steps[..n]).threads && After(steps[..n]).threads[t].pc.RotateSwap?
    ensures RaceOutcome(After(steps), t, After(steps[..n]).threads[t].pc.expected)
  {
    var s := After(steps[..n]);
    InvAlways(steps[..n]);
    assert ThreadOk(s.log, s.threads[t]);
    hide Enabled, Take, Inv;
    RaceFollows(steps, n, t, s.threads[t].pc.expected);
  }

  /** Of two RotateKEK calls, on any handles and at any times, that swap from the same
      revision, at most one ever reports success. */
  lemma AtMostOneWinner(steps: seq<Step>, m: nat, n: nat, t: nat, u: nat)
    requires Possible(steps) && m <= |steps| && Possible(steps[..m]) && n <= |steps| && Possible(steps[..n]) && t != u
    requires t in After(steps[..m]).threads && After(steps[..m]).threads[t].pc.RotateSwap?
    requires u in After(steps[..n]).threads && After(steps[..n]).threads[u].pc.RotateSwap?
    requires After(steps[..m]).threads[t].pc.expected == After(steps[..n]).threads[u].pc.expected
    ensures t in After(steps).threads && u in After(steps).threads
    ensures !(After(steps).threads[t].pc == Finished(Success) && After(steps).threads[u].pc == Finished(Success))
  {
    SwapsToOutcome(steps, m, t);
    SwapsToOutcome(steps, n, u);
    hide Possible, After;
  }
}
