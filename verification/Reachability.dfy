/** Calls run alone are runs of the machine, and the machine gets to every revision:
    what is claimed of reachable states and of wrapped revisions is claimed of something. */
module Reachability {
  import Aead
  import Text
  import opened Storage
  import opened Codec
  import opened BackendContract
  import opened AliasMap
  import opened Protocol
  import opened ProtocolInvariant
  import KeyLifecycle

  lemma OneMoreStep(steps: seq<Step>, step: Step)
    requires Possible(steps) && Enabled(After(steps), step)
    ensures Possible(steps + [step]) && After(steps + [step]) == Take(After(steps), step)
  {
    hide Enabled, Take;
    assert (steps + [step])[..|steps + [step]| - 1] == steps;
  }

  /** No call is under way. */
  predicate Quiet(threads: map<nat, Thread>) {
    forall t :: t in threads ==> threads[t].pc.Finished?
  }

  /** Only call t is under way. */
  predicate QuietBut(threads: map<nat, Thread>, t: nat) {
    forall u :: u in threads && u != t ==> threads[u].pc.Finished?
  }

  predicate FreshKey(b: Backend, dek: Key) {
    forall a :: a in b.envelopes ==> !SealedUnder(b.envelopes[a].ciphertext, dek)
  }

  /** Nothing else changes while call t runs from here to there. */
  predicate SameButFor(s: State, s': State, t: nat, h: nat)
    requires t in s.threads
  {
    && s'.threads.Keys == s.threads.Keys && s'.handles.Keys == s.handles.Keys
    && t in s'.threads && s'.threads[t].op == s.threads[t].op && s'.threads[t].handle == s.threads[t].handle
    && (forall u :: u in s.threads && u != t ==> s'.threads[u] == s.threads[u])
    && (forall g :: g in s.handles && g != h ==> s'.handles[g] == s.handles[g])
  }

  lemma RunIsEnabled(s: State, t: nat, c: Choice)
    requires t in s.threads && s.threads[t].handle in s.handles && !s.threads[t].pc.Finished? && ValidChoice(c)
    requires QuietBut(s.threads, t) && (s.threads[t].pc.InitCreate? ==> FreshKey(s.backend, c.dek))
    ensures Enabled(s, Run(t, c))
  {
    hide Validate;
  }

  lemma RunTakes(s: State, t: nat, c: Choice)
    requires Enabled(s, Run(t, c)) && QuietBut(s.threads, t)
    ensures var th, s' := s.threads[t], Take(s, Run(t, c));
      var n := ThreadStep(s.handles[th.handle], s.backend, th.op, th.pc, c);
      && s'.backend == n.backend && s'.handles[th.handle] == n.key && s'.threads[t] == th.(pc := n.pc)
      && SameButFor(s, s', t, th.handle) && QuietBut(s'.threads, t)
  {
    hide ThreadStep, Logged, MutexFree, NeedsMutex;
  }

  /** An Initialize that is still on its way has changed no envelope. */
  lemma InitializeKeepsFresh(s: State, t: nat, c: Choice)
    requires Inv(s) && Enabled(s, Run(t, c)) && s.threads[t].op.Initialize? && FreshKey(s.backend, c.dek)
    ensures FreshKey(Take(s, Run(t, c)).backend, c.dek)
  {
    KeyLifecycle.KeyCallsKeepRecords(s, t, c);
    hide Inv, Enabled, Take;
  }

  lemma CreatingIsInitialize(log: Log, th: Thread)
    requires ThreadOk(log, th) && th.pc.InitCreate?
    ensures th.op.Initialize?
  {
    hide Validate, NormalizeReference;
  }

  /** A call that nothing runs beside comes to what RunAlone says. */
  lemma {:induction false} FinishAlone(steps: seq<Step>, t: nat, c: Choice) returns (more: seq<Step>)
    requires Possible(steps) && ValidChoice(c) && t in After(steps).threads
    requires After(steps).threads[t].handle in After(steps).handles && QuietBut(After(steps).threads, t)
    requires After(steps).threads[t].op.Initialize? ==> FreshKey(After(steps).backend, c.dek)
    ensures Possible(more)
    ensures var s, s', th := After(steps), After(more), After(steps).threads[t];
      var (key, b, reply) := RunAlone(s.handles[th.handle], s.backend, th.op, th.pc, c);
      && SameButFor(s, s', t, th.handle) && s'.backend == b && s'.handles[th.handle] == key
      && s'.threads[t].pc == Finished(reply)
    decreases Rank(After(steps).threads[t].pc)
  {
    hide Enabled, Take, Inv, RunAlone, ThreadStep, Rank, FreshKey, QuietBut;
    var s := After(steps);
    var th := s.threads[t];
    if th.pc.Finished? {
      more := steps;
      UnrollFinished(s.handles[th.handle], s.backend, th.op, th.pc.reply, c);
    } else {
      InvAlways(steps);
      if th.pc.InitCreate? {
        assert ThreadOk(s.log, th) by { InvIsLocal(s, t); }
        CreatingIsInitialize(s.log, th);
      }
      RunIsEnabled(s, t, c);
      RunTakes(s, t, c);
      OneMoreStep(steps, Run(t, c));
      StepsDescend(s.handles[th.handle], s.backend, th.op, th.pc, c);
      Unroll(s.handles[th.handle], s.backend, th.op, th.pc, c);
      if th.op.Initialize? {
        InitializeKeepsFresh(s, t, c);
      }
      hide Possible, After;
      more := FinishAlone(steps + [Run(t, c)], t, c);
    }
  }

  /** From any reachable state without calls under way, a call run alone is a run of the
      machine and leaves handle, backend and reply as RunAlone says. */
  lemma CallAlone(steps: seq<Step>, t: nat, h: nat, op: Op, c: Choice) returns (more: seq<Step>)
    requires Possible(steps) && ValidChoice(c) && Quiet(After(steps).threads)
    requires t !in After(steps).threads && h in After(steps).handles
    requires op.Initialize? ==> FreshKey(After(steps).backend, c.dek)
    ensures Possible(more) && Quiet(After(more).threads)
    ensures var s, s' := After(steps), After(more);
      var (key, b, reply) := RunAlone(s.handles[h], s.backend, op, Start, c);
      && s'.backend == b && s'.handles == s.handles[h := key]
      && s'.threads == s.threads[t := Thread(h, op, Finished(reply))]
  {
    hide RunAlone, ThreadStep, FreshKey, Logged, NeedsMutex, MutexFree, SealedUnder, MayFail;
    var s := After(steps);
    OneMoreStep(steps, Begin(t, h, op));
    var begun := steps + [Begin(t, h, op)];
    hide Possible, After, Enabled;
    more := FinishAlone(begun, t, c);
    var s', r := After(more), RunAlone(s.handles[h], s.backend, op, Start, c);
    assert s'.handles == s.handles[h := r.0];
    assert s'.threads == s.threads[t := Thread(h, op, Finished(r.2))];
  }

  // ---------- Every revision is reached ----------

  const SOME_REFERENCE: KEKReference := KEKReference([1], Repeat(SALT_SIZE, 0), [120])
  const SOME_KEK: Key := Repeat(Aead.KEY_SIZE, 0)
  const SOME_CHOICE: Choice := Choice(Repeat(STORE_ID_SIZE, 0), Repeat(Aead.KEY_SIZE, 1), Repeat(Aead.NONCE_SIZE, 0))

  lemma SomeArgumentsAreValid()
    ensures Validate(Initialize(SOME_REFERENCE, SOME_KEK)).Ok? && Validate(RotateKEK(SOME_REFERENCE, SOME_KEK)).Ok?
    ensures ValidChoice(SOME_CHOICE)
  {
    NonBlank([120]);
    Text.TrimSpaceIdempotent([120]);
    hide Text.TrimSpace;
  }

  /** The n-th header has been installed and handle 0 is up to date with it. */
  ghost predicate AtInstall(s: State, n: nat)
    requires 1 <= n <= REVISIONS
  {
    && Quiet(s.threads) && (forall t :: t in s.threads ==> t < n)
    && 0 in s.handles && s.handles[0].Held? && s.handles[0].header.revision == RevisionAt(n - 1)
    && s.backend.header.Some? && s.backend.header.value.revision == RevisionAt(n - 1)
  }

  lemma OpenedStore()
    ensures Possible([OpenHandle(0)]) && After([OpenHandle(0)]) == State(EMPTY, map[0 := NoKey], map[], INITIAL.log)
  {
    OneMoreStep([], OpenHandle(0));
    assert [] + [OpenHandle(0)] == [OpenHandle(0)];
  }

  lemma FirstHeader() returns (steps: seq<Step>)
    ensures Possible(steps) && AtInstall(After(steps), 1)
    ensures forall t :: t in After(steps).threads ==> !After(steps).threads[t].op.Put?
  {
    hide RunAlone, Validate, Possible, After;
    SomeArgumentsAreValid();
    OpenedStore();
    KeyLifecycle.InitializeAlone(SOME_REFERENCE, SOME_KEK, SOME_CHOICE);
    steps := CallAlone([OpenHandle(0)], 0, 0, Initialize(SOME_REFERENCE, SOME_KEK), SOME_CHOICE);
  }

  lemma NextHeader(before: seq<Step>, n: nat) returns (steps: seq<Step>)
    requires 1 <= n < REVISIONS && Possible(before) && AtInstall(After(before), n)
    ensures Possible(steps) && AtInstall(After(steps), n + 1)
  {
    SomeArgumentsAreValid();
    hide RunAlone, Validate, Possible, After;
    KeyLifecycle.RotateAlone(before, 0, SOME_REFERENCE, SOME_KEK, SOME_CHOICE);
    steps := CallAlone(before, n, 0, RotateKEK(SOME_REFERENCE, SOME_KEK), SOME_CHOICE);
  }

  /** Some run installs n headers, for every n up to 2^64: the last of them wraps. */
  lemma {:induction false} EveryRevisionIsReached(n: nat) returns (steps: seq<Step>)
    requires 1 <= n <= REVISIONS
    ensures Possible(steps) && AtInstall(After(steps), n)
  {
    hide AtInstall, Possible, After;
    if n == 1 {
      steps := FirstHeader();
    } else {
      var before := EveryRevisionIsReached(n - 1);
      steps := NextHeader(before, n - 1);
    }
  }

  /** The header that nothing opens and nothing replaces is within reach. */
  lemma WrapIsReached() returns (steps: seq<Step>)
    ensures Possible(steps) && After(steps).backend.header.Some? && After(steps).backend.header.value.revision == 0
  {
    hide Possible, After;
    steps := EveryRevisionIsReached(REVISIONS);
  }
}
