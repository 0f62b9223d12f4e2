/** Any number of alias services and callers on top of the encrypted-store machine:
    store calls are threads of that machine, so they interleave with each other and
    with locking, rotation, failures and crashes. */
module ServiceProtocol {
  import opened ByteStrings
  import opened Text
  import opened Storage
  import opened AliasMap
  import opened Protocol
  import opened ProtocolInvariant
  import Refinement
  import opened History
  import opened Service

  datatype Config = Config(handle: nat, rpID: Bytes)

  datatype Kind = CreateCall | DeriveCall

  datatype Stage =
    | Waiting
    | AwaitHas | Ready | AwaitPut | Stored
    | AwaitGet | Loaded
    | Done(outcome: Outcome)

  /** One Create or Derive: its trimmed alias, the store call it made last, and the
      record it stored or loaded. */
  datatype Caller = Caller(service: nat, kind: Kind, alias: Bytes, ticket: Option<nat>, rec: Record, stage: Stage)

  /** created lists every CreateCredential by service and alias; lost those whose Put
      then failed for another reason than an existing alias. */
  datatype World = World(
    store: State,
    services: map<nat, Config>,
    callers: map<nat, Caller>,
    created: seq<(nat, Bytes)>,
    lost: seq<(nat, Bytes)>)

  const NO_RECORD: Record := Record([], [], [], [])
  const EMPTY_WORLD: World := World(INITIAL, map[], map[], [], [])

  /** createMu is held from before Has until Create returns. */
  predicate HoldsCreate(stage: Stage) {
    stage.AwaitHas? || stage.Ready? || stage.AwaitPut? || stage.Stored?
  }

  predicate Awaits(stage: Stage) {
    stage.AwaitHas? || stage.AwaitPut? || stage.AwaitGet?
  }

  /** What the environment gives a caller's step: a name for the store call it may
      begin, random salt, the authenticator's credential id, or a failure. */
  datatype Env = Env(thread: nat, salt: Bytes, credential: Bytes, failure: Option<SecretsError>)

  datatype Move = Move(caller: Caller, begin: Option<Op>)

  function Finish(c: Caller, o: Outcome): Move {
    Move(c.(stage := Done(o)), None)
  }

  function StoreError(r: Reply): SecretsError {
    StoreFailed(if r.Failure? then r.error else Unavailable)
  }

  function NextMove(c: Caller, rpID: Bytes, reply: Reply, env: Env): Move {
    match c.stage
    case Waiting =>
      if c.alias == [] then Finish(c, Refused(AliasInvalid))
      else if c.kind.CreateCall? then Move(c.(ticket := Some(env.thread), stage := AwaitHas), Some(Op.Has(c.alias)))
      else Move(c.(ticket := Some(env.thread), stage := AwaitGet), Some(Op.Get(c.alias)))
    case AwaitHas =>
      if reply == Present(true) then Finish(c, Refused(AliasExists))
      else if reply == Present(false) then Move(c.(stage := Ready), None)
      else Finish(c, Refused(StoreError(reply)))
    case Ready =>
      if env.failure.Some? then Finish(c, Refused(env.failure.value))
      else
        var rec := Record(c.alias, env.credential, env.salt, rpID);
        Move(c.(ticket := Some(env.thread), rec := rec, stage := AwaitPut), Some(Op.Put(rec)))
    case AwaitPut =>
      if reply == Success then Move(c.(stage := Stored), None)
      else if reply == Failure(Exists) then Finish(c, Refused(AliasExists))
      else Finish(c, Refused(StoreError(reply)))
    case Stored =>
      if env.failure.Some? then Finish(c, Refused(DeriveFailed)) else Finish(c, Derived(InputsOf(c.rec)))
    case AwaitGet =>
      if reply.Found? then Move(c.(rec := reply.rec, stage := Loaded), None)
      else if reply == Failure(NotFound) then Finish(c, Refused(AliasNotFound))
      else Finish(c, Refused(StoreError(reply)))
    case Loaded =>
      if env.failure.Some? then Finish(c, Refused(env.failure.value)) else Finish(c, Derived(InputsOf(c.rec)))
    case Done(_) => Move(c, None)
  }

  datatype WorldStep =
    | StoreStep(step: Step)
    | AddService(service: nat, handle: nat, rawRPID: Bytes)
    | Call(caller: nat, service: nat, kind: Kind, rawAlias: Bytes)
    | Act(caller: nat, env: Env)

  predicate CreateFree(callers: map<nat, Caller>, c: nat)
    requires c in callers
  {
    forall d :: d in callers && d != c && callers[d].service == callers[c].service ==> !HoldsCreate(callers[d].stage)
  }

  predicate CanAct(w: World, c: nat, env: Env) {
    && c in w.callers && !w.callers[c].stage.Done?
    && w.callers[c].service in w.services && w.services[w.callers[c].service].handle in w.store.handles
    && env.thread !in w.store.threads
    && (Awaits(w.callers[c].stage) ==>
          && w.callers[c].ticket.Some? && w.callers[c].ticket.value in w.store.threads
          && w.store.threads[w.callers[c].ticket.value].pc.Finished?)
    && (w.callers[c].stage.Waiting? && w.callers[c].kind.CreateCall? ==> CreateFree(w.callers, c))
    && (w.callers[c].stage.Ready? && env.failure.Some? ==>
          env.failure.value in {Cancelled, NoDevice, PinFailed, SaltFailed, FidoFailed})
    && (w.callers[c].stage.Loaded? && env.failure.Some? ==>
          env.failure.value in {Cancelled, NoDevice, PinFailed, DeriveFailed})
  }

  predicate WorldEnabled(w: World, step: WorldStep) {
    match step
    case StoreStep(s) => Enabled(w.store, s) && !s.Tamper?
    case AddService(id, handle, _) => id !in w.services && handle in w.store.handles
    case Call(c, service, _, _) => c !in w.callers && service in w.services
    case Act(c, env) => CanAct(w, c, env)
  }

  function ReplyTo(w: World, c: Caller): Reply {
    if c.ticket.Some? && c.ticket.value in w.store.threads && w.store.threads[c.ticket.value].pc.Finished?
    then w.store.threads[c.ticket.value].pc.reply else Success
  }

  predicate LosesCredential(before: Stage, after: Stage) {
    before.AwaitPut? && after.Done? && after.outcome != Refused(AliasExists)
  }

  function ActIn(w: World, c: nat, env: Env): World
    requires CanAct(w, c, env)
  {
    var before := w.callers[c];
    var cfg := w.services[before.service];
    var m := NextMove(before, cfg.rpID, ReplyTo(w, before), env);
    World(
      if m.begin.Some? then Take(w.store, Begin(env.thread, cfg.handle, m.begin.value)) else w.store,
      w.services,
      w.callers[c := m.caller],
      if before.stage.Ready? && m.caller.stage.AwaitPut? then w.created + [(before.service, before.alias)] else w.created,
      if LosesCredential(before.stage, m.caller.stage) then w.lost + [(before.service, before.alias)] else w.lost)
  }

  function WorldTake(w: World, step: WorldStep): World
    requires WorldEnabled(w, step)
  {
    match step
    case StoreStep(s) => w.(store := Take(w.store, s))
    case AddService(id, handle, raw) => w.(services := w.services[id := Config(handle, ServiceRPID(raw))])
    case Call(c, service, kind, raw) =>
      w.(callers := w.callers[c := Caller(service, kind, TrimSpace(raw), None, NO_RECORD, Waiting)])
    case Act(c, env) => ActIn(w, c, env)
  }

  predicate WorldPossible(steps: seq<WorldStep>)
    decreases |steps|, 0
  {
    steps == [] || (WorldPossible(steps[..|steps| - 1]) && WorldEnabled(WorldAfter(steps[..|steps| - 1]), steps[|steps| - 1]))
  }

  function WorldAfter(steps: seq<WorldStep>): World
    requires WorldPossible(steps)
    decreases |steps|, 1
  {
    if steps == [] then EMPTY_WORLD else WorldTake(WorldAfter(steps[..|steps| - 1]), steps[|steps| - 1])
  }

  // ---------- What every step keeps ----------

  /** The store below is untampered and satisfies all its invariants. */
  ghost predicate StoreInv(s: State) {
    Inv(s) && Refinement.Refines(s.log, s.backend) && EventsMatch(s.threads, s.log.events) && !s.log.tampered
  }

  lemma StepKeepsStoreInv(s: State, step: Step)
    requires StoreInv(s) && Enabled(s, step) && !step.Tamper?
    ensures StoreInv(Take(s, step)) && Grows(s.log, Take(s, step).log)
    ensures ThreadsKept(s.threads, Take(s, step).threads)
  {
    StepKeepsInv(s, step);
    Refinement.StepKeepsRefinement(s, step);
    StepKeepsEvents(s, step);
    StepKeepsThreads(s, step);
    StaysUntampered(s, step);
    hide Enabled, Take, Inv, Refinement.Refines, EventsMatch, Grows, ThreadsKept;
  }

  lemma StaysUntampered(s: State, step: Step)
    requires Enabled(s, step) && !step.Tamper?
    ensures Take(s, step).log.tampered == s.log.tampered
  {
    hide ThreadStep, NeedsMutex, MutexFree;
  }

  /** The caller's last store call is op. */
  predicate Asked(threads: map<nat, Thread>, c: Caller, op: Op) {
    c.ticket.Some? && c.ticket.value in threads && threads[c.ticket.value].op == op
  }

  predicate Answered(threads: map<nat, Thread>, c: Caller, op: Op, reply: Reply) {
    Asked(threads, c, op) && threads[c.ticket.value].pc == Finished(reply)
  }

  predicate HasStored(stage: Stage) {
    stage.Stored? || (stage.Done? && (stage.outcome.Derived? || stage.outcome == Refused(DeriveFailed)))
  }

  predicate RecordFor(services: map<nat, Config>, c: Caller) {
    c.service in services && c.rec.alias == c.alias && c.rec.rpID == services[c.service].rpID
  }

  predicate CallerOk(threads: map<nat, Thread>, services: map<nat, Config>, c: Caller) {
    && TrimSpace(c.alias) == c.alias
    && (c.ticket.Some? ==>
          c.ticket.value in threads && (Awaits(c.stage) || threads[c.ticket.value].pc.Finished?))
    && (c.stage.Waiting? ==> c.ticket.None?)
    && (!c.stage.Waiting? && c.ticket.None? ==> c.alias == [])
    && (!c.stage.Waiting? && c.stage != Done(Refused(AliasInvalid)) ==> c.alias != [])
    && if c.kind.CreateCall? then CreateOk(threads, services, c) else DeriveOk(threads, c)
  }

  /** Why a caller that called the store was refused: the answer to its last call, or,
      after an answer that lets it go on, the context, the salt, the device, the PIN or
      the authenticator. */
  predicate RefusedAfter(threads: map<nat, Thread>, c: Caller, t: nat, error: SecretsError) {
    && t in threads && threads[t].pc.Finished?
    && var reply := threads[t].pc.reply;
      match threads[t].op
      case Has(a) =>
        && a == c.alias
        && if reply == Present(true) then error == AliasExists
           else if reply.Present? then error in {Cancelled, NoDevice, PinFailed, SaltFailed, FidoFailed}
           else error == StoreError(reply)
      case Put(rec) =>
        && rec.alias == c.alias && reply != Success
        && if reply == Failure(Exists) then error == AliasExists else error == StoreError(reply)
      case Get(a) =>
        && a == c.alias
        && if reply == Failure(NotFound) then error == AliasNotFound
           else if reply.Found? then error in {Cancelled, NoDevice, PinFailed, DeriveFailed}
           else error == StoreError(reply)
      case _ => false
  }

  predicate CreateOk(threads: map<nat, Thread>, services: map<nat, Config>, c: Caller) {
    && !c.stage.AwaitGet? && !c.stage.Loaded?
    && (c.stage.AwaitHas? ==> Asked(threads, c, Op.Has(c.alias)))
    && (c.stage.Ready? ==> Answered(threads, c, Op.Has(c.alias), Present(false)))
    && (c.stage.AwaitPut? ==> Asked(threads, c, Op.Put(c.rec)) && RecordFor(services, c))
    && (HasStored(c.stage) ==> Answered(threads, c, Op.Put(c.rec), Success) && RecordFor(services, c))
    && (c.stage.Done? && c.stage.outcome.Derived? ==> c.stage.outcome.inputs == InputsOf(c.rec))
    && (c.stage.Done? && !HasStored(c.stage) ==>
          && c.stage.outcome.Refused?
          && (c.ticket.Some? ==> RefusedAfter(threads, c, c.ticket.value, c.stage.outcome.error)
                                 && !threads[c.ticket.value].op.Get?))
  }

  predicate DeriveOk(threads: map<nat, Thread>, c: Caller) {
    && !HoldsCreate(c.stage)
    && (c.stage.AwaitGet? ==> Asked(threads, c, Op.Get(c.alias)))
    && (c.stage.Loaded? || (c.stage.Done? && c.stage.outcome.Derived?) ==>
          Answered(threads, c, Op.Get(c.alias), Found(c.rec)))
    && (c.stage.Done? && c.stage.outcome.Derived? ==> c.stage.outcome.inputs == InputsOf(c.rec))
    && (c.stage.Done? && c.stage.outcome.Refused? && c.ticket.Some? ==>
          RefusedAfter(threads, c, c.ticket.value, c.stage.outcome.error) && threads[c.ticket.value].op.Get?)
  }

  /** Store calls are nobody else's, and createMu admits one Create per service. */
  ghost predicate Separate(callers: map<nat, Caller>) {
    && (forall c, d :: c in callers && d in callers && c != d && callers[c].ticket.Some? ==>
          callers[c].ticket != callers[d].ticket)
    && (forall c, d :: c in callers && d in callers && c != d && callers[c].service == callers[d].service ==>
          !(HoldsCreate(callers[c].stage) && HoldsCreate(callers[d].stage)))
  }

  ghost predicate CallersInv(threads: map<nat, Thread>, services: map<nat, Config>, callers: map<nat, Caller>) {
    && (forall c :: c in callers ==> c in callers && callers[c].service in services && CallerOk(threads, services, callers[c]))
    && Separate(callers)
    && (forall i :: i in services ==> services[i].rpID != [] && TrimSpace(services[i].rpID) == services[i].rpID)
  }

  ghost predicate WorldInv(w: World) {
    StoreInv(w.store) && CallersInv(w.store.threads, w.services, w.callers)
  }

  lemma CallerOkStays(threads: map<nat, Thread>, threads': map<nat, Thread>,
                      services: map<nat, Config>, services': map<nat, Config>, c: Caller)
    requires CallerOk(threads, services, c) && c.service in services
    requires ThreadsKept(threads, threads')
    requires forall i :: i in services ==> i in services' && services'[i] == services[i]
    ensures CallerOk(threads', services', c)
  {
    hide TrimSpace;
  }

  /** A step of the store, or a new service, moves no caller. */
  lemma CallersInvStays(threads: map<nat, Thread>, threads': map<nat, Thread>,
                        services: map<nat, Config>, services': map<nat, Config>, callers: map<nat, Caller>)
    requires CallersInv(threads, services, callers) && ThreadsKept(threads, threads')
    requires forall i :: i in services ==> i in services' && services'[i] == services[i]
    requires forall i :: i in services' ==> services'[i].rpID != [] && TrimSpace(services'[i].rpID) == services'[i].rpID
    ensures CallersInv(threads', services', callers)
  {
    hide CallerOk, TrimSpace, ThreadsKept;
    forall c | c in callers ensures callers[c].service in services' && CallerOk(threads', services', callers[c]) {
      CallerOkStays(threads, threads', services, services', callers[c]);
    }
  }

  /** The caller's own next stage is as it should be. */
  lemma MoveCaller(threads: map<nat, Thread>, services: map<nat, Config>, c: Caller, handle: nat, reply: Reply, env: Env)
    requires CallerOk(threads, services, c) && c.service in services && !c.stage.Done?
    requires env.thread !in threads
    requires Awaits(c.stage) ==> c.ticket.Some? && threads[c.ticket.value].pc == Finished(reply)
    requires c.stage.Ready? && env.failure.Some? ==> env.failure.value in {Cancelled, NoDevice, PinFailed, SaltFailed, FidoFailed}
    requires c.stage.Loaded? && env.failure.Some? ==> env.failure.value in {Cancelled, NoDevice, PinFailed, DeriveFailed}
    ensures var m := NextMove(c, services[c.service].rpID, reply, env);
      CallerOk(if m.begin.Some? then threads[env.thread := Thread(handle, m.begin.value, Start)] else threads, services, m.caller)
  {
    hide TrimSpace, InputsOf;
    if c.kind.DeriveCall? {
      hide CreateOk;
    } else {
      hide DeriveOk;
    }
  }

  lemma MoveOk(w: World, c: nat, env: Env)
    requires WorldInv(w) && CanAct(w, c, env)
    ensures var w' := ActIn(w, c, env); CallerOk(w'.store.threads, w.services, w'.callers[c])
  {
    var caller := w.callers[c];
    assert CallerOk(w.store.threads, w.services, caller);
    MoveCaller(w.store.threads, w.services, caller, w.services[caller.service].handle, ReplyTo(w, caller), env);
    hide WorldInv, CallerOk, TrimSpace, CreateFree, NextMove;
  }

  lemma ActKeepsStore(w: World, c: nat, env: Env)
    requires WorldInv(w) && CanAct(w, c, env)
    ensures var w' := ActIn(w, c, env);
      StoreInv(w'.store) && ThreadsKept(w.store.threads, w'.store.threads) && w'.store.log == w.store.log
  {
    var caller := w.callers[c];
    var cfg := w.services[caller.service];
    var m := NextMove(caller, cfg.rpID, ReplyTo(w, caller), env);
    if m.begin.Some? {
      StepKeepsStoreInv(w.store, Begin(env.thread, cfg.handle, m.begin.value));
    }
    hide StoreInv, NextMove, CallersInv, TrimSpace;
  }

  lemma MovedCallers(threads: map<nat, Thread>, threads': map<nat, Thread>, services: map<nat, Config>,
                     callers: map<nat, Caller>, c: nat, caller': Caller)
    requires CallersInv(threads, services, callers) && ThreadsKept(threads, threads') && c in callers
    requires caller'.service in services && CallerOk(threads', services, caller') && Separate(callers[c := caller'])
    ensures CallersInv(threads', services, callers[c := caller'])
  {
    hide CallerOk, ThreadsKept, TrimSpace, Separate;
    var callers' := callers[c := caller'];
    forall d | d in callers' ensures callers'[d].service in services && CallerOk(threads', services, callers'[d]) {
      if d != c {
        CallerOkStays(threads, threads', services, services, callers[d]);
      }
    }
  }

  lemma ActKeepsInv(w: World, c: nat, env: Env)
    requires WorldInv(w) && CanAct(w, c, env)
    ensures WorldInv(ActIn(w, c, env))
  {
    var w' := ActIn(w, c, env);
    ActKeepsStore(w, c, env);
    MoveOk(w, c, env);
    TicketsAreThreads(w);
    TicketsAndMutex(w, c, env);
    MoveKeepsService(w, c, env);
    hide StoreInv, CallerOk, ThreadsKept, TrimSpace, ActIn, CanAct, Separate, CallersInv;
    assert w.callers[c].service in w.services by { CallerHasService(w, c); }
    MovedCallers(w.store.threads, w'.store.threads, w.services, w.callers, c, w'.callers[c]);
  }

  lemma CallerHasService(w: World, c: nat)
    requires CallersInv(w.store.threads, w.services, w.callers) && c in w.callers
    ensures w.callers[c].service in w.services
  {
  }

  lemma MoveKeepsService(w: World, c: nat, env: Env)
    requires CanAct(w, c, env)
    ensures var w' := ActIn(w, c, env);
      && w'.services == w.services && w'.callers == w.callers[c := w'.callers[c]]
      && w'.callers[c].service == w.callers[c].service && w'.callers[c].alias == w.callers[c].alias
      && w'.callers[c].kind == w.callers[c].kind
  {
  }

  lemma TicketsAndMutex(w: World, c: nat, env: Env)
    requires Separate(w.callers) && CanAct(w, c, env)
    requires forall d :: d in w.callers && w.callers[d].ticket.Some? ==> w.callers[d].ticket.value in w.store.threads
    ensures Separate(ActIn(w, c, env).callers)
  {
    MoveKeepsService(w, c, env);
    MovedTicket(w, c, env);
    FreshName(w, c, env);
    hide Separate, ActIn, CanAct, CreateFree, HoldsCreate;
    UpdatedTickets(w.callers, c, ActIn(w, c, env).callers[c], env.thread);
  }

  lemma FreshName(w: World, c: nat, env: Env)
    requires CanAct(w, c, env)
    ensures env.thread !in w.store.threads
  {
  }

  lemma UpdatedTickets(cs: map<nat, Caller>, c: nat, caller': Caller, name: nat)
    requires Separate(cs) && c in cs && caller'.service == cs[c].service
    requires forall d :: d in cs ==> cs[d].ticket != Some(name)
    requires caller'.ticket == cs[c].ticket || caller'.ticket == Some(name)
    requires HoldsCreate(caller'.stage) ==> HoldsCreate(cs[c].stage) || CreateFree(cs, c)
    ensures Separate(cs[c := caller'])
  {
  }

  lemma TicketsAreThreads(w: World)
    requires WorldInv(w)
    ensures forall d :: d in w.callers && w.callers[d].ticket.Some? ==> w.callers[d].ticket.value in w.store.threads
  {
    hide TrimSpace, StoreInv;
    forall d | d in w.callers && w.callers[d].ticket.Some? ensures w.callers[d].ticket.value in w.store.threads {
      assert CallerOk(w.store.threads, w.services, w.callers[d]);
    }
  }

  lemma MovedTicket(w: World, c: nat, env: Env)
    requires CanAct(w, c, env)
    ensures var caller' := ActIn(w, c, env).callers[c];
      && (caller'.ticket == w.callers[c].ticket || caller'.ticket == Some(env.thread))
      && (HoldsCreate(caller'.stage) ==> HoldsCreate(w.callers[c].stage) || CreateFree(w.callers, c))
  {
    hide CreateFree;
  }

  lemma WorldStepKeepsInv(w: World, step: WorldStep)
    requires WorldInv(w) && WorldEnabled(w, step)
    ensures WorldInv(WorldTake(w, step))
  {
    hide CallerOk, TrimSpace, Enabled, Take, ActIn, StoreInv, CanAct, ServiceRPID;
    match step
    case StoreStep(s) =>
      StepKeepsStoreInv(w.store, s);
      CallersInvStays(w.store.threads, Take(w.store, s).threads, w.services, w.services, w.callers);
    case AddService(id, handle, raw) =>
      ServiceRPIDNormalized(raw);
      CallersInvStays(w.store.threads, w.store.threads, w.services, w.services[id := Config(handle, ServiceRPID(raw))], w.callers);
    case Call(c, service, kind, raw) => CallKeepsInv(w, c, service, kind, raw);
    case Act(c, env) => ActKeepsInv(w, c, env);
  }

  lemma WaitingIsOk(threads: map<nat, Thread>, services: map<nat, Config>, service: nat, kind: Kind, raw: Bytes)
    ensures CallerOk(threads, services, Caller(service, kind, TrimSpace(raw), None, NO_RECORD, Waiting))
  {
    TrimSpaceIdempotent(raw);
    hide TrimSpace;
  }

  lemma CallKeepsInv(w: World, c: nat, service: nat, kind: Kind, raw: Bytes)
    requires WorldInv(w) && WorldEnabled(w, Call(c, service, kind, raw))
    ensures WorldInv(WorldTake(w, Call(c, service, kind, raw)))
  {
    WaitingIsOk(w.store.threads, w.services, service, kind, raw);
    hide StoreInv, TrimSpace, CallerOk;
  }

  lemma {:induction false} WorldInvAlways(steps: seq<WorldStep>)
    requires WorldPossible(steps)
    ensures WorldInv(WorldAfter(steps))
  {
    hide WorldEnabled, WorldTake;
    if steps == [] {
      Refinement.RunsAreLinearizable([]);
      InvAlways([]);
      EventsAlwaysMatch([]);
    } else {
      WorldInvAlways(steps[..|steps| - 1]);
      hide WorldInv;
      WorldStepKeepsInv(WorldAfter(steps[..|steps| - 1]), steps[|steps| - 1]);
    }
  }
}
