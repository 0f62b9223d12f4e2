/** What callers of the alias service get, whatever runs beside them: one creation per
    alias, failures that leave no trace, and secrets that do not change and do not get
    lost. */
module EndToEnd {
  import Refinement
  import ProtocolInvariant
  import opened ByteStrings
  import opened Text
  import opened Storage
  import opened AliasMap
  import opened Protocol
  import opened History
  import opened Service
  import opened ServiceProtocol

  function EventsOf(w: World): Events {
    w.store.log.events
  }

  /** e is the event of c's last store call. */
  predicate IsCallOf(e: Event, c: Caller) {
    c.ticket == Some(e.thread)
  }

  lemma WorldIsLegal(w: World)
    requires WorldInv(w)
    ensures Legal(EventsOf(w))
  {
    hide ProtocolInvariant.Inv, EventsMatch, CallersInv, Legal, Refinement.Represents;
  }

  /** An answered call that took effect is in the history, once, with its answer. */
  lemma AnsweredIsRecorded(w: World, c: Caller, op: Op, reply: Reply) returns (k: nat)
    requires WorldInv(w) && Answered(w.store.threads, c, op, reply) && TookEffect(op, Finished(reply))
    ensures k < |EventsOf(w)| && EventsOf(w)[k] == Event(c.ticket.value, op, reply) && IsCallOf(EventsOf(w)[k], c)
    ensures forall i :: 0 <= i < |EventsOf(w)| && IsCallOf(EventsOf(w)[i], c) ==> i == k
  {
    hide ProtocolInvariant.Inv, Refinement.Refines, CallersInv, TookEffect;
    var es := EventsOf(w);
    assert Recorded(es, c.ticket.value);
    k :| 0 <= k < |es| && es[k].thread == c.ticket.value;
    assert EventOk(w.store.threads, es[k]);
  }

  lemma CallerIsOk(w: World, c: nat)
    requires WorldInv(w) && c in w.callers
    ensures CallerOk(w.store.threads, w.services, w.callers[c]) && w.callers[c].service in w.services
    ensures w.services[w.callers[c].service].rpID != []
    ensures TrimSpace(w.services[w.callers[c].service].rpID) == w.services[w.callers[c].service].rpID
  {
    hide StoreInv, CallerOk, TrimSpace;
  }

  /** A Create past its Put stored its own record, normalised as it stands. */
  lemma StoredRecord(w: World, c: nat) returns (k: nat)
    requires WorldInv(w) && c in w.callers && w.callers[c].kind.CreateCall? && HasStored(w.callers[c].stage)
    ensures var caller := w.callers[c];
      && k < |EventsOf(w)| && IsCallOf(EventsOf(w)[k], caller)
      && EventsOf(w)[k] == Event(caller.ticket.value, Op.Put(caller.rec), Success)
      && Stores(EventsOf(w)[k], caller.alias) && Normalize(caller.rec) == caller.rec && caller.alias != []
      && (forall i :: 0 <= i < |EventsOf(w)| && IsCallOf(EventsOf(w)[i], caller) ==> i == k)
  {
    var caller := w.callers[c];
    CallerIsOk(w, c);
    hide WorldInv, TrimSpace;
    k := AnsweredIsRecorded(w, caller, Op.Put(caller.rec), Success);
  }

  // ---------- Failure atomicity ----------

  /** A Create that ended stored exactly one record - the alias, a new credential id,
      the drawn salt and the service's RP id - if it succeeded or only its last step
      failed, and then its secret derives from that record; otherwise it stored
      nothing. */
  lemma CreateAllOrNothing(steps: seq<WorldStep>, c: nat)
    requires WorldPossible(steps) && c in WorldAfter(steps).callers
    requires WorldAfter(steps).callers[c].kind.CreateCall? && WorldAfter(steps).callers[c].stage.Done?
    ensures var w := WorldAfter(steps);
      var caller := w.callers[c];
      var o := caller.stage.outcome;
      if o.Derived? || o == Refused(DeriveFailed) then
        && (exists k :: 0 <= k < |EventsOf(w)| && Stores(EventsOf(w)[k], caller.alias) && IsCallOf(EventsOf(w)[k], caller)
                        && EventsOf(w)[k].op == Op.Put(caller.rec))
        && (forall i, j :: 0 <= i < j < |EventsOf(w)| ==> !(IsCallOf(EventsOf(w)[i], caller) && IsCallOf(EventsOf(w)[j], caller)))
        && RecordFor(w.services, caller)
        && (o.Derived? ==>
              && o.inputs.rpID == caller.rec.rpID && o.inputs.credentialID == caller.rec.credentialID
              && o.inputs.salt == caller.rec.salt)
      else
        forall k :: 0 <= k < |EventsOf(w)| && IsCallOf(EventsOf(w)[k], caller) ==> !Stores(EventsOf(w)[k], caller.alias)
  {
    var w := WorldAfter(steps);
    var caller := w.callers[c];
    WorldInvAlways(steps);
    CallerIsOk(w, c);
    if HasStored(caller.stage) {
      var k := StoredRecord(w, c);
    } else {
      assert EventsMatch(w.store.threads, EventsOf(w));
      hide WorldInv, TrimSpace, WorldPossible, WorldAfter;
      forall k | 0 <= k < |EventsOf(w)| && IsCallOf(EventsOf(w)[k], caller) ensures !Stores(EventsOf(w)[k], caller.alias) {
        assert EventOk(w.store.threads, EventsOf(w)[k]);
      }
    }
  }

  lemma InputFields(rec: Record)
    ensures InputsOf(rec).rpID == rec.rpID && InputsOf(rec).credentialID == rec.credentialID && InputsOf(rec).salt == rec.salt
  {
  }

  // ---------- At most one creation ----------

  /** A stored record that a caller's call put there is that caller's own, whether or
      not the caller has read the answer. */
  lemma StoringCaller(w: World, c: nat, i: nat, a: Bytes)
    requires WorldInv(w) && c in w.callers && i < |EventsOf(w)|
    requires Stores(EventsOf(w)[i], a) && IsCallOf(EventsOf(w)[i], w.callers[c])
    ensures var caller := w.callers[c];
      && caller.kind.CreateCall? && (caller.stage.AwaitPut? || HasStored(caller.stage))
      && EventsOf(w)[i].op == Op.Put(caller.rec) && RecordFor(w.services, caller) && Normalize(caller.rec) == caller.rec
      && caller.alias == a && a != [] && TrimSpace(a) == a
      && (caller.stage.Done? && caller.stage.outcome.Derived? ==> caller.stage.outcome.inputs == InputsOf(caller.rec))
  {
    CallerIsOk(w, c);
    EventIsOk(w, i);
    hide WorldInv, TrimSpace, InputsOf;
    StoringStage(w.store.threads, w.services, w.callers[c], EventsOf(w)[i], a);
  }

  lemma StoringStage(threads: map<nat, Thread>, services: map<nat, Config>, c: Caller, e: Event, a: Bytes)
    requires CallerOk(threads, services, c) && EventOk(threads, e) && Stores(e, a) && IsCallOf(e, c)
    ensures c.kind.CreateCall? && (c.stage.AwaitPut? || HasStored(c.stage)) && RecordFor(services, c)
    ensures e.op == Op.Put(c.rec) && TrimSpace(c.alias) == c.alias == a && a != []
    ensures c.stage.Done? && c.stage.outcome.Derived? ==> c.stage.outcome.inputs == InputsOf(c.rec)
  {
    hide TrimSpace, InputsOf;
  }

  lemma EventIsOk(w: World, j: nat)
    requires WorldInv(w) && j < |EventsOf(w)|
    ensures EventOk(w.store.threads, EventsOf(w)[j])
  {
    hide ProtocolInvariant.Inv, Refinement.Refines, CallersInv;
  }

  /** Two Creates of one alias, by any services and whether or not they lived to read
      the answer, cannot both have stored their record unless the alias was deleted
      between the two Puts. */
  lemma AtMostOneCreation(steps: seq<WorldStep>, c: nat, d: nat, i: nat, j: nat, a: Bytes) returns (k: nat)
    requires WorldPossible(steps) && c != d && i <= j < |EventsOf(WorldAfter(steps))|
    requires var w := WorldAfter(steps);
      && c in w.callers && Stores(EventsOf(w)[i], a) && IsCallOf(EventsOf(w)[i], w.callers[c])
      && d in w.callers && Stores(EventsOf(w)[j], a) && IsCallOf(EventsOf(w)[j], w.callers[d])
    ensures i < k < j && Removes(EventsOf(WorldAfter(steps))[k], a)
  {
    var w := WorldAfter(steps);
    WorldInvAlways(steps);
    WorldIsLegal(w);
    TicketsDiffer(w, c, d);
    hide WorldInv, WorldPossible, WorldAfter, Legal;
    PutsAreSeparated(EventsOf(w), i, j, a);
    k :| i < k < j && Removes(EventsOf(w)[k], a);
  }

  lemma TicketsDiffer(w: World, c: nat, d: nat)
    requires WorldInv(w) && c in w.callers && d in w.callers && c != d && w.callers[c].ticket.Some?
    ensures w.callers[c].ticket != w.callers[d].ticket
  {
    hide StoreInv, CallerOk, TrimSpace;
  }

  // ---------- Callers after a creation ----------

  /** The caller's last store call, if it took effect, did so after event i and with no
      deletion of the alias in between. */
  ghost predicate ComesAfter(es: Events, c: Caller, i: nat, a: Bytes) {
    forall j :: 0 <= j < |es| && IsCallOf(es[j], c) ==> i < j && forall k :: i < k < j ==> !Removes(es[k], a)
  }

  /** Callers d that work on the alias stored by event i, and come after it. */
  ghost predicate Follows(w: World, d: nat, i: nat, a: Bytes) {
    && d in w.callers && w.callers[d].alias == a && w.callers[d].stage.Done?
    && i < |EventsOf(w)| && Stores(EventsOf(w)[i], a) && ComesAfter(EventsOf(w), w.callers[d], i, a)
  }

  /** How the map answers calls about alias a while it holds rec there. */
  predicate SaysStored(op: Op, reply: Reply, a: Bytes, rec: Record) {
    && (op.Has? && op.alias == a ==> reply == Present(true))
    && (op.Put? && op.rec.alias == a ==> reply == Failure(Exists) || reply == Failure(InvalidRecord))
    && (op.Get? && op.alias == a ==> reply == Found(rec))
  }

  lemma MapSaysStored(m: Records, op: Op, a: Bytes)
    requires a in m && a != [] && TrimSpace(a) == a && IsData(op)
    ensures SaysStored(op, MapStep(m, op).1, a, m[a])
  {
    hide TrimSpace, ValidateRecord;
    if op.Put? && op.rec.alias == a && ValidateRecord(Normalize(op.rec)).Err? {
      InvalidNamedRecord(Normalize(op.rec));
    }
  }

  lemma InvalidNamedRecord(rec: Record)
    requires rec.alias != [] && ValidateRecord(rec).Err?
    ensures ValidateRecord(rec).error == InvalidRecord
  {
  }

  lemma AnswersByMap(es: Events, i: nat, j: nat, a: Bytes)
    requires Legal(es) && i < j < |es| && Stores(es[i], a) && TrimSpace(a) == a
    requires forall k :: i < k < j ==> !Removes(es[k], a)
    ensures SaysStored(es[j].op, es[j].reply, a, Normalize(es[i].op.rec))
  {
    hide TrimSpace, Contents, Legal, Normalize, SaysStored, MapStep;
    RecordStays(es, i, j, a);
    OneMoreEvent(es, j);
    StoredHasName(es, i, a);
    MapSaysStored(Contents(es[..j]), es[j].op, a);
  }

  lemma StoredHasName(es: Events, i: nat, a: Bytes)
    requires Legal(es) && i < |es| && Stores(es[i], a)
    ensures a != []
  {
    OneMoreEvent(es, i);
    hide TrimSpace, Contents, Legal;
  }

  /** A follower's last store call was answered by the map, or not at all. */
  lemma FollowerAnswer(w: World, d: nat, i: nat, a: Bytes)
    requires WorldInv(w) && Follows(w, d, i, a)
    ensures a != [] && TrimSpace(a) == a && w.callers[d].ticket.Some? && w.callers[d].ticket.value in w.store.threads
    ensures var th := w.store.threads[w.callers[d].ticket.value];
      th.pc.Finished? && (IsData(th.op) ==>
        || th.pc.reply == Failure(Locked) || th.pc.reply == Failure(Unavailable)
        || SaysStored(th.op, th.pc.reply, a, Normalize(EventsOf(w)[i].op.rec)))
  {
    var caller, es := w.callers[d], EventsOf(w);
    CallerIsOk(w, d);
    WorldIsLegal(w);
    StoredHasName(es, i, a);
    hide WorldInv, Legal, TrimSpace, Normalize, SaysStored;
    EndedTicket(w.store.threads, w.services, caller);
    var th := w.store.threads[caller.ticket.value];
    if IsData(th.op) && TookEffect(th.op, th.pc) {
      hide CallerOk;
      var j := AnsweredIsRecorded(w, caller, th.op, th.pc.reply);
      AnswersByMap(es, i, j, a);
    }
  }

  lemma EndedTicket(threads: map<nat, Thread>, services: map<nat, Config>, c: Caller)
    requires CallerOk(threads, services, c) && c.stage.Done? && c.alias != []
    ensures TrimSpace(c.alias) == c.alias && c.ticket.Some? && c.ticket.value in threads && threads[c.ticket.value].pc.Finished?
  {
    hide TrimSpace;
  }

  lemma EndedCreate(threads: map<nat, Thread>, services: map<nat, Config>, c: Caller)
    requires CallerOk(threads, services, c) && c.kind.CreateCall? && c.stage.Done? && c.alias != []
    ensures if HasStored(c.stage) then Answered(threads, c, Op.Put(c.rec), Success) && c.rec.alias == c.alias
            else c.stage.outcome.Refused? && c.ticket.Some? && c.ticket.value in threads
                 && RefusedAfter(threads, c, c.ticket.value, c.stage.outcome.error) && !threads[c.ticket.value].op.Get?
  {
    hide TrimSpace, InputsOf;
  }

  lemma EndedDerive(threads: map<nat, Thread>, services: map<nat, Config>, c: Caller)
    requires CallerOk(threads, services, c) && c.kind.DeriveCall? && c.stage.Done? && c.alias != []
    ensures if c.stage.outcome.Derived?
            then Answered(threads, c, Op.Get(c.alias), Found(c.rec)) && c.stage.outcome.inputs == InputsOf(c.rec)
            else c.ticket.Some? && c.ticket.value in threads && threads[c.ticket.value].op.Get?
                 && RefusedAfter(threads, c, c.ticket.value, c.stage.outcome.error)
  {
    hide TrimSpace, InputsOf;
  }

  /** The store was locked or could not be reached. */
  predicate NoAnswer(e: SecretsError) {
    e == StoreFailed(Locked) || e == StoreFailed(Unavailable)
  }

  /** Why a follower was refused. */
  lemma FollowerRefusal(threads: map<nat, Thread>, c: Caller, t: nat, error: SecretsError, rec: Record)
    requires RefusedAfter(threads, c, t, error)
    requires var reply := threads[t].pc.reply;
      reply == Failure(Locked) || reply == Failure(Unavailable) || SaysStored(threads[t].op, reply, c.alias, rec)
    ensures !threads[t].op.Get? ==> error == AliasExists || error == StoreFailed(InvalidRecord) || NoAnswer(error)
    ensures threads[t].op.Get? ==> error in {Cancelled, NoDevice, PinFailed, DeriveFailed} || NoAnswer(error)
  {
  }

  /** While an alias is stored, every later Create of it that ends is refused: because
      the alias exists, because the record it wanted to store was invalid anyway, or
      because the store gave no answer. */
  lemma LaterCreatesAreRefused(steps: seq<WorldStep>, d: nat, i: nat, a: Bytes)
    requires WorldPossible(steps) && Follows(WorldAfter(steps), d, i, a)
    requires WorldAfter(steps).callers[d].kind.CreateCall?
    ensures var o := WorldAfter(steps).callers[d].stage.outcome;
      o.Refused? && (o.error == AliasExists || o.error == StoreFailed(InvalidRecord) || NoAnswer(o.error))
  {
    hide WorldInv, CallerOk, TrimSpace, ComesAfter, Normalize, RefusedAfter, NoAnswer;
    var w := WorldAfter(steps);
    var caller := w.callers[d];
    WorldInvAlways(steps);
    hide WorldPossible, WorldAfter;
    FollowerAnswer(w, d, i, a);
    CallerIsOk(w, d);
    EndedCreate(w.store.threads, w.services, caller);
    if !HasStored(caller.stage) {
      RefusedOpIsData(w.store.threads, caller, caller.ticket.value, caller.stage.outcome.error);
      FollowerRefusal(w.store.threads, caller, caller.ticket.value, caller.stage.outcome.error, Normalize(EventsOf(w)[i].op.rec));
    }
  }

  lemma RefusedOpIsData(threads: map<nat, Thread>, c: Caller, t: nat, error: SecretsError)
    requires RefusedAfter(threads, c, t, error)
    ensures IsData(threads[t].op) && threads[t].pc.Finished?
  {
  }

  // ---------- The secret does not change ----------

  /** Through any locking, rotation, failure, crash and any calls on other aliases: a
      Derive that comes after a Create's Put, with no deletion of the alias in between,
      derives from the RP id, credential id and salt of the record that Create stored, even
      if the Create never read the answer - so a deterministic authenticator returns the
      same secret. */
  lemma SecretIsStable(steps: seq<WorldStep>, c: nat, d: nat, i: nat, a: Bytes, authenticator: DeriveInputs -> Bytes)
    requires WorldPossible(steps) && Follows(WorldAfter(steps), d, i, a)
    requires c in WorldAfter(steps).callers && IsCallOf(EventsOf(WorldAfter(steps))[i], WorldAfter(steps).callers[c])
    requires WorldAfter(steps).callers[d].kind.DeriveCall? && WorldAfter(steps).callers[d].stage.outcome.Derived?
    ensures var w := WorldAfter(steps);
      var asked, rec := w.callers[d].stage.outcome.inputs, w.callers[c].rec;
      && asked.rpID == rec.rpID && asked.credentialID == rec.credentialID && asked.salt == rec.salt
      && EventsOf(w)[i].op == Op.Put(rec)
      && w.callers[c].service in w.services && rec.rpID == w.services[w.callers[c].service].rpID
      && (w.callers[c].stage.Done? && w.callers[c].stage.outcome.Derived? ==>
            authenticator(asked) == authenticator(w.callers[c].stage.outcome.inputs))
  {
    var w := WorldAfter(steps);
    WorldInvAlways(steps);
    StoringCaller(w, c, i, a);
    FollowerAnswer(w, d, i, a);
    CallerIsOk(w, d);
    EndedDerive(w.store.threads, w.services, w.callers[d]);
    InputFields(w.callers[c].rec);
    hide WorldPossible, WorldAfter, WorldInv, CallerOk, TrimSpace, ComesAfter, Normalize, InputsOf;
  }

  /** Nor does it get lost: a Derive of a stored alias that ends without a secret was
      given no answer by the store, or failed on its way to the authenticator. */
  lemma SecretStaysAvailable(steps: seq<WorldStep>, d: nat, i: nat, a: Bytes)
    requires WorldPossible(steps) && Follows(WorldAfter(steps), d, i, a)
    requires WorldAfter(steps).callers[d].kind.DeriveCall? && WorldAfter(steps).callers[d].stage.outcome.Refused?
    ensures var e := WorldAfter(steps).callers[d].stage.outcome.error;
      e in {Cancelled, NoDevice, PinFailed, DeriveFailed} || NoAnswer(e)
  {
    hide WorldInv, CallerOk, TrimSpace, ComesAfter, Normalize, RefusedAfter, NoAnswer, SaysStored;
    var w := WorldAfter(steps);
    var caller := w.callers[d];
    WorldInvAlways(steps);
    hide WorldPossible, WorldAfter;
    FollowerAnswer(w, d, i, a);
    CallerIsOk(w, d);
    EndedDerive(w.store.threads, w.services, caller);
    FollowerRefusal(w.store.threads, caller, caller.ticket.value, caller.stage.outcome.error, Normalize(EventsOf(w)[i].op.rec));
  }

  // ---------- Each step of a caller ----------

  /** What a caller's next step is, by the answer to its last store call and by what the
      device side reports; and what it adds to the registered and the lost credentials. */
  lemma CallerStep(w: World, d: nat, env: Env)
    requires CanAct(w, d, env)
    ensures var w', c := ActIn(w, d, env), w.callers[d];
      var c', t := w'.callers[d], c.ticket;
      var reply := if t.Some? && t.value in w.store.threads && w.store.threads[t.value].pc.Finished?
                   then w.store.threads[t.value].pc.reply else Success;
      var begun := w'.store.threads;
      && c'.service == c.service && c'.alias == c.alias && c'.kind == c.kind
      && (c.stage.Loaded? || c.stage.Stored? ==> c'.rec == c.rec && c'.stage.Done?)
      && ((c.stage.Loaded? || c.stage.Stored?) && env.failure.None? ==>
            && c'.stage.outcome.Derived? && c'.stage.outcome.inputs.rpID == c.rec.rpID
            && c'.stage.outcome.inputs.credentialID == c.rec.credentialID && c'.stage.outcome.inputs.salt == c.rec.salt)
      && ((c.stage.Loaded? || c.stage.Stored?) && env.failure.Some? ==>
            c'.stage.outcome == Refused(if c.stage.Stored? then DeriveFailed else env.failure.value))
      && (c.stage.AwaitGet? && reply.Found? ==> c'.stage.Loaded? && c'.rec == reply.rec)
      && (c.stage.AwaitGet? && reply == Failure(NotFound) ==> c'.stage == Done(Refused(AliasNotFound)))
      && (c.stage.AwaitGet? && reply.Failure? && reply.error != NotFound ==> c'.stage == Done(Refused(StoreFailed(reply.error))))
      && (c.stage.AwaitHas? && reply == Present(true) ==> c'.stage == Done(Refused(AliasExists)))
      && (c.stage.AwaitHas? && reply == Present(false) ==> c'.stage.Ready?)
      && (c.stage.AwaitHas? && reply.Failure? ==> c'.stage == Done(Refused(StoreFailed(reply.error))))
      && (c.stage.AwaitPut? && reply == Success ==> c'.stage.Stored? && c'.rec == c.rec)
      && (c.stage.AwaitPut? && reply == Failure(Exists) ==> c'.stage == Done(Refused(AliasExists)))
      && (c.stage.AwaitPut? && reply.Failure? && reply.error != Exists ==> c'.stage == Done(Refused(StoreFailed(reply.error))))
      && w'.created == w.created + (if c.stage.Ready? && env.failure.None? then [(c.service, c.alias)] else [])
      && w'.lost == w.lost + (if c.stage.AwaitPut? && reply != Success && reply != Failure(Exists)
                              then [(c.service, c.alias)] else [])
  {
    hide TrimSpace, CreateFree, Take;
  }

  /** Which store call a caller's step begins, on its service's handle. */
  lemma CallerBegins(w: World, d: nat, env: Env)
    requires CanAct(w, d, env)
    ensures var w', c := ActIn(w, d, env), w.callers[d];
      var handle := w.services[c.service].handle;
      && (c.stage.Waiting? && c.alias == [] ==> w'.callers[d].stage == Done(Refused(AliasInvalid)) && w'.store == w.store)
      && (c.stage.Waiting? && c.alias != [] ==>
            && w'.callers[d].ticket == Some(env.thread)
            && w'.store.threads == w.store.threads[env.thread := Thread(handle,
                 if c.kind.CreateCall? then Op.Has(c.alias) else Op.Get(c.alias), Start)])
      && (c.stage.Ready? && env.failure.Some? ==>
            w'.callers[d].stage == Done(Refused(env.failure.value)) && w'.store == w.store)
      && (c.stage.Ready? && env.failure.None? ==>
            && w'.callers[d].ticket == Some(env.thread) && w'.callers[d].stage.AwaitPut?
            && w'.callers[d].rec.alias == c.alias && w'.callers[d].rec.credentialID == env.credential
            && w'.callers[d].rec.salt == env.salt && w'.callers[d].rec.rpID == w.services[c.service].rpID
            && w'.store.threads == w.store.threads[env.thread := Thread(handle, Op.Put(w'.callers[d].rec), Start)])
  {
    hide TrimSpace, CreateFree;
  }

  // ---------- Without trouble on the device side ----------

  /** No step of caller d met a failure of context, device, PIN or authenticator. */
  predicate Untroubled(steps: seq<WorldStep>, d: nat) {
    forall i :: 0 <= i < |steps| && steps[i].Act? && steps[i].caller == d ==> steps[i].env.failure.None?
  }

  predicate FailedOnDevice(c: Caller) {
    c.stage.Done? && c.stage.outcome.Refused? && c.stage.outcome.error in {Cancelled, NoDevice, PinFailed, DeriveFailed}
  }

  lemma UntroubledStep(w: World, step: WorldStep, d: nat)
    requires WorldEnabled(w, step) && (d in w.callers ==> !FailedOnDevice(w.callers[d]))
    requires step.Act? && step.caller == d ==> step.env.failure.None?
    ensures d in WorldTake(w, step).callers ==> !FailedOnDevice(WorldTake(w, step).callers[d])
  {
    hide Enabled, Take, CreateFree, TrimSpace;
  }

  lemma {:induction false} UntroubledCaller(steps: seq<WorldStep>, d: nat)
    requires WorldPossible(steps) && Untroubled(steps, d)
    ensures d in WorldAfter(steps).callers ==> !FailedOnDevice(WorldAfter(steps).callers[d])
  {
    hide WorldEnabled, WorldTake, FailedOnDevice;
    if steps != [] {
      UntroubledCaller(steps[..|steps| - 1], d);
      UntroubledStep(WorldAfter(steps[..|steps| - 1]), steps[|steps| - 1], d);
    }
  }

  /** So a Derive of a stored alias that ends, with no trouble on the device side, gives
      the secret, unless the store gave it no answer. */
  lemma SecretIsDelivered(steps: seq<WorldStep>, c: nat, d: nat, i: nat, a: Bytes)
    requires WorldPossible(steps) && Follows(WorldAfter(steps), d, i, a) && Untroubled(steps, d)
    requires c in WorldAfter(steps).callers && IsCallOf(EventsOf(WorldAfter(steps))[i], WorldAfter(steps).callers[c])
    requires WorldAfter(steps).callers[d].kind.DeriveCall?
    ensures var o, rec := WorldAfter(steps).callers[d].stage.outcome, WorldAfter(steps).callers[c].rec;
      if o.Derived?
      then o.inputs.rpID == rec.rpID && o.inputs.credentialID == rec.credentialID && o.inputs.salt == rec.salt
      else o.error == StoreFailed(Locked) || o.error == StoreFailed(Unavailable)
  {
    UntroubledCaller(steps, d);
    if WorldAfter(steps).callers[d].stage.outcome.Derived? {
      SecretIsStable(steps, c, d, i, a, x => []);
    } else {
      SecretStaysAvailable(steps, d, i, a);
    }
    hide WorldPossible, WorldAfter, Follows;
  }
}
