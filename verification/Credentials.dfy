/** How many credentials Create registers on the authenticator: over any run, no more
    per service and alias than one, plus one for each deletion of the alias, plus one
    for each Put that failed for another reason than an existing alias. */
module Credentials {
  import opened ByteStrings
  import opened Text
  import opened Storage
  import opened AliasMap
  import opened Protocol
  import ProtocolInvariant
  import Refinement
  import opened History
  import opened ServiceProtocol
  import opened EndToEnd

  /** Entries of xs for one service and alias. */
  function CountFor(xs: seq<(nat, Bytes)>, s: nat, a: Bytes): nat {
    if xs == [] then 0
    else CountFor(xs[..|xs| - 1], s, a) + if xs[|xs| - 1] == (s, a) then 1 else 0
  }

  /** Successful deletions of an alias. */
  function Removals(es: Events, a: Bytes): nat {
    if es == [] then 0
    else Removals(es[..|es| - 1], a) + if Removes(es[|es| - 1], a) then 1 else 0
  }

  lemma CountForLast(xs: seq<(nat, Bytes)>, x: (nat, Bytes), s: nat, a: Bytes)
    ensures CountFor(xs + [x], s, a) == CountFor(xs, s, a) + if x == (s, a) then 1 else 0
  {
    assert (xs + [x])[..|xs + [x]| - 1] == xs;
  }

  lemma {:induction false} CountForIs(xs: seq<(nat, Bytes)>, s: nat, a: Bytes)
    ensures CountFor(xs, s, a) == multiset(xs)[(s, a)]
  {
    if xs != [] {
      CountForIs(xs[..|xs| - 1], s, a);
      assert xs == xs[..|xs| - 1] + [xs[|xs| - 1]];
    }
  }

  /** The positions of the successful deletions of an alias. */
  function Deletions(es: Events, a: Bytes): set<nat> {
    set k | 0 <= k < |es| && es[k].op.Delete? && es[k].reply == Success && TrimSpace(es[k].op.alias) == a
  }

  lemma {:induction false} RemovalsIs(es: Events, a: Bytes)
    ensures Removals(es, a) == |Deletions(es, a)|
  {
    hide TrimSpace, Deletions, Removes;
    if es == [] {
      NoDeletions(a);
    } else {
      RemovalsIs(es[..|es| - 1], a);
      LastDeletion(es, a);
    }
  }

  lemma NoDeletions(a: Bytes)
    ensures Deletions([], a) == {}
  {
  }

  lemma LastDeletion(es: Events, a: Bytes)
    requires es != []
    ensures var n, before := |es| - 1, Deletions(es[..|es| - 1], a);
      n !in before && Deletions(es, a) == if Removes(es[n], a) then before + {n} else before
  {
    hide TrimSpace;
    var init := es[..|es| - 1];
    assert forall k :: 0 <= k < |init| ==> init[k] == es[k];
  }

  lemma RemovalsLast(es: Events, e: Event, a: Bytes)
    ensures Removals(es + [e], a) == Removals(es, a) + if Removes(e, a) then 1 else 0
  {
    assert (es + [e])[..|es + [e]| - 1] == es;
  }

  predicate RepliedWith(threads: map<nat, Thread>, c: Caller, reply: Reply) {
    c.ticket.Some? && c.ticket.value in threads && threads[c.ticket.value].pc == Finished(reply)
  }

  /** The caller has a credential whose Put has neither stored it nor met the alias. */
  predicate Unsettled(threads: map<nat, Thread>, c: Caller, s: nat, a: Bytes) {
    && c.service == s && c.alias == a && c.stage.AwaitPut?
    && !RepliedWith(threads, c, Success) && !RepliedWith(threads, c, Failure(Exists))
  }

  /** The caller knows that its alias was not there. */
  predicate ToldAbsent(threads: map<nat, Thread>, c: Caller, s: nat, a: Bytes) {
    && c.service == s && c.alias == a
    && (c.stage.Ready? || (c.stage.AwaitHas? && RepliedWith(threads, c, Present(false))))
  }

  ghost predicate AnyUnsettled(threads: map<nat, Thread>, callers: map<nat, Caller>, s: nat, a: Bytes) {
    exists c :: c in callers && Unsettled(threads, callers[c], s, a)
  }

  ghost predicate AnyToldAbsent(threads: map<nat, Thread>, callers: map<nat, Caller>, s: nat, a: Bytes) {
    exists c :: c in callers && ToldAbsent(threads, callers[c], s, a)
  }

  /** Credentials are explained by losses, deletions and at most one that is stored or
      on its way; none is needed while a caller is about to register one. */
  ghost predicate Explained(created: nat, lost: nat, removed: nat, stored: bool, unsettled: bool, absent: bool) {
    && created <= lost + removed + (if stored || unsettled then 1 else 0)
    && (absent ==> created <= lost + removed)
  }

  ghost predicate Bounded(w: World, s: nat, a: Bytes) {
    && AllData(EventsOf(w))
    && Explained(CountFor(w.created, s, a), CountFor(w.lost, s, a), Removals(EventsOf(w), a),
                 a in Contents(EventsOf(w)),
                 AnyUnsettled(w.store.threads, w.callers, s, a), AnyToldAbsent(w.store.threads, w.callers, s, a))
  }

  // ---------- A step of the store ----------

  lemma StepAddsOneEvent(s: State, step: Step)
    requires Enabled(s, step)
    ensures var es, es' := s.log.events, Take(s, step).log.events;
      es' == es || (|es'| == |es| + 1 && es'[..|es|] == es)
  {
    hide ThreadStep, NeedsMutex, MutexFree, Logged;
    if step.Run? {
      var th := s.threads[step.thread];
      LoggedEvents(s.log, step.thread, th.op, th.pc, step.choice,
                   ThreadStep(s.handles[th.handle], s.backend, th.op, th.pc, step.choice).pc);
    }
  }

  /** A data call that has just taken effect is the last event. */
  lemma NewEffectIsLast(threads: map<nat, Thread>, threads': map<nat, Thread>, es: Events, es': Events, t: nat)
    requires EventsMatch(threads, es) && EventsMatch(threads', es') && ThreadsKept(threads, threads')
    requires es' == es || (|es'| == |es| + 1 && es'[..|es|] == es)
    requires t in threads && threads[t].pc != threads'[t].pc && TookEffect(threads'[t].op, threads'[t].pc)
    ensures |es'| == |es| + 1 && es'[|es|] == Event(t, threads'[t].op, threads'[t].pc.reply)
  {
    hide TookEffect;
    assert Recorded(es', t);
    var k :| 0 <= k < |es'| && es'[k].thread == t;
    assert EventOk(threads', es'[k]);
    forall i | 0 <= i < |es| ensures es'[i].thread != t {
      assert es'[i] == es[i] && EventOk(threads, es[i]);
    }
  }

  /** The two ways a caller's store call can settle its question. */
  lemma EffectOnMap(m: Records, e: Event, a: Bytes)
    requires IsData(e.op) && e.reply == MapStep(m, e.op).1
    ensures e.op.Put? && TrimSpace(e.op.rec.alias) == a && (e.reply == Success || e.reply == Failure(Exists)) ==>
      a in MapStep(m, e.op).0
    ensures e.op.Has? && TrimSpace(e.op.alias) == a && e.reply == Present(false) ==> a !in m && MapStep(m, e.op).0 == m
  {
  }

  /** No step of the store makes a credential unaccounted for. */
  lemma StoreStepKeepsBound(w: World, step: Step, s: nat, a: Bytes)
    requires WorldInv(w) && Bounded(w, s, a) && WorldEnabled(w, StoreStep(step))
    ensures Bounded(WorldTake(w, StoreStep(step)), s, a)
  {
    var st, st' := w.store, Take(w.store, step);
    StepKeepsStoreInv(st, step);
    StepAddsOneEvent(st, step);
    assert Legal(st.log.events) && Legal(st'.log.events);
    hide Enabled, Take, StoreInv, Bounded, Legal, ThreadsKept;
    EventKeepsBound(w, w.(store := st'), s, a);
  }

  lemma EventKeepsBound(w: World, w': World, s: nat, a: Bytes)
    requires WorldInv(w) && Bounded(w, s, a) && w' == w.(store := w'.store)
    requires ThreadsKept(w.store.threads, w'.store.threads) && EventsMatch(w'.store.threads, EventsOf(w'))
    requires Legal(EventsOf(w)) && Legal(EventsOf(w'))
    requires var es, es' := EventsOf(w), EventsOf(w'); es' == es || (|es'| == |es| + 1 && es'[..|es|] == es)
    ensures Bounded(w', s, a)
  {
    var threads, threads', es, es' := w.store.threads, w'.store.threads, EventsOf(w), EventsOf(w');
    hide ProtocolInvariant.Inv, MapStep, CallerOk, TrimSpace, EventsMatch, ThreadsKept, Refinement.Represents, Contents;
    LastEvent(es, es', a);
    if AnyToldAbsent(threads', w.callers, s, a) {
      var c :| c in w.callers && ToldAbsent(threads', w.callers[c], s, a);
      AbsenceWasTold(w, threads', es', c, s, a);
    }
    if AnyUnsettled(threads, w.callers, s, a) {
      var c :| c in w.callers && Unsettled(threads, w.callers[c], s, a);
      CallerIsOk(w, c);
      CallSettles(threads, threads', es, es', w.services, w.callers[c], s, a);
    }
  }

  /** One more event removes the alias, counted, or keeps it if it was there. */
  lemma LastEvent(es: Events, es': Events, a: Bytes)
    requires Legal(es) && Legal(es') && (es' == es || (|es'| == |es| + 1 && es'[..|es|] == es))
    ensures Removals(es, a) <= Removals(es', a)
    ensures a in Contents(es) ==> a in Contents(es') || Removals(es', a) == Removals(es, a) + 1
  {
    if es' != es {
      OneMoreEvent(es', |es|);
      assert es'[..|es| + 1] == es' == es + [es'[|es|]];
      RemovalsLast(es, es'[|es|], a);
      MapStepOnAlias(Contents(es), es'[|es|], a);
    }
  }

  /** When Has answers no, the alias is not stored, and by createMu no other caller of
      the service has a credential for it. */
  lemma AbsenceWasTold(w: World, threads': map<nat, Thread>, es': Events, c: nat, s: nat, a: Bytes)
    requires WorldInv(w) && Bounded(w, s, a) && c in w.callers
    requires ThreadsKept(w.store.threads, threads') && EventsMatch(threads', es') && Legal(es')
    requires es' == EventsOf(w) || (|es'| == |EventsOf(w)| + 1 && es'[..|EventsOf(w)|] == EventsOf(w))
    requires ToldAbsent(threads', w.callers[c], s, a)
    ensures CountFor(w.created, s, a) <= CountFor(w.lost, s, a) + Removals(EventsOf(w), a)
  {
    var caller, threads, es := w.callers[c], w.store.threads, EventsOf(w);
    if ToldAbsent(threads, caller, s, a) {
      assert AnyToldAbsent(threads, w.callers, s, a);
    } else {
      CallerIsOk(w, c);
      HasTookEffect(threads, threads', w.services, caller);
      NoOtherCredential(w, c, s, a);
      hide WorldInv, CallerOk, TrimSpace, ThreadsKept, Contents, MapStep, AnyUnsettled, AnyToldAbsent;
      assert EventsMatch(threads, es) by { EventsOfInv(w); }
      hide EventsMatch;
      NewEffectIsLast(threads, threads', es, es', caller.ticket.value);
      OneMoreEvent(es', |es|);
      EffectOnMap(Contents(es), es'[|es|], a);
    }
  }

  lemma EventsOfInv(w: World)
    requires WorldInv(w)
    ensures EventsMatch(w.store.threads, EventsOf(w)) && Legal(EventsOf(w))
  {
    WorldIsLegal(w);
    hide ProtocolInvariant.Inv, EventsMatch, CallersInv, Legal;
  }

  lemma HasTookEffect(threads: map<nat, Thread>, threads': map<nat, Thread>, services: map<nat, Config>, c: Caller)
    requires CallerOk(threads, services, c) && ThreadsKept(threads, threads') && c.stage.AwaitHas?
    requires RepliedWith(threads', c, Present(false)) && !RepliedWith(threads, c, Present(false))
    ensures c.ticket.value in threads && threads[c.ticket.value].pc != threads'[c.ticket.value].pc
    ensures threads'[c.ticket.value].op == Op.Has(c.alias) && TrimSpace(c.alias) == c.alias
    ensures TookEffect(threads'[c.ticket.value].op, threads'[c.ticket.value].pc)
  {
    hide TrimSpace;
  }

  lemma NoOtherCredential(w: World, c: nat, s: nat, a: Bytes)
    requires WorldInv(w) && c in w.callers && HoldsCreate(w.callers[c].stage) && w.callers[c].service == s
    requires !w.callers[c].stage.AwaitPut?
    ensures !AnyUnsettled(w.store.threads, w.callers, s, a)
  {
    hide StoreInv, CallerOk, TrimSpace;
  }

  /** When a Put settles, its alias is stored. */
  lemma CallSettles(threads: map<nat, Thread>, threads': map<nat, Thread>, es: Events, es': Events,
                    services: map<nat, Config>, c: Caller, s: nat, a: Bytes)
    requires CallerOk(threads, services, c) && Unsettled(threads, c, s, a) && EventsMatch(threads, es)
    requires ThreadsKept(threads, threads') && EventsMatch(threads', es') && Legal(es')
    requires es' == es || (|es'| == |es| + 1 && es'[..|es|] == es)
    ensures Unsettled(threads', c, s, a) || a in Contents(es')
  {
    if !Unsettled(threads', c, s, a) {
      PutTookEffect(threads, threads', services, c, s, a);
      hide CallerOk, TrimSpace, ThreadsKept, EventsMatch, Contents, MapStep;
      NewEffectIsLast(threads, threads', es, es', c.ticket.value);
      OneMoreEvent(es', |es|);
      assert es'[..|es| + 1] == es';
      EffectOnMap(Contents(es), es'[|es|], a);
    }
  }

  lemma PutTookEffect(threads: map<nat, Thread>, threads': map<nat, Thread>, services: map<nat, Config>, c: Caller,
                      s: nat, a: Bytes)
    requires CallerOk(threads, services, c) && ThreadsKept(threads, threads')
    requires Unsettled(threads, c, s, a) && !Unsettled(threads', c, s, a)
    ensures c.ticket.Some? && c.ticket.value in threads && threads[c.ticket.value].pc != threads'[c.ticket.value].pc
    ensures threads'[c.ticket.value].op == Op.Put(c.rec) && TrimSpace(c.rec.alias) == a
    ensures TookEffect(threads'[c.ticket.value].op, threads'[c.ticket.value].pc)
    ensures threads'[c.ticket.value].pc == Finished(Success) || threads'[c.ticket.value].pc == Finished(Failure(Exists))
  {
    hide TrimSpace;
  }

  // ---------- A step of a caller ----------

  lemma OtherCallersAsBefore(threads: map<nat, Thread>, threads': map<nat, Thread>, c: Caller, s: nat, a: Bytes)
    requires c.ticket.Some? ==> c.ticket.value in threads && c.ticket.value in threads'
                                && threads[c.ticket.value] == threads'[c.ticket.value]
    ensures Unsettled(threads, c, s, a) == Unsettled(threads', c, s, a)
    ensures ToldAbsent(threads, c, s, a) == ToldAbsent(threads', c, s, a)
  {
  }

  predicate Registers(before: Stage, after: Stage) {
    before.Ready? && after.AwaitPut?
  }

  /** What a caller's own step means for the credentials of its service and alias. */
  ghost predicate MoveExplained(threads: map<nat, Thread>, threads': map<nat, Thread>, before: Caller, after: Caller,
                                s: nat, a: Bytes) {
    && (before.service == s && before.alias == a && Registers(before.stage, after.stage) ==>
          ToldAbsent(threads, before, s, a) && Unsettled(threads', after, s, a))
    && (Unsettled(threads', after, s, a) ==>
          before.service == s && before.alias == a && Registers(before.stage, after.stage))
    && (Unsettled(threads, before, s, a) ==> LosesCredential(before.stage, after.stage))
    && (ToldAbsent(threads', after, s, a) ==> ToldAbsent(threads, before, s, a))
  }

  lemma MoveIsExplained(threads: map<nat, Thread>, threads': map<nat, Thread>, c: Caller, rpID: Bytes, reply: Reply,
                        env: Env, s: nat, a: Bytes)
    requires Awaits(c.stage) ==> RepliedWith(threads, c, reply)
    requires NextMove(c, rpID, reply, env).begin.Some? ==> env.thread in threads' && threads'[env.thread].pc == Start
    ensures MoveExplained(threads, threads', c, NextMove(c, rpID, reply, env).caller, s, a)
  {
  }

  lemma BegunThread(w: World, c: nat, env: Env)
    requires CanAct(w, c, env)
    ensures var w', before := ActIn(w, c, env), w.callers[c];
      var m := NextMove(before, w.services[before.service].rpID, ReplyTo(w, before), env);
      && w'.callers == w.callers[c := m.caller] && w'.store.log == w.store.log
      && (Awaits(before.stage) ==> RepliedWith(w.store.threads, before, ReplyTo(w, before)))
      && (m.begin.Some? ==> env.thread in w'.store.threads && w'.store.threads[env.thread].pc == Start)
      && (forall t :: t in w.store.threads ==> t in w'.store.threads && w'.store.threads[t] == w.store.threads[t])
      && w'.created == w.created + (if Registers(before.stage, m.caller.stage) then [(before.service, before.alias)] else [])
      && w'.lost == w.lost + (if LosesCredential(before.stage, m.caller.stage) then [(before.service, before.alias)] else [])
  {
    hide NextMove, CreateFree;
  }

  /** The counting argument, for one caller's step seen on one service and alias. */
  lemma MoveKeepsExplained(threads: map<nat, Thread>, threads': map<nat, Thread>, cs: map<nat, Caller>, c: nat, after: Caller,
                           s: nat, a: Bytes, n: nat, l: nat, removed: nat, stored: bool)
    requires c in cs && after.service == cs[c].service && after.alias == cs[c].alias
    requires Explained(n, l, removed, stored, AnyUnsettled(threads, cs, s, a), AnyToldAbsent(threads, cs, s, a))
    requires MoveExplained(threads, threads', cs[c], after, s, a)
    requires forall d :: d in cs && d != c ==>
      && Unsettled(threads, cs[d], s, a) == Unsettled(threads', cs[d], s, a)
      && ToldAbsent(threads, cs[d], s, a) == ToldAbsent(threads', cs[d], s, a)
      && (cs[d].service == cs[c].service ==> !(HoldsCreate(cs[d].stage) && HoldsCreate(cs[c].stage)))
    ensures
      var mine := cs[c].service == s && cs[c].alias == a;
      var n' := n + if mine && Registers(cs[c].stage, after.stage) then 1 else 0;
      var l' := l + if mine && LosesCredential(cs[c].stage, after.stage) then 1 else 0;
      var cs' := cs[c := after];
      Explained(n', l', removed, stored, AnyUnsettled(threads', cs', s, a), AnyToldAbsent(threads', cs', s, a))
  {
    hide LosesCredential;
    var cs' := cs[c := after];
    if AnyUnsettled(threads, cs, s, a) {
      var d :| d in cs && Unsettled(threads, cs[d], s, a);
      assert d != c ==> Unsettled(threads', cs'[d], s, a);
    }
    if AnyToldAbsent(threads', cs', s, a) {
      var d :| d in cs' && ToldAbsent(threads', cs'[d], s, a);
      assert ToldAbsent(threads, cs[d], s, a);
    }
    assert c in cs' && cs'[c] == after;
  }

  lemma OthersDiffer(w: World, c: nat)
    requires WorldInv(w) && c in w.callers
    ensures forall d :: d in w.callers && d != c && w.callers[d].service == w.callers[c].service ==>
      !(HoldsCreate(w.callers[d].stage) && HoldsCreate(w.callers[c].stage))
  {
    hide StoreInv, CallerOk, TrimSpace;
  }

  lemma ActKeepsBound(w: World, c: nat, env: Env, s: nat, a: Bytes)
    requires WorldInv(w) && Bounded(w, s, a) && CanAct(w, c, env)
    ensures Bounded(ActIn(w, c, env), s, a)
  {
    var w', before := ActIn(w, c, env), w.callers[c];
    var rpID := w.services[before.service].rpID;
    var m := NextMove(before, rpID, ReplyTo(w, before), env);
    BegunThread(w, c, env);
    OthersDiffer(w, c);
    TicketsAreThreads(w);
    MoveKeepsService(w, c, env);
    CountForLast(w.created, (before.service, before.alias), s, a);
    CountForLast(w.lost, (before.service, before.alias), s, a);
    hide WorldInv, CanAct, ActIn, NextMove, ReplyTo, Contents, TrimSpace, HoldsCreate, LosesCredential, Registers;
    MoveIsExplained(w.store.threads, w'.store.threads, before, rpID, ReplyTo(w, before), env, s, a);
    forall d | d in w.callers && d != c
      ensures Unsettled(w.store.threads, w.callers[d], s, a) == Unsettled(w'.store.threads, w.callers[d], s, a)
      ensures ToldAbsent(w.store.threads, w.callers[d], s, a) == ToldAbsent(w'.store.threads, w.callers[d], s, a)
    {
      OtherCallersAsBefore(w.store.threads, w'.store.threads, w.callers[d], s, a);
    }
    hide MoveExplained, Unsettled, ToldAbsent, AnyUnsettled, AnyToldAbsent;
    MoveKeepsExplained(w.store.threads, w'.store.threads, w.callers, c, m.caller, s, a,
                       CountFor(w.created, s, a), CountFor(w.lost, s, a), Removals(EventsOf(w), a), a in Contents(EventsOf(w)));
  }

  // ---------- Every run ----------

  /** A new service moves nobody, and a new caller is only waiting. */
  lemma ArrivalKeepsBound(w: World, step: WorldStep, s: nat, a: Bytes)
    requires Bounded(w, s, a) && WorldEnabled(w, step) && (step.AddService? || step.Call?)
    ensures Bounded(WorldTake(w, step), s, a)
  {
    hide TrimSpace, Contents, Removals, CountFor;
    var w' := WorldTake(w, step);
    if AnyUnsettled(w.store.threads, w.callers, s, a) {
      var c :| c in w.callers && Unsettled(w.store.threads, w.callers[c], s, a);
      assert Unsettled(w'.store.threads, w'.callers[c], s, a);
    }
    if AnyToldAbsent(w'.store.threads, w'.callers, s, a) {
      var c :| c in w'.callers && ToldAbsent(w'.store.threads, w'.callers[c], s, a);
      assert ToldAbsent(w.store.threads, w.callers[c], s, a);
    }
  }

  lemma WorldStepKeepsBound(w: World, step: WorldStep, s: nat, a: Bytes)
    requires WorldInv(w) && Bounded(w, s, a) && WorldEnabled(w, step)
    ensures Bounded(WorldTake(w, step), s, a)
  {
    hide WorldInv, Bounded;
    match step
    case StoreStep(st) => StoreStepKeepsBound(w, st, s, a);
    case Act(c, env) => ActKeepsBound(w, c, env, s, a);
    case _ => ArrivalKeepsBound(w, step, s, a);
  }

  lemma EmptyIsBounded(s: nat, a: Bytes)
    ensures Bounded(EMPTY_WORLD, s, a)
  {
  }

  lemma {:induction false} AlwaysBounded(steps: seq<WorldStep>, s: nat, a: Bytes)
    requires WorldPossible(steps)
    ensures Bounded(WorldAfter(steps), s, a)
  {
    hide WorldEnabled, WorldTake, WorldInv, Bounded;
    if steps == [] {
      EmptyIsBounded(s, a);
    } else {
      AlwaysBounded(steps[..|steps| - 1], s, a);
      WorldInvAlways(steps[..|steps| - 1]);
      WorldStepKeepsBound(WorldAfter(steps[..|steps| - 1]), steps[|steps| - 1], s, a);
    }
  }

  /** In every run, however many callers, services, handles, failures and crashes it
      has: the credentials one service registered for one alias number at most one more
      than its failed Puts and the alias's deletions together. So without either,
      CreateCredential runs at most once per alias. */
  lemma CredentialsAreAccountedFor(steps: seq<WorldStep>, s: nat, a: Bytes)
    requires WorldPossible(steps)
    ensures var w := WorldAfter(steps);
      multiset(w.created)[(s, a)] <= multiset(w.lost)[(s, a)] + |Deletions(w.store.log.events, a)| + 1
  {
    AlwaysBounded(steps, s, a);
    CountForIs(WorldAfter(steps).created, s, a);
    CountForIs(WorldAfter(steps).lost, s, a);
    RemovalsIs(EventsOf(WorldAfter(steps)), a);
    hide WorldPossible, WorldAfter, AnyUnsettled, AnyToldAbsent, Contents;
  }
}
