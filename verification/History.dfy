/** How the history of data calls relates to the calls themselves: each call that
    took effect appears in it once, with the reply it got, and stays. */
module History {
  import opened AliasMap
  import opened Protocol
  import opened ProtocolInvariant
  import Refinement
  import opened Storage

  ghost predicate EventOk(threads: map<nat, Thread>, e: Event) {
    e.thread in threads && threads[e.thread].op == e.op && threads[e.thread].pc == Finished(e.reply)
    && TookEffect(e.op, Finished(e.reply))
  }

  ghost predicate Recorded(es: Events, t: nat) {
    exists k :: 0 <= k < |es| && es[k].thread == t
  }

  /** One event for each call that took effect, and no others. */
  ghost predicate EventsMatch(threads: map<nat, Thread>, es: Events) {
    && (forall k :: 0 <= k < |es| ==> EventOk(threads, es[k]))
    && (forall i, j :: 0 <= i < j < |es| ==> es[i].thread != es[j].thread)
    && (forall t :: t in threads && TookEffect(threads[t].op, threads[t].pc) ==> Recorded(es, t))
  }

  /** Calls are never forgotten, keep their arguments, and keep their reply. */
  ghost predicate ThreadsKept(threads: map<nat, Thread>, threads': map<nat, Thread>) {
    forall t :: t in threads ==>
      && t in threads' && threads'[t].op == threads[t].op && threads'[t].handle == threads[t].handle
      && (threads[t].pc.Finished? ==> threads'[t].pc == threads[t].pc)
  }

  lemma StepKeepsThreads(s: State, step: Step)
    requires Enabled(s, step)
    ensures ThreadsKept(s.threads, Take(s, step).threads)
  {
    hide ThreadStep, Logged, NeedsMutex, MutexFree, SealedUnder;
  }

  lemma EventsKept(threads: map<nat, Thread>, threads': map<nat, Thread>, es: Events)
    requires EventsMatch(threads, es) && ThreadsKept(threads, threads')
    requires forall t :: t in threads' && TookEffect(threads'[t].op, threads'[t].pc) ==>
      t in threads && threads[t].pc == threads'[t].pc
    ensures EventsMatch(threads', es)
  {
    hide TookEffect;
    forall k | 0 <= k < |es| ensures EventOk(threads', es[k]) {
      assert EventOk(threads, es[k]);
    }
  }

  lemma EventAdded(threads: map<nat, Thread>, threads': map<nat, Thread>, es: Events, t: nat, reply: Reply)
    requires EventsMatch(threads, es) && t in threads && !threads[t].pc.Finished?
    requires TookEffect(threads[t].op, Finished(reply))
    requires threads' == threads[t := threads[t].(pc := Finished(reply))]
    ensures EventsMatch(threads', es + [Event(t, threads[t].op, reply)])
  {
    hide TookEffect;
    var es' := es + [Event(t, threads[t].op, reply)];
    forall k | 0 <= k < |es'| ensures EventOk(threads', es'[k]) {
      if k < |es| {
        assert EventOk(threads, es[k]);
      }
    }
    forall u | u in threads' && TookEffect(threads'[u].op, threads'[u].pc) ensures Recorded(es', u) {
      if u == t {
        assert es'[|es|].thread == u;
      } else {
        var k :| 0 <= k < |es| && es[k].thread == u;
        assert es'[k].thread == u;
      }
    }
    forall i, j | 0 <= i < j < |es'| ensures es'[i].thread != es'[j].thread {
      assert EventOk(threads, es[i]);
    }
  }

  lemma RunKeepsEvents(s: State, t: nat, c: Choice)
    requires Inv(s) && EventsMatch(s.threads, s.log.events) && Enabled(s, Run(t, c))
    ensures EventsMatch(Take(s, Run(t, c)).threads, Take(s, Run(t, c)).log.events)
  {
    StepKeepsThreads(s, Run(t, c));
    var th, s' := s.threads[t], Take(s, Run(t, c));
    var pc' := s'.threads[t].pc;
    Refinement.LoggedExactly(s.log, s.backend, s.handles[th.handle], th, t, c) by { InvIsLocal(s, t); }
    hide ThreadStep, Logged, Inv, EventsMatch, MutexFree, NeedsMutex, TookEffect;
    if TookEffect(th.op, pc') {
      assert pc'.Finished? by { EffectIsFinal(th.op, pc'); }
      EventAdded(s.threads, s'.threads, s.log.events, t, pc'.reply);
    } else {
      EventsKept(s.threads, s'.threads, s.log.events);
    }
  }

  lemma EffectIsFinal(op: Op, pc: PC)
    ensures TookEffect(op, pc) ==> pc.Finished?
  {
  }

  lemma StepKeepsEvents(s: State, step: Step)
    requires Inv(s) && EventsMatch(s.threads, s.log.events) && Enabled(s, step)
    ensures EventsMatch(Take(s, step).threads, Take(s, step).log.events)
  {
    if step.Run? {
      RunKeepsEvents(s, step.thread, step.choice);
    } else {
      StepKeepsThreads(s, step);
      hide Inv, ThreadStep, Logged, EventsMatch, ThreadsKept;
      EventsKept(s.threads, Take(s, step).threads, s.log.events);
    }
  }

  /** In every possible run the history has exactly one entry for each data call that
      took effect. */
  lemma {:induction false} EventsAlwaysMatch(steps: seq<Step>)
    requires Possible(steps)
    ensures EventsMatch(After(steps).threads, After(steps).log.events)
  {
    hide Enabled, Take;
    if steps != [] {
      EventsAlwaysMatch(steps[..|steps| - 1]);
      InvAlways(steps[..|steps| - 1]);
      hide Inv, EventsMatch;
      StepKeepsEvents(After(steps[..|steps| - 1]), steps[|steps| - 1]);
    }
  }

  /** Which calls those are: the Put, Get, Delete, Has and List calls that have ended,
      except with Locked, or with a failure of the backend or the context. */
  lemma EveryAnswerIsRecorded(steps: seq<Step>, t: nat)
    requires Possible(steps) && t in After(steps).threads
    ensures var th, es := After(steps).threads[t], After(steps).log.events;
      && ((th.op.Put? || th.op.Get? || th.op.Delete? || th.op.Has? || th.op.List?)
            && th.pc.Finished? && th.pc.reply != Failure(Locked) && th.pc.reply != Failure(Unavailable)
          <==> exists k :: 0 <= k < |es| && es[k].thread == t)
      && (forall k :: 0 <= k < |es| && es[k].thread == t ==> es[k].op == th.op && Finished(es[k].reply) == th.pc)
      && (forall i, j :: 0 <= i < j < |es| ==> es[i].thread != es[j].thread)
  {
    EventsAlwaysMatch(steps);
    hide Possible, After;
    var th, es := After(steps).threads[t], After(steps).log.events;
    forall k | 0 <= k < |es| && es[k].thread == t ensures EventOk(After(steps).threads, es[k]) {
    }
  }
}
