/** pkg/secrets, call by call, over a record store: each call does what the callers of
    the step machine do when nothing runs beside them. */
module SecretsService {
  import opened ByteStrings
  import opened Text
  import opened Storage
  import Answers
  import opened AliasMap
  import opened Service
  import opened ServiceProtocol
  import opened Unicode

  /** A lib/store Store: the plain map, or an error with no effect. */
  class RecordStore {
    var records: Records

    constructor ()
      ensures records == map[]
    {
      records := map[];
    }

    method Call(op: Op, outage: Option<Error>) returns (reply: Reply)
      requires IsData(op)
      modifies this
      ensures outage.Some? ==> records == old(records) && reply == Failure(outage.value)
      ensures outage.None? ==> (records, reply) == MapStep(old(records), op)
    {
      if outage.Some? {
        return Failure(outage.value);
      }
      var (records', reply') := MapStep(records, op);
      records := records';
      return reply';
    }
  }

  /** What the world answers to one call: an outage per store call, the drawn salt, the
      device selection, the new credential id, and whether the derivation works. */
  datatype CallEnv = CallEnv(
    outage: Option<Error>, salt: Option<Bytes>, selection: Selection,
    credential: Option<Bytes>, putOutage: Option<Error>, derives: bool)

  /** The same answers as the machine takes them, stage by stage. */
  function EnvAt(stage: Stage, env: CallEnv): Env {
    var failure :=
      match stage
      case Ready =>
        if env.salt.None? then Some(SaltFailed)
        else if OpenSelected(env.selection).Some? then OpenSelected(env.selection)
        else if env.credential.None? then Some(FidoFailed)
        else None
      case Loaded =>
        if OpenSelected(env.selection).Some? then OpenSelected(env.selection)
        else if env.derives then None
        else Some(DeriveFailed)
      case Stored => if env.derives then None else Some(DeriveFailed)
      case _ => None;
    Env(0, if env.salt.Some? then env.salt.value else [], if env.credential.Some? then env.credential.value else [], failure)
  }

  function Answer(m: Records, op: Op, outage: Option<Error>): (Records, Reply)
    requires IsData(op)
  {
    if outage.Some? then (m, Failure(outage.value)) else MapStep(m, op)
  }

  function StageRank(stage: Stage): nat {
    match stage
    case Waiting => 5
    case AwaitHas => 4
    case Ready => 3
    case AwaitPut => 2
    case Stored => 1
    case AwaitGet => 2
    case Loaded => 1
    case Done(_) => 0
  }

  /** The machine's caller, driven to its end over the plain map. */
  function RunCaller(c: Caller, rpID: Bytes, m: Records, reply: Reply, env: CallEnv): (Records, Outcome)
    decreases StageRank(c.stage)
  {
    if c.stage.Done? then (m, c.stage.outcome)
    else
      var mv := NextMove(c, rpID, reply, EnvAt(c.stage, env));
      if mv.begin.None? then RunCaller(mv.caller, rpID, m, reply, env)
      else
        var (m', reply') := Answer(m, mv.begin.value, if c.stage.Ready? then env.putOutage else env.outage);
        RunCaller(mv.caller, rpID, m', reply', env)
  }

  lemma Advance(c: Caller, rpID: Bytes, m: Records, reply: Reply, env: CallEnv)
    requires !c.stage.Done?
    ensures var mv := NextMove(c, rpID, reply, EnvAt(c.stage, env));
      var (m', reply') :=
        if mv.begin.None? then (m, reply)
        else Answer(m, mv.begin.value, if c.stage.Ready? then env.putOutage else env.outage);
      RunCaller(c, rpID, m, reply, env) ==
        if mv.caller.stage.Done? then (m', mv.caller.stage.outcome) else RunCaller(mv.caller, rpID, m', reply', env)
  {
    hide MapStep, OpenSelected;
  }

  function NewCaller(kind: Kind, rawAlias: Bytes): Caller {
    Caller(0, kind, TrimSpace(rawAlias), None, NO_RECORD, Waiting)
  }

  /** The records a store takes under a service's RP id. */
  predicate Acceptable(credentialID: Bytes, salt: Bytes, rpID: Bytes) {
    0 < |credentialID| <= 0x10_0000 && |salt| == 32 && |rpID| <= 0x10_0000
  }

  lemma PutOutcome(m: Records, rec: Record)
    requires rec.alias !in m && Normalize(rec) == rec && rec.alias != [] && rec.rpID != []
    ensures MapStep(m, Op.Put(rec)) ==
      if Acceptable(rec.credentialID, rec.salt, rec.rpID) then (m[rec.alias := rec], Success) else (m, Failure(InvalidRecord))
  {
    hide TrimSpace;
  }

  /** How Create ends, once Has has found nothing. */
  function AfterHas(rpID: Bytes, env: CallEnv): Outcome {
    if env.salt.None? then Refused(SaltFailed)
    else if OpenSelected(env.selection).Some? then Refused(OpenSelected(env.selection).value)
    else if env.credential.None? then Refused(FidoFailed)
    else if env.putOutage == Some(Exists) then Refused(AliasExists)
    else if env.putOutage.Some? then Refused(StoreFailed(env.putOutage.value))
    else if !Acceptable(env.credential.value, env.salt.value, rpID) then Refused(StoreFailed(InvalidRecord))
    else if !env.derives then Refused(DeriveFailed)
    else Derived(DeriveInputs(rpID := rpID, credentialID := env.credential.value, salt := env.salt.value))
  }

  lemma CreateInputs(rpID: Bytes, env: CallEnv)
    ensures var o := AfterHas(rpID, env); o.Derived? ==>
      && env.credential.Some? && env.salt.Some? && o.inputs.rpID == rpID
      && o.inputs.credentialID == env.credential.value && o.inputs.salt == env.salt.value
  {
  }

  lemma FromReady(c: Caller, rpID: Bytes, m: Records, env: CallEnv)
    requires rpID != [] && TrimSpace(rpID) == rpID
    requires c.stage.Ready? && c.alias != [] && c.alias !in m && TrimSpace(c.alias) == c.alias
    ensures RunCaller(c, rpID, m, Present(false), env).1 == AfterHas(rpID, env)
    ensures var o := AfterHas(rpID, env);
      RunCaller(c, rpID, m, Present(false), env).0 ==
        if o.Derived? || o == Refused(DeriveFailed)
        then m[c.alias := Record(c.alias, env.credential.value, env.salt.value, rpID)]
        else m
  {
    hide RunCaller, TrimSpace, MapStep, ValidateRecord;
    Advance(c, rpID, m, Present(false), env);
    SelectionAnswer(env.selection);
    hide OpenSelected;
    if EnvAt(Ready, env).failure.None? {
      var rec := Record(c.alias, env.credential.value, env.salt.value, rpID);
      var (m1, put) := Answer(m, Op.Put(rec), env.putOutage);
      PutOutcome(m, rec);
      Advance(c.(ticket := Some(0), rec := rec, stage := AwaitPut), rpID, m1, put, env);
      Advance(c.(ticket := Some(0), rec := rec, stage := Stored), rpID, m1, put, env);
    }
  }

  /** How every Create ends, on its inputs: a failing one leaves the store as it was,
      unless only the last step failed; then, as on success, exactly one record was
      added, for a new alias, with the new credential id, the drawn salt and the
      service's RP id. */
  lemma CreateOutcome(rawAlias: Bytes, rpID: Bytes, m: Records, env: CallEnv, m': Records, outcome: Outcome)
    requires rpID != [] && TrimSpace(rpID) == rpID
    requires (m', outcome) == RunCaller(NewCaller(CreateCall, rawAlias), rpID, m, Success, env)
    ensures outcome ==
      if Blank(rawAlias) then Refused(AliasInvalid)
      else if env.outage.Some? then Refused(StoreFailed(env.outage.value))
      else if TrimSpace(rawAlias) in m then Refused(AliasExists)
      else AfterHas(rpID, env)
    ensures m' ==
      if outcome.Derived? || outcome == Refused(DeriveFailed)
      then m[TrimSpace(rawAlias) := Record(TrimSpace(rawAlias), env.credential.value, env.salt.value, rpID)]
      else m
    ensures outcome.Derived? <==>
      && !Blank(rawAlias) && TrimSpace(rawAlias) !in m && env.outage.None? && env.putOutage.None?
      && env.salt.Some? && |env.salt.value| == 32 && OpenSelected(env.selection).None?
      && env.credential.Some? && 0 < |env.credential.value| <= 0x10_0000 && |rpID| <= 0x10_0000 && env.derives
    ensures outcome.Derived? ==>
      && outcome.inputs.rpID == rpID && outcome.inputs.credentialID == env.credential.value
      && outcome.inputs.salt == env.salt.value
  {
    TrimSpaceIdempotent(rawAlias);
    BlankTrims(rawAlias);
    SelectionAnswer(env.selection);
    hide RunCaller, TrimSpace, MapStep, ValidateRecord, OpenSelected, InputsOf, Blank;
    var c := NewCaller(CreateCall, rawAlias);
    Advance(c, rpID, m, Success, env);
    if c.alias != [] {
      Answers.HasAnswer(m, c.alias);
      BlankTrims(c.alias);
      c := c.(ticket := Some(0), stage := AwaitHas);
      var has := Answer(m, Op.Has(c.alias), env.outage).1;
      Advance(c, rpID, m, has, env);
      if has == Present(false) {
        FromReady(c.(stage := Ready), rpID, m, env);
      }
    }
  }

  /** How Derive ends, once Get has found the record. */
  function AfterGet(rec: Record, env: CallEnv): Outcome {
    if OpenSelected(env.selection).Some? then Refused(OpenSelected(env.selection).value)
    else if !env.derives then Refused(DeriveFailed)
    else Derived(DeriveInputs(rpID := rec.rpID, credentialID := rec.credentialID, salt := rec.salt))
  }

  /** How every Derive ends, on its inputs; the store stays as it is. */
  lemma DeriveOutcome(rawAlias: Bytes, rpID: Bytes, m: Records, env: CallEnv, m': Records, outcome: Outcome)
    requires (m', outcome) == RunCaller(NewCaller(DeriveCall, rawAlias), rpID, m, Success, env)
    ensures m' == m
    ensures outcome ==
      if Blank(rawAlias) then Refused(AliasInvalid)
      else if env.outage == Some(NotFound) then Refused(AliasNotFound)
      else if env.outage.Some? then Refused(StoreFailed(env.outage.value))
      else if TrimSpace(rawAlias) !in m then Refused(AliasNotFound)
      else AfterGet(m[TrimSpace(rawAlias)], env)
    ensures outcome.Derived? <==>
      && !Blank(rawAlias) && TrimSpace(rawAlias) in m && env.outage.None?
      && OpenSelected(env.selection).None? && env.derives
    ensures outcome.Derived? ==> var rec := m[TrimSpace(rawAlias)];
      && outcome.inputs.rpID == rec.rpID && outcome.inputs.credentialID == rec.credentialID
      && outcome.inputs.salt == rec.salt
  {
    TrimSpaceIdempotent(rawAlias);
    BlankTrims(rawAlias);
    hide RunCaller, TrimSpace, MapStep, OpenSelected, Blank;
    var c := NewCaller(DeriveCall, rawAlias);
    Advance(c, rpID, m, Success, env);
    if c.alias != [] {
      Answers.GetAnswer(m, c.alias);
      BlankTrims(c.alias);
      c := c.(ticket := Some(0), stage := AwaitGet);
      var got := Answer(m, Op.Get(c.alias), env.outage).1;
      Advance(c, rpID, m, got, env);
      if got.Found? {
        Advance(c.(rec := got.rec, stage := Loaded), rpID, m, got, env);
      }
    }
  }

  class Secrets {
    const store: RecordStore
    const rpID: Bytes

    ghost predicate Valid() {
      rpID != [] && TrimSpace(rpID) == rpID
    }

    constructor (store: RecordStore, rawRPID: Bytes)
      ensures Valid() && this.store == store
      ensures rpID == if Blank(rawRPID) then Ascii("hmac-secret.example") else TrimSpace(rawRPID)
    {
      ServiceRPIDNormalized(rawRPID);
      this.store := store;
      this.rpID := ServiceRPID(rawRPID);
    }

    /** The rest of Create once the alias is known to be free: salt, device, credential,
        record, derivation. */
    method Register(alias: Bytes, env: CallEnv) returns (outcome: Outcome)
      requires Valid() && alias != [] && TrimSpace(alias) == alias && alias !in store.records
      modifies store
      ensures outcome == AfterHas(rpID, env)
      ensures store.records ==
        if outcome.Derived? || outcome == Refused(DeriveFailed)
        then old(store.records)[alias := Record(alias, env.credential.value, env.salt.value, rpID)]
        else old(store.records)
    {
      hide TrimSpace, MapStep;
      SelectionAnswer(env.selection);
      hide OpenSelected;
      if env.salt.None? {
        return Refused(SaltFailed);
      }
      var failed := OpenSelected(env.selection);
      if failed.Some? {
        return Refused(failed.value);
      }
      if env.credential.None? {
        return Refused(FidoFailed);
      }
      var rec := Record(alias, env.credential.value, env.salt.value, rpID);
      PutOutcome(store.records, rec);
      var put := store.Call(Op.Put(rec), env.putOutage);
      if put == Failure(Exists) {
        return Refused(AliasExists);
      }
      if put.Failure? {
        return Refused(StoreFailed(put.error));
      }
      if !env.derives {
        return Refused(DeriveFailed);
      }
      return Derived(InputsOf(rec));
    }

    method Create(rawAlias: Bytes, env: CallEnv) returns (outcome: Outcome)
      requires Valid()
      modifies store
      ensures (store.records, outcome) == RunCaller(NewCaller(CreateCall, rawAlias), rpID, old(store.records), Success, env)
      ensures outcome ==
        if Blank(rawAlias) then Refused(AliasInvalid)
        else if env.outage.Some? then Refused(StoreFailed(env.outage.value))
        else if TrimSpace(rawAlias) in old(store.records) then Refused(AliasExists)
        else AfterHas(rpID, env)
      ensures outcome.Derived? ==>
        && env.credential.Some? && env.salt.Some? && outcome.inputs.rpID == rpID
        && outcome.inputs.credentialID == env.credential.value && outcome.inputs.salt == env.salt.value
      ensures store.records ==
        if outcome.Derived? || outcome == Refused(DeriveFailed)
        then old(store.records)[TrimSpace(rawAlias) :=
               Record(TrimSpace(rawAlias), env.credential.value, env.salt.value, rpID)]
        else old(store.records)
    {
      hide RunCaller, Blank;
      ghost var end := RunCaller(NewCaller(CreateCall, rawAlias), rpID, store.records, Success, env);
      CreateOutcome(rawAlias, rpID, store.records, env, end.0, end.1);
      CreateInputs(rpID, env);
      TrimSpaceIdempotent(rawAlias);
      BlankTrims(rawAlias);
      hide TrimSpace, AfterHas, MapStep;
      var alias := TrimSpace(rawAlias);
      if ValidateAlias(alias).Err? {
        return Refused(AliasInvalid);
      }
      Answers.HasAnswer(store.records, alias);
      BlankTrims(alias);
      var present := store.Call(Op.Has(alias), env.outage);
      if present.Failure? {
        return Refused(StoreFailed(present.error));
      }
      if present == Present(true) {
        return Refused(AliasExists);
      }
      outcome := Register(alias, env);
    }

    /** Derives from the stored record and changes nothing. */
    method Derive(rawAlias: Bytes, env: CallEnv) returns (outcome: Outcome)
      modifies store
      ensures (store.records, outcome) == RunCaller(NewCaller(DeriveCall, rawAlias), rpID, old(store.records), Success, env)
      ensures store.records == old(store.records)
      ensures outcome ==
        if Blank(rawAlias) then Refused(AliasInvalid)
        else if env.outage == Some(NotFound) then Refused(AliasNotFound)
        else if env.outage.Some? then Refused(StoreFailed(env.outage.value))
        else if TrimSpace(rawAlias) !in store.records then Refused(AliasNotFound)
        else AfterGet(store.records[TrimSpace(rawAlias)], env)
      ensures outcome.Derived? <==>
        && !Blank(rawAlias) && TrimSpace(rawAlias) in store.records && env.outage.None?
        && OpenSelected(env.selection).None? && env.derives
      ensures outcome.Derived? ==>
        && TrimSpace(rawAlias) in store.records
        && var rec := store.records[TrimSpace(rawAlias)];
          && outcome.inputs.rpID == rec.rpID && outcome.inputs.credentialID == rec.credentialID
          && outcome.inputs.salt == rec.salt
    {
      hide RunCaller, Blank;
      ghost var end := RunCaller(NewCaller(DeriveCall, rawAlias), rpID, store.records, Success, env);
      DeriveOutcome(rawAlias, rpID, store.records, env, end.0, end.1);
      hide TrimSpace;
      TrimSpaceIdempotent(rawAlias);
      var alias := TrimSpace(rawAlias);
      ghost var c := NewCaller(DeriveCall, rawAlias);
      Advance(c, rpID, store.records, Success, env);
      if ValidateAlias(alias).Err? {
        return Refused(AliasInvalid);
      }
      var got := store.Call(Op.Get(alias), env.outage);
      c := c.(ticket := Some(0), stage := AwaitGet);
      Advance(c, rpID, store.records, got, env);
      if got == Failure(NotFound) {
        return Refused(AliasNotFound);
      }
      if got.Failure? {
        return Refused(StoreFailed(got.error));
      }
      c := c.(rec := got.rec, stage := Loaded);
      Advance(c, rpID, store.records, got, env);
      var failed := OpenSelected(env.selection);
      if failed.Some? {
        return Refused(failed.value);
      }
      if !env.derives {
        return Refused(DeriveFailed);
      }
      return Derived(InputsOf(got.rec));
    }

    /** Removes the metadata; the credential on the authenticator stays. */
    method Delete(rawAlias: Bytes, outage: Option<Error>) returns (failed: Option<SecretsError>)
      modifies store
      ensures failed.None? <==> TrimSpace(rawAlias) != [] && outage.None? && TrimSpace(rawAlias) in old(store.records)
      ensures store.records == if failed.None? then old(store.records) - {TrimSpace(rawAlias)} else old(store.records)
      ensures TrimSpace(rawAlias) == [] <==> failed == Some(AliasInvalid)
      ensures TrimSpace(rawAlias) != [] && outage.None? && TrimSpace(rawAlias) !in old(store.records) ==>
        failed == Some(AliasNotFound)
    {
      TrimSpaceIdempotent(rawAlias);
      var alias := TrimSpace(rawAlias);
      if ValidateAlias(alias).Err? {
        return Some(AliasInvalid);
      }
      hide TrimSpace;
      var deleted := store.Call(Op.Delete(alias), outage);
      if deleted == Failure(NotFound) {
        return Some(AliasNotFound);
      }
      if deleted.Failure? {
        return Some(StoreFailed(deleted.error));
      }
      return None;
    }
  }
}
