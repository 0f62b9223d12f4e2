/** pkg/store/encrypted as a step machine: any number of handles on one backend, any
    number of calls in flight on each handle, every backend call and every locked
    section one atomic step. */
module Protocol {
  import opened ByteStrings
  import opened Text
  import opened Aead
  import opened Storage
  import Codec
  import opened KeyHierarchy
  import opened BackendContract
  import opened AliasMap

  // ---------- One call ----------

  /** s.header and s.dek of one Store; a nil dek is Locked. */
  datatype HandleKey = NoKey | Held(header: Header, dek: Key)

  /** Where a call stands, with the locals it carries. */
  datatype PC =
    | Start
    | InitList(ref: KEKReference, kek: Key)
    | InitCreate(ref: KEKReference, kek: Key)
    | Publish(header: Header, dek: Key)
    | RotateLoad(next: KEKReference, kek: Key)
    | RotateSwap(expected: uint64, rotated: Header, kek: Key)
    | RotatePublish(rotated: Header)
    | PutSend(rec: Record, blob: Blob)
    | GetSend(alias: Bytes, storeID: Bytes, dek: Key)
    | DeleteSend(alias: Bytes)
    | Finished(reply: Reply)

  /** The random values a step may draw. */
  datatype Choice = Choice(storeID: Bytes, dek: Key, nonce: Bytes)

  predicate ValidChoice(c: Choice) {
    |c.storeID| == Codec.STORE_ID_SIZE && |c.dek| == KEY_SIZE && |c.nonce| == NONCE_SIZE
  }

  datatype Next = Next(key: HandleKey, backend: Backend, pc: PC)

  /** The checks a call makes on its arguments before it looks at any state. */
  function Validate(op: Op): Result<()> {
    match op
    case Initialize(ref, kek) => var _ :- ValidateKEKReference(NormalizeReference(ref)); ValidateKey(kek)
    case Unlock(kek) => ValidateKey(kek)
    case RotateKEK(next, kek) => var _ :- ValidateKEKReference(NormalizeReference(next)); ValidateKey(kek)
    case Put(rec) => ValidateRecord(Normalize(rec))
    case Get(alias) => ValidateAlias(TrimSpace(alias))
    case Delete(alias) => ValidateAlias(TrimSpace(alias))
    case Has(alias) => ValidateAlias(TrimSpace(alias))
    case Lock => Ok(())
    case ReadHeader => Ok(())
    case List => Ok(())
  }

  function Reject(e: Error): PC {
    Finished(Failure(e))
  }

  function StartStep(key: HandleKey, b: Backend, op: Op, c: Choice): Next {
    if Validate(op).Err? then Next(key, b, Reject(Validate(op).error)) else
    match op
    case Initialize(ref, kek) =>
      Next(key, b, if LoadHeader(b).Ok? then Reject(Exists) else InitList(NormalizeReference(ref), kek))
    case Unlock(kek) => Next(key, b, UnlockLoad(b, kek))
    case Lock => Next(NoKey, b, Finished(Success))
    case RotateKEK(next, kek) =>
      Next(key, b, if key.NoKey? then Reject(Locked) else RotateLoad(NormalizeReference(next), kek))
    case ReadHeader => Next(key, b, HeaderReply(b))
    case Put(raw) => Next(key, b, PutSnapshot(key, Normalize(raw), c))
    case Get(raw) => Next(key, b, if key.NoKey? then Reject(Locked) else GetSend(TrimSpace(raw), key.header.storeID, key.dek))
    case Delete(raw) => Next(key, b, if key.NoKey? then Reject(Locked) else DeleteSend(TrimSpace(raw)))
    case Has(raw) =>
      (match HasEnvelope(b, TrimSpace(raw))
       case Ok(present) => Next(key, b, Finished(Present(present)))
       case Err(e) => Next(key, b, Reject(e)))
    case List => Next(key, b, Finished(Aliases(ListEnvelopes(b))))
  }

  function UnlockLoad(b: Backend, kek: Key): PC {
    match LoadHeader(b)
    case Err(e) => Reject(e)
    case Ok(h) =>
      match UnwrapHeader(h, kek)
      case Err(e) => Reject(e)
      case Ok(dek) => Publish(h, dek)
  }

  function HeaderReply(b: Backend): PC {
    match LoadHeader(b)
    case Err(e) => Reject(e)
    case Ok(h) => if ValidateHeader(h).Err? then Reject(ValidateHeader(h).error) else Finished(HeaderIs(h))
  }

  function PutSnapshot(key: HandleKey, rec: Record, c: Choice): PC {
    if key.NoKey? then Reject(Locked) else
    match SealRecord(key.header.storeID, key.dek, rec, c.nonce)
    case Err(e) => Reject(e)
    case Ok(blob) => PutSend(rec, blob)
  }

  function InitListStep(b: Backend, ref: KEKReference, kek: Key): PC {
    if ListEnvelopes(b) != [] then Reject(Conflict) else InitCreate(ref, kek)
  }

  /** Draw a store id and a DEK, wrap, create the header: the drawing is local, so it
      happens in the step of the backend call. */
  function InitCreateStep(b: Backend, ref: KEKReference, kek: Key, c: Choice): (Backend, PC) {
    var h := Header(Codec.FORMAT_VERSION, 1, c.storeID, ref, NO_BLOB);
    match WrapInto(h, kek, c.dek, c.nonce)
    case Err(e) => (b, Reject(e))
    case Ok(header) =>
      var (b', r) := CreateHeader(b, header);
      (b', if r.Ok? then Publish(header, c.dek) else Reject(r.error))
  }

  /** uint64 addition of one, wrapping. */
  function Increment(r: uint64): uint64 {
    if r == 0xFFFF_FFFF_FFFF_FFFF then 0 else r + 1
  }

  function RotateLoadStep(key: HandleKey, b: Backend, next: KEKReference, kek: Key, c: Choice): PC {
    if key.NoKey? then Reject(Locked) else
    match LoadHeader(b)
    case Err(e) => Reject(e)
    case Ok(current) =>
      if ValidateHeader(current).Err? then Reject(ValidateHeader(current).error)
      else if current.revision != key.header.revision then Reject(Conflict)
      else
        match WrapInto(current.(revision := Increment(current.revision), kek := next), kek, key.dek, c.nonce)
        case Err(e) => Reject(e)
        case Ok(rotated) => RotateSwap(current.revision, rotated, kek)
  }

  function RotateSwapStep(b: Backend, expected: uint64, rotated: Header): (Backend, PC) {
    var (b', r) := CompareAndSwapHeader(b, expected, rotated);
    (b', if r.Ok? then RotatePublish(rotated) else Reject(r.error))
  }

  function PutSendStep(b: Backend, rec: Record, blob: Blob): (Backend, PC) {
    var (b', r) := PutEnvelope(b, rec.alias, blob);
    (b', Finished(if r.Ok? then Success else Failure(r.error)))
  }

  function GetSendStep(b: Backend, alias: Bytes, storeID: Bytes, dek: Key): PC {
    match GetEnvelope(b, alias)
    case Err(e) => Reject(e)
    case Ok(blob) =>
      match OpenRecord(storeID, dek, alias, blob)
      case Err(e) => Reject(e)
      case Ok(rec) => Finished(Found(rec))
  }

  function DeleteSendStep(b: Backend, alias: Bytes): (Backend, PC) {
    var (b', r) := DeleteEnvelope(b, alias);
    (b', Finished(if r.Ok? then Success else Failure(r.error)))
  }

  function ThreadStep(key: HandleKey, b: Backend, op: Op, pc: PC, c: Choice): Next {
    match pc
    case Start => StartStep(key, b, op, c)
    case InitList(ref, kek) => Next(key, b, InitListStep(b, ref, kek))
    case InitCreate(ref, kek) => var (b', pc') := InitCreateStep(b, ref, kek, c); Next(key, b', pc')
    case Publish(header, dek) => Next(Held(header, dek), b, Finished(Success))
    case RotateLoad(next, kek) => Next(key, b, RotateLoadStep(key, b, next, kek, c))
    case RotateSwap(expected, rotated, _) => var (b', pc') := RotateSwapStep(b, expected, rotated); Next(key, b', pc')
    case RotatePublish(rotated) =>
      Next(if key.NoKey? then key else Held(rotated, key.dek), b, Finished(Success))
    case PutSend(rec, blob) => var (b', pc') := PutSendStep(b, rec, blob); Next(key, b', pc')
    case GetSend(alias, storeID, dek) => Next(key, b, GetSendStep(b, alias, storeID, dek))
    case DeleteSend(alias) => var (b', pc') := DeleteSendStep(b, alias); Next(key, b', pc')
    case Finished(_) => Next(key, b, pc)
  }

  /** Steps still to come, at most. */
  function Rank(pc: PC): nat {
    match pc
    case Start => 9
    case InitList(_, _) => 8
    case InitCreate(_, _) => 7
    case RotateLoad(_, _) => 6
    case RotateSwap(_, _, _) => 5
    case RotatePublish(_) => 4
    case Publish(_, _) => 3
    case PutSend(_, _) => 2
    case GetSend(_, _, _) => 2
    case DeleteSend(_) => 2
    case Finished(_) => 0
  }

  lemma StartDescends(key: HandleKey, b: Backend, op: Op, c: Choice)
    ensures Rank(StartStep(key, b, op, c).pc) < Rank(Start)
  {
    hide Validate, UnwrapHeader, SealRecord, ValidateHeader, HasEnvelope, NormalizeReference, Normalize;
  }

  lemma StepsDescend(key: HandleKey, b: Backend, op: Op, pc: PC, c: Choice)
    ensures !pc.Finished? ==> Rank(ThreadStep(key, b, op, pc, c).pc) < Rank(pc)
  {
    hide StartStep, WrapInto, OpenRecord, ValidateHeader, GetEnvelope, PutEnvelope, DeleteEnvelope, ListEnvelopes, CreateHeader;
    hide CompareAndSwapHeader, LoadHeader;
    StartDescends(key, b, op, c);
  }

  /** A call with nothing running beside it. */
  function RunAlone(key: HandleKey, b: Backend, op: Op, pc: PC, c: Choice): (HandleKey, Backend, Reply)
    decreases Rank(pc)
  {
    if pc.Finished? then (key, b, pc.reply)
    else
      StepsDescend(key, b, op, pc, c);
      var n := ThreadStep(key, b, op, pc, c);
      RunAlone(n.key, n.backend, op, n.pc, c)
  }

  lemma Unroll(key: HandleKey, b: Backend, op: Op, pc: PC, c: Choice)
    requires !pc.Finished?
    ensures var n := ThreadStep(key, b, op, pc, c); RunAlone(key, b, op, pc, c) == RunAlone(n.key, n.backend, op, n.pc, c)
  {
    hide ThreadStep;
  }

  lemma UnrollFinished(key: HandleKey, b: Backend, op: Op, reply: Reply, c: Choice)
    ensures RunAlone(key, b, op, Finished(reply), c) == (key, b, reply)
  {
  }

  lemma FirstStep(key: HandleKey, b: Backend, op: Op, c: Choice)
    ensures var n := StartStep(key, b, op, c); RunAlone(key, b, op, Start, c) == RunAlone(n.key, n.backend, op, n.pc, c)
    ensures var n := StartStep(key, b, op, c); n.pc.Finished? ==> RunAlone(key, b, op, Start, c) == (n.key, n.backend, n.pc.reply)
  {
    Unroll(key, b, op, Start, c);
    var n := StartStep(key, b, op, c);
    if n.pc.Finished? {
      UnrollFinished(n.key, n.backend, op, n.pc.reply, c);
    }
  }

  // ---------- The machine ----------

  datatype Thread = Thread(handle: nat, op: Op, pc: PC)

  /** One header that reached the backend: who installed it, under which KEK. */
  datatype Install = Install(installer: nat, kek: Key, header: Header)

  /** One record that a Put has sealed and is about to hand to the backend, which may
      keep it whatever becomes of the call. */
  datatype Sending = Sending(putter: nat, rec: Record, blob: Blob)

  /** What has happened so far; no step depends on it except a tampering backend. */
  datatype Log = Log(
    dek: Key,
    storeID: Bytes,
    installs: seq<Install>,
    events: Events,
    sent: seq<Sending>,
    tampered: bool)

  datatype State = State(
    backend: Backend,
    handles: map<nat, HandleKey>,
    threads: map<nat, Thread>,
    log: Log)

  const INITIAL: State := State(EMPTY, map[], map[], Log([], [], [], [], [], false))

  /** RotateKEK holds s.mu from its check of s.dek until it returns. */
  predicate HoldsMutex(pc: PC) {
    pc.RotateLoad? || pc.RotateSwap? || pc.RotatePublish?
  }

  /** The step takes s.mu: to publish, to lock, to snapshot, or to begin rotating. */
  predicate NeedsMutex(op: Op, pc: PC) {
    || pc.Publish?
    || (pc.Start? && Validate(op).Ok? && (op.Lock? || op.RotateKEK? || op.Put? || op.Get? || op.Delete?))
  }

  predicate MutexFree(threads: map<nat, Thread>, t: nat)
    requires t in threads
  {
    forall u :: u in threads && u != t && threads[u].handle == threads[t].handle ==> !HoldsMutex(threads[u].pc)
  }

  /** A step in which the environment - a context, a backend call, the random source
      - may make the call give up. */
  predicate MayFail(th: Thread) {
    !th.pc.Finished? && !th.pc.Publish? && !th.pc.RotatePublish? && !(th.pc.Start? && th.op.Lock?)
  }

  datatype Step =
    | OpenHandle(handle: nat)
    | Begin(thread: nat, handle: nat, op: Op)
    | Run(thread: nat, choice: Choice)
    | Fail(thread: nat)
    | Crash(handle: nat)
    | Tamper(envelopes: map<Bytes, Blob>)

  predicate SealedUnder(c: Ciphertext, key: Key) {
    c.Sealed? && c.key == key
  }

  /** c passes for a wrapped key: its associated data starts as every header's does. */
  predicate WrapsKey(c: Ciphertext) {
    c.Sealed? && IsPrefix(Codec.LengthPrefixed(Codec.HEADER_AAD_PREFIX), c.aad)
  }

  predicate WasSent(log: Log, c: Ciphertext) {
    exists k :: 0 <= k < |log.sent| && log.sent[k].blob.ciphertext == c
  }

  predicate Enabled(s: State, step: Step) {
    match step
    case OpenHandle(h) => h !in s.handles
    case Begin(t, h, op) => t !in s.threads && h in s.handles
    case Run(t, c) =>
      && t in s.threads && s.threads[t].handle in s.handles && !s.threads[t].pc.Finished? && ValidChoice(c)
      && (NeedsMutex(s.threads[t].op, s.threads[t].pc) ==> MutexFree(s.threads, t))
      // a fresh DEK has sealed nothing yet
      && (s.threads[t].pc.InitCreate? ==>
            forall a :: a in s.backend.envelopes ==> !SealedUnder(s.backend.envelopes[a].ciphertext, c.dek))
    case Fail(t) => t in s.threads && MayFail(s.threads[t])
    case Crash(h) => h in s.handles
    // a backend without the DEK can use every ciphertext it was ever handed, in any
    // call whatever came of it, and make up others
    case Tamper(envelopes) =>
      forall a :: a in envelopes ==>
        || WasSent(s.log, envelopes[a].ciphertext) || WrapsKey(envelopes[a].ciphertext)
        || s.log.installs == [] || !SealedUnder(envelopes[a].ciphertext, s.log.dek)
  }

  /** Data calls that took effect; a locked store or a failing call did nothing. */
  predicate TookEffect(op: Op, pc: PC) {
    IsData(op) && pc.Finished? && pc.reply != Failure(Locked) && pc.reply != Failure(Unavailable)
  }

  function Logged(log: Log, t: nat, op: Op, pc: PC, c: Choice, pc': PC): Log {
    if pc.InitCreate? && pc'.Publish? then
      log.(dek := c.dek, storeID := c.storeID, installs := log.installs + [Install(t, pc.kek, pc'.header)])
    else if pc.RotateSwap? && pc'.RotatePublish? then
      log.(installs := log.installs + [Install(t, pc.kek, pc.rotated)])
    else if pc.Start? && pc'.PutSend? then
      log.(sent := log.sent + [Sending(t, pc'.rec, pc'.blob)])
    else if TookEffect(op, pc') then
      log.(events := log.events + [Event(t, op, pc'.reply)])
    else log
  }

  lemma LoggedEvents(log: Log, t: nat, op: Op, pc: PC, c: Choice, pc': PC)
    ensures var es' := Logged(log, t, op, pc, c, pc').events;
      es' == log.events || (pc'.Finished? && es' == log.events + [Event(t, op, pc'.reply)])
  {
  }

  function Take(s: State, step: Step): State
    requires Enabled(s, step)
  {
    match step
    case OpenHandle(h) => s.(handles := s.handles[h := NoKey])
    case Begin(t, h, op) => s.(threads := s.threads[t := Thread(h, op, Start)])
    case Run(t, c) =>
      var th := s.threads[t];
      var n := ThreadStep(s.handles[th.handle], s.backend, th.op, th.pc, c);
      State(n.backend,
            s.handles[th.handle := n.key],
            s.threads[t := th.(pc := n.pc)],
            Logged(s.log, t, th.op, th.pc, c, n.pc))
    case Fail(t) => s.(threads := s.threads[t := s.threads[t].(pc := Reject(Unavailable))])
    case Crash(h) =>
      s.(handles := s.handles[h := NoKey],
         threads := map t | t in s.threads ::
           if s.threads[t].handle == h && !s.threads[t].pc.Finished?
           then s.threads[t].(pc := Reject(Unavailable)) else s.threads[t])
    case Tamper(envelopes) =>
      s.(backend := s.backend.(envelopes := envelopes), log := s.log.(tampered := true))
  }

  // ---------- Runs ----------

  /** steps can be taken one after the other from an empty backend. */
  predicate Possible(steps: seq<Step>)
    decreases |steps|, 0
  {
    steps == [] || (Possible(steps[..|steps| - 1]) && Enabled(After(steps[..|steps| - 1]), steps[|steps| - 1]))
  }

  function After(steps: seq<Step>): State
    requires Possible(steps)
    decreases |steps|, 1
  {
    if steps == [] then INITIAL else Take(After(steps[..|steps| - 1]), steps[|steps| - 1])
  }
}
