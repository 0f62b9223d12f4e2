/** What the longer calls of the encrypted store come to when nothing runs beside them:
    the machine's steps folded into one expression each. */
module SoloCalls {
  import Codec
  import Text
  import opened ByteStrings
  import opened Storage
  import opened KeyHierarchy
  import opened BackendContract
  import opened AliasMap
  import opened Protocol

  /** The reply that passes a failing result on. */
  function Refuse<T>(r: Result<T>): Reply {
    match r
    case Ok(_) => Success
    case Err(e) => Failure(e)
  }

  /** The header that Initialize creates. */
  function FirstHeaderOf(ref: KEKReference, kek: Key, c: Choice): Result<Header> {
    WrapInto(Header(Codec.FORMAT_VERSION, 1, c.storeID, ref, NO_BLOB), kek, c.dek, c.nonce)
  }

  /** Initialize once its arguments are found valid. */
  function Creation(key: HandleKey, b: Backend, ref: KEKReference, kek: Key, c: Choice): (HandleKey, Backend, Reply) {
    var first := FirstHeaderOf(ref, kek, c);
    if LoadHeader(b).Ok? then (key, b, Failure(Exists))
    else if ListEnvelopes(b) != [] then (key, b, Failure(Conflict))
    else if first.Err? then (key, b, Refuse(first))
    else
      var (b', r) := BackendContract.CreateHeader(b, first.value);
      if r.Err? then (key, b', Refuse(r)) else (Held(first.value, c.dek), b', Success)
  }

  lemma InitializeResult(key: HandleKey, b: Backend, ref: KEKReference, kek: Key, c: Choice)
    ensures RunAlone(key, b, Op.Initialize(ref, kek), Start, c) ==
      if ValidateKEKReference(NormalizeReference(ref)).Err? then (key, b, Refuse(ValidateKEKReference(NormalizeReference(ref))))
      else if ValidateKey(kek).Err? then (key, b, Refuse(ValidateKey(kek)))
      else Creation(key, b, NormalizeReference(ref), kek, c)
  {
    hide RunAlone, ValidateKEKReference, NormalizeReference, WrapInto, BackendContract.CreateHeader, ListEnvelopes, LoadHeader;
    hide RotateLoadStep, RotateSwapStep, PutSendStep, GetSendStep, DeleteSendStep;
    var op, ref' := Op.Initialize(ref, kek), NormalizeReference(ref);
    var first := FirstHeaderOf(ref', kek, c);
    FirstStep(key, b, op, c);
    Unroll(key, b, op, InitList(ref', kek), c);
    UnrollFinished(key, b, op, Failure(Conflict), c);
    Unroll(key, b, op, InitCreate(ref', kek), c);
    if first.Err? {
      UnrollFinished(key, b, op, Refuse(first), c);
    } else {
      var (b', r) := BackendContract.CreateHeader(b, first.value);
      UnrollFinished(key, b', op, Refuse(r), c);
      Unroll(key, b', op, Publish(first.value, c.dek), c);
      UnrollFinished(Held(first.value, c.dek), b', op, Success, c);
    }
  }

  /** The header that RotateKEK puts over current. */
  function NextHeaderOf(current: Header, next: KEKReference, kek: Key, dek: Key, c: Choice): Result<Header> {
    WrapInto(current.(revision := Increment(current.revision), kek := next), kek, dek, c.nonce)
  }

  /** The locked section of RotateKEK. */
  function LockedRotation(key: HandleKey, b: Backend, next: KEKReference, kek: Key, c: Choice): (HandleKey, Backend, Reply) {
    if key.NoKey? then (key, b, Failure(Locked))
    else if LoadHeader(b).Err? then (key, b, Refuse(LoadHeader(b)))
    else
      var current := LoadHeader(b).value;
      var rotated := NextHeaderOf(current, next, kek, key.dek, c);
      if ValidateHeader(current).Err? then (key, b, Refuse(ValidateHeader(current)))
      else if current.revision != key.header.revision then (key, b, Failure(Conflict))
      else if rotated.Err? then (key, b, Refuse(rotated))
      else
        var (b', r) := BackendContract.CompareAndSwapHeader(b, current.revision, rotated.value);
        if r.Err? then (key, b', Refuse(r)) else (Held(rotated.value, key.dek), b', Success)
  }

  lemma RotateResult(key: HandleKey, b: Backend, next: KEKReference, kek: Key, c: Choice)
    ensures RunAlone(key, b, Op.RotateKEK(next, kek), Start, c) ==
      if ValidateKEKReference(NormalizeReference(next)).Err? then (key, b, Refuse(ValidateKEKReference(NormalizeReference(next))))
      else if ValidateKey(kek).Err? then (key, b, Refuse(ValidateKey(kek)))
      else LockedRotation(key, b, NormalizeReference(next), kek, c)
  {
    hide RunAlone, ValidateKEKReference, NormalizeReference, WrapInto, BackendContract.CompareAndSwapHeader, ValidateHeader, LoadHeader;
    hide InitCreateStep, PutSendStep, GetSendStep, DeleteSendStep;
    var op, next' := Op.RotateKEK(next, kek), NormalizeReference(next);
    FirstStep(key, b, op, c);
    Unroll(key, b, op, RotateLoad(next', kek), c);
    if key.Held? && LoadHeader(b).Ok? {
      var current := LoadHeader(b).value;
      var rotated := NextHeaderOf(current, next', kek, key.dek, c);
      UnrollFinished(key, b, op, Refuse(ValidateHeader(current)), c);
      UnrollFinished(key, b, op, Failure(Conflict), c);
      if rotated.Err? {
        UnrollFinished(key, b, op, Refuse(rotated), c);
      } else {
        var (b', r) := BackendContract.CompareAndSwapHeader(b, current.revision, rotated.value);
        Unroll(key, b, op, RotateSwap(current.revision, rotated.value, kek), c);
        UnrollFinished(key, b', op, Refuse(r), c);
        Unroll(key, b', op, RotatePublish(rotated.value), c);
        UnrollFinished(Held(rotated.value, key.dek), b', op, Success, c);
      }
    } else {
      UnrollFinished(key, b, op, Refuse(LoadHeader(b)), c);
    }
  }

  lemma PutResult(key: HandleKey, b: Backend, raw: Record, c: Choice)
    ensures RunAlone(key, b, Op.Put(raw), Start, c) ==
      var rec := Normalize(raw);
      if ValidateRecord(rec).Err? then (key, b, Refuse(ValidateRecord(rec)))
      else if key.NoKey? then (key, b, Failure(Locked))
      else
        var sealed := SealRecord(key.header.storeID, key.dek, rec, c.nonce);
        if sealed.Err? then (key, b, Refuse(sealed))
        else
          var (b', r) := PutEnvelope(b, rec.alias, sealed.value);
          (key, b', Refuse(r))
  {
    hide RunAlone, Normalize, ValidateRecord, SealRecord, PutEnvelope;
    hide InitCreateStep, RotateLoadStep, RotateSwapStep, GetSendStep, DeleteSendStep;
    var op, rec := Op.Put(raw), Normalize(raw);
    FirstStep(key, b, op, c);
    if key.Held? && ValidateRecord(rec).Ok? && SealRecord(key.header.storeID, key.dek, rec, c.nonce).Ok? {
      var blob := SealRecord(key.header.storeID, key.dek, rec, c.nonce).value;
      var (b', r) := PutEnvelope(b, rec.alias, blob);
      Unroll(key, b, op, PutSend(rec, blob), c);
      UnrollFinished(key, b', op, Refuse(r), c);
    }
  }

  lemma UnlockResult(key: HandleKey, b: Backend, kek: Key, c: Choice)
    ensures RunAlone(key, b, Op.Unlock(kek), Start, c) ==
      if ValidateKey(kek).Err? then (key, b, Refuse(ValidateKey(kek)))
      else if LoadHeader(b).Err? then (key, b, Refuse(LoadHeader(b)))
      else
        var h := LoadHeader(b).value;
        var dek := UnwrapHeader(h, kek);
        if dek.Err? then (key, b, Refuse(dek)) else (Held(h, dek.value), b, Success)
  {
    hide RunAlone, LoadHeader, UnwrapHeader;
    var op := Op.Unlock(kek);
    FirstStep(key, b, op, c);
    if LoadHeader(b).Ok? && UnwrapHeader(LoadHeader(b).value, kek).Ok? {
      var h, dek := LoadHeader(b).value, UnwrapHeader(LoadHeader(b).value, kek).value;
      Unroll(key, b, op, Publish(h, dek), c);
      UnrollFinished(Held(h, dek), b, op, Success, c);
    }
  }

  lemma DeleteResult(key: HandleKey, b: Backend, raw: Bytes, c: Choice)
    ensures RunAlone(key, b, Op.Delete(raw), Start, c) ==
      var alias := Text.TrimSpace(raw);
      if ValidateAlias(alias).Err? then (key, b, Refuse(ValidateAlias(alias)))
      else if key.NoKey? then (key, b, Failure(Locked))
      else
        var (b', r) := DeleteEnvelope(b, alias);
        (key, b', Refuse(r))
  {
    hide RunAlone, Text.TrimSpace, DeleteEnvelope;
    hide InitCreateStep, RotateLoadStep, RotateSwapStep, PutSendStep, GetSendStep;
    var op, alias := Op.Delete(raw), Text.TrimSpace(raw);
    FirstStep(key, b, op, c);
    if key.Held? {
      var (b', r) := DeleteEnvelope(b, alias);
      Unroll(key, b, op, DeleteSend(alias), c);
      UnrollFinished(key, b', op, Refuse(r), c);
    }
  }

  lemma HeaderResult(key: HandleKey, b: Backend, c: Choice)
    ensures RunAlone(key, b, Op.ReadHeader, Start, c) ==
      if LoadHeader(b).Err? then (key, b, Refuse(LoadHeader(b)))
      else if ValidateHeader(LoadHeader(b).value).Err? then (key, b, Refuse(ValidateHeader(LoadHeader(b).value)))
      else (key, b, HeaderIs(LoadHeader(b).value))
  {
    hide RunAlone, LoadHeader, ValidateHeader;
    FirstStep(key, b, Op.ReadHeader, c);
  }

  lemma GetResult(key: HandleKey, b: Backend, raw: Bytes, c: Choice)
    ensures RunAlone(key, b, Op.Get(raw), Start, c) ==
      var alias := Text.TrimSpace(raw);
      if ValidateAlias(alias).Err? then (key, b, Refuse(ValidateAlias(alias)))
      else if key.NoKey? then (key, b, Failure(Locked))
      else if GetEnvelope(b, alias).Err? then (key, b, Refuse(GetEnvelope(b, alias)))
      else
        var found := OpenRecord(key.header.storeID, key.dek, alias, GetEnvelope(b, alias).value);
        (key, b, if found.Err? then Refuse(found) else Found(found.value))
  {
    hide RunAlone, Text.TrimSpace, GetEnvelope, OpenRecord, ValidateAlias;
    hide InitCreateStep, RotateLoadStep, RotateSwapStep, PutSendStep, DeleteSendStep;
    var op, alias := Op.Get(raw), Text.TrimSpace(raw);
    FirstStep(key, b, op, c);
    if key.Held? {
      Unroll(key, b, op, GetSend(alias, key.header.storeID, key.dek), c);
      var n := ThreadStep(key, b, op, GetSend(alias, key.header.storeID, key.dek), c);
      UnrollFinished(key, b, op, n.pc.reply, c);
    }
  }
}
