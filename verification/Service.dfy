/** pkg/secrets: errors, inputs of a derivation, RP ids and device selection. */
module Service {
  import opened ByteStrings
  import opened Text
  import opened Storage
  import opened Unicode

  datatype SecretsError =
    | AliasInvalid | AliasExists | AliasNotFound | NoDevice
    | StoreFailed(error: Error) | Cancelled | PinFailed | SaltFailed | FidoFailed | DeriveFailed

  /** What an authenticator is asked to derive from; it is deterministic in these. */
  datatype DeriveInputs = DeriveInputs(rpID: Bytes, credentialID: Bytes, salt: Bytes)

  datatype Outcome = Derived(inputs: DeriveInputs) | Refused(error: SecretsError)

  function InputsOf(rec: Record): DeriveInputs {
    DeriveInputs(rec.rpID, rec.credentialID, rec.salt)
  }

  const DEFAULT_RP_ID: Bytes := Ascii("hmac-secret.example")

  /** New's normalisation of the RP id. */
  function ServiceRPID(raw: Bytes): Bytes {
    if TrimSpace(raw) == [] then DEFAULT_RP_ID else TrimSpace(raw)
  }

  /** Every record a service creates carries a trimmed, non-empty RP id: the one given,
      or the default if that is blank. */
  lemma ServiceRPIDNormalized(raw: Bytes)
    ensures ServiceRPID(raw) != [] && TrimSpace(ServiceRPID(raw)) == ServiceRPID(raw)
    ensures ServiceRPID(raw) == if Blank(raw) then Ascii("hmac-secret.example") else TrimSpace(raw)
  {
    TrimSpaceIdempotent(raw);
    BlankTrims(raw);
    var d := DEFAULT_RP_ID;
    assert d[0] == 'h' as int && d[|d| - 1] == 'e' as int;
    assert SkipSpace(d, 0) == 0 && DropSpace(d, 0, |d|) == |d|;
  }

  /** How openSelected fares: the context, the listing, the selector, the PIN prompt, the
      open. */
  datatype Selection = Selection(cancelled: bool, devices: Option<nat>, path: Option<Bytes>, pin: bool, open: bool)

  function OpenSelected(sel: Selection): Option<SecretsError> {
    if sel.cancelled then Some(Cancelled)
    else if sel.devices.None? || sel.devices.value == 0 || sel.path.None? || TrimSpace(sel.path.value) == [] then Some(NoDevice)
    else if !sel.pin then Some(PinFailed)
    else if !sel.open then Some(NoDevice)
    else None
  }

  /** A device is opened exactly when nothing cancelled the call, some device was listed,
      the selector named one with a path, the PIN was given and the path opened. */
  lemma SelectionAnswer(sel: Selection)
    ensures OpenSelected(sel).None? <==>
      && !sel.cancelled && sel.devices.Some? && sel.devices.value > 0
      && sel.path.Some? && !Blank(sel.path.value) && sel.pin && sel.open
    ensures sel.cancelled ==> OpenSelected(sel) == Some(Cancelled)
    ensures OpenSelected(sel) == Some(PinFailed) <==>
      && !sel.cancelled && sel.devices.Some? && sel.devices.value > 0
      && sel.path.Some? && !Blank(sel.path.value) && !sel.pin
    ensures OpenSelected(sel).Some? && !sel.cancelled && OpenSelected(sel) != Some(PinFailed) ==>
      OpenSelected(sel) == Some(NoDevice)
  {
    if sel.path.Some? {
      BlankTrims(sel.path.value);
    }
    hide TrimSpace, Blank;
  }
}
