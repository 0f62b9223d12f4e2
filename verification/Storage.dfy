/** The storage contract of lib/store: records, encrypted headers and blobs, the
    error kinds, and the checks both layers share. */
module Storage {
  import opened ByteStrings
  import opened Text
  import Aead

  datatype Option<+T> = None | Some(value: T)

  /** Sentinel errors. BadKey is the unnamed error for a missing or wrongly sized
      enclave; Unavailable is any failing I/O call, cancelled context or crash. */
  datatype Error =
    | NotFound | Exists | InvalidAlias | InvalidRecord
    | NotInitialized | Locked | Integrity | Conflict | UnsupportedFormat
    | BadKey | Unavailable

  datatype Result<+T> = Ok(value: T) | Err(error: Error) {
    predicate IsFailure() { Err? }

    function PropagateFailure<U>(): Result<U>
      requires Err?
    {
      Err(error)
    }

    function Extract(): T
      requires Ok?
    {
      value
    }
  }

  type uint16 = x: int | 0 <= x < 0x1_0000

  type uint64 = x: int | 0 <= x < 0x1_0000_0000_0000_0000

  /** A key in its enclave; a missing enclave is a key of the wrong size, which
      fails the same check with the same error. */
  type Key = Bytes

  const SALT_SIZE: nat := 32

  datatype Record = Record(alias: Bytes, credentialID: Bytes, salt: Bytes, rpID: Bytes)

  datatype KEKReference = KEKReference(credentialID: Bytes, salt: Bytes, rpID: Bytes)

  datatype Blob = Blob(version: uint16, algorithm: Bytes, nonce: Bytes, ciphertext: Aead.Ciphertext)

  datatype Header = Header(version: uint16, revision: uint64, storeID: Bytes, kek: KEKReference, wrappedDEK: Blob)

  function ValidateAlias(alias: Bytes): Result<()> {
    if alias == [] then Err(InvalidAlias) else Ok(())
  }

  function ValidateRecord(rec: Record): Result<()> {
    var _ :- ValidateAlias(rec.alias);
    if rec.credentialID == [] || |rec.salt| != SALT_SIZE || rec.rpID == [] then Err(InvalidRecord) else Ok(())
  }

  function ValidateKEKReference(ref: KEKReference): Result<()> {
    if ref.credentialID == [] || |ref.salt| != SALT_SIZE || TrimSpace(ref.rpID) == [] then Err(InvalidRecord)
    else Ok(())
  }

  /** Put's normalisation: alias and RP id are trimmed before anything else. */
  function Normalize(rec: Record): Record {
    rec.(alias := TrimSpace(rec.alias), rpID := TrimSpace(rec.rpID))
  }

  function NormalizeReference(ref: KEKReference): KEKReference {
    ref.(rpID := TrimSpace(ref.rpID))
  }
}
