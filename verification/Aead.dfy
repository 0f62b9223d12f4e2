/** XChaCha20-Poly1305 as a symbolic AEAD, the ideal form of the operations in
    sections 2.1 and 2.2 of RFC 5116: a ciphertext opens only under the key, nonce
    and associated data it was sealed with. */
module Aead {
  import opened ByteStrings

  const KEY_SIZE: nat := 32
  const NONCE_SIZE: nat := 24
  const OVERHEAD: nat := 16

  datatype Ciphertext =
    | Sealed(key: Bytes, nonce: Bytes, aad: Bytes, plaintext: Bytes)
    | Junk(bytes: Bytes)

  datatype Opened = Plaintext(bytes: Bytes) | Rejected

  function Length(c: Ciphertext): nat {
    match c
    case Sealed(_, _, _, plaintext) => |plaintext| + OVERHEAD
    case Junk(bytes) => |bytes|
  }

  function Open(key: Bytes, nonce: Bytes, aad: Bytes, c: Ciphertext): Opened {
    if c.Sealed? && c.key == key && c.nonce == nonce && c.aad == aad then Plaintext(c.plaintext) else Rejected
  }
}
