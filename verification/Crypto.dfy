/**
 Idealised cryptography. Derivation, hashing and signing are free constructors: different inputs give
 different outputs, and a signature or an authorisation value can only be built from its key.
 */
module Crypto {
  import opened Bytes

  /** Secret material: given bytes, or the `n`-th value of a labelled HKDF chain. */
  datatype Secret = Raw(bytes: seq<byte>) | Hkdf(root: Secret, tag: string, n: nat)

  datatype Digest = Sha256(preimage: Secret)

  /** An Ed25519 key pair's public half. */
  type IdentityKey = nat

  /** A signature made with `key` over `content`, or bytes that are not a signature of anything. */
  datatype Signature<+T> = Signed(key: IdentityKey, content: T) | Junk(bytes: seq<byte>)

  predicate Verifies<T(==)>(key: IdentityKey, content: T, signature: Signature<T>) {
    signature == Signed(key, content)
  }
}
