/**
 * PBKDF2 (RFC 8018, section 5.2) is not computed here: a derivation is
 * described by the call that requests it, and the derived bytes come from a
 * function parameter standing for the library. Two derivations agree exactly
 * when their calls are equal.
 */
module Kdf {
  import opened Text

  datatype Digest = Sha256

  /** `PBKDF2(password, salt, iterations, keyLength in bytes, digest)`. */
  datatype Pbkdf2Call = Pbkdf2Call(password: string, salt: string, iterations: nat, keyBytes: nat, digest: Digest)

  const Iterations := 100000
  const KeyBytes := 32
}
