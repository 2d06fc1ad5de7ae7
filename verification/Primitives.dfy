/** Cryptographic functions whose inside is not modelled, as parameters. */
module Primitives {
  import opened Words

  /** HMAC-SHA-256: key and message to 32 bytes. */
  type Mac = (seq<Byte>, seq<Byte>) -> seq<Byte>

  ghost predicate Mac32(hmac: Mac) { forall k, m :: |hmac(k, m)| == 32 }

  /** An extendable-output function: input and length to that many bytes. */
  type Xof = (seq<Byte>, nat) -> seq<Byte>

  ghost predicate XofSized(xof: Xof) { forall k, n :: |xof(k, n)| == n }
}
