/**
 The symbolic cryptography that the messaging modules share.

 A hash under a domain label is a free constructor, so two hashes are equal only when their labels
 and inputs are.  An AEAD ciphertext remembers the key and nonce it was sealed under and opens under
 exactly those.  A KEM ciphertext yields the encapsulated secret to the key it was made for, and an
 unrelated secret (the implicit rejection of ML-KEM) to every other key.
 */
module Symbolic {

  datatype Option<+T> = None | Some(value: T)

  type Plain = seq<bv8>

  /** The domain-separation labels of the double ratchet and of the media session. */
  datatype Label = RootLabel | MixLabel | RkRootLabel | RkChainLabel | MessageLabel | NextLabel
                 | CallerLabel | CalleeLabel | NextEpochLabel

  datatype Key =
    | Secret(id: nat)
    | Shared(recipient: nat, coin: nat)
    | Rejected(holder: nat, recipient: nat, coin: nat)
    | Hash(domain: Label, input: Key)
    | Pair(left: Key, right: Key)

  /** An AEAD body: sealed by a key holder, or anything else (a forgery, which no key opens). */
  datatype Body = Sealed(key: Key, nonce: nat, plain: Plain) | Forged(junk: nat)

  function AeadOpen(key: Key, nonce: nat, body: Body): Option<Plain> {
    if body.Sealed? && body.key == key && body.nonce == nonce then Some(body.plain) else None
  }

  /** A KEM public key; `LowOrder` is one whose X25519 leg is non-contributory. */
  datatype Pub = Pub(id: nat) | LowOrder

  datatype KemText = Encap(recipient: nat, coin: nat) | Degenerate

  function Encapsulate(to: Pub, coin: nat): Option<(KemText, Key)> {
    match to
    case LowOrder => None
    case Pub(id) => Some((Encap(id, coin), Shared(id, coin)))
  }

  function Decapsulate(holder: nat, text: KemText): Option<Key> {
    match text
    case Degenerate => None
    case Encap(recipient, coin) =>
      Some(if recipient == holder then Shared(recipient, coin) else Rejected(holder, recipient, coin))
  }
}
