/**
 The primitives the onions are built from, as functions: a labelled hash and its extendable form, an AEAD,
 Shamir sharing and a KEM.  `Laws` are what the onions rely on; a toy instance shows that they are consistent.
 */
module Primitives {
  import opened Symbolic
  import opened Octets
  import opened PeelSearch

  datatype Domain =
    | HoloseedDomain | RatchetDomain | RatchetFinalDomain
    | PayloadKeyDomain | LayerKeyDomain | LayerNonceDomain | PadSlotDomain | SharingDomain | ShareKeyDomain
    | PayloadStream | BlockPadStream | FillerNonceStream | FillerStream
    | HopNonceDomain | HopKeyDomain | LenKeyDomain | BucketPadStream

  /** `seal`/`open` take key, nonce and text; `encapsulate` a key holder and randomness; `decapsulate` the holder. */
  datatype Scheme = Scheme(
    hash: (Domain, Bytes) -> Bytes,
    xof: (Domain, Bytes, nat) -> Bytes,
    seal: (Bytes, Bytes, Bytes) -> Bytes,
    open: (Bytes, Bytes, Bytes) -> Option<Bytes>,
    split: (Bytes, nat, nat, Bytes) -> seq<Share>,
    reconstruct: seq<Share> -> Option<Bytes>,
    encapsulate: (nat, Bytes) -> Option<(Bytes, Bytes)>,
    decapsulate: (nat, Bytes) -> Option<Bytes>)

  const HASH_LEN: nat := 32
  const AEAD_TAG: nat := 16
  const KEM_TEXT_LEN: nat := 1120

  ghost predicate HashLaws(s: Scheme) {
    && (forall domain, input :: |s.hash(domain, input)| == HASH_LEN)
    && (forall domain, input, n :: |s.xof(domain, input, n)| == n)
  }

  ghost predicate AeadLaws(s: Scheme) {
    && (forall key, nonce, text :: |s.seal(key, nonce, text)| == |text| + AEAD_TAG)
    && (forall key, nonce, text :: s.open(key, nonce, s.seal(key, nonce, text)) == Some(text))
  }

  /** The encapsulated secret comes back to the holder of the key. */
  ghost predicate KemLaws(s: Scheme) {
    forall holder, coins :: s.encapsulate(holder, coins).Some? ==>
      var (text, session) := s.encapsulate(holder, coins).value;
      |text| == KEM_TEXT_LEN && s.decapsulate(holder, text) == Some(session)
  }

  /** Shares `1..n` of the secret's own width. */
  ghost predicate SplitLaw(s: Scheme, secret: Bytes, t: nat, n: nat, coins: Bytes) {
    var shares := s.split(secret, t, n, coins);
    && |shares| == n
    && (forall i :: 0 <= i < n ==> shares[i].x == i + 1 && |shares[i].y| == |secret|)
  }

  predicate Distinct(shares: seq<Share>) {
    forall i, j :: 0 <= i < j < |shares| ==> shares[i].x != shares[j].x
  }

  /** Any `t` or more distinct shares give the secret back. */
  ghost predicate ReconstructLaw(s: Scheme, secret: Bytes, t: nat, n: nat, coins: Bytes, chosen: seq<Share>) {
    && t <= |chosen| && Distinct(chosen)
    && (forall i :: 0 <= i < |chosen| ==> chosen[i] in s.split(secret, t, n, coins))
    ==> s.reconstruct(chosen) == Some(secret)
  }

  ghost predicate SharingLaws(s: Scheme) {
    forall secret, t, n, coins :: 0 < t <= n ==>
      SplitLaw(s, secret, t, n, coins) && forall chosen :: ReconstructLaw(s, secret, t, n, coins, chosen)
  }

  ghost predicate Laws(s: Scheme) {
    HashLaws(s) && AeadLaws(s) && KemLaws(s) && SharingLaws(s)
  }

  lemma {:induction false} HashWidth(s: Scheme, domain: Domain, input: Bytes)
    requires Laws(s)
    ensures |s.hash(domain, input)| == HASH_LEN
  {
    hide AeadLaws, KemLaws, SharingLaws;
  }

  lemma {:induction false} XofWidth(s: Scheme, domain: Domain, input: Bytes, n: nat)
    requires Laws(s)
    ensures |s.xof(domain, input, n)| == n
  {
    hide AeadLaws, KemLaws, SharingLaws;
  }

  lemma {:induction false} SealOpens(s: Scheme, key: Bytes, nonce: Bytes, text: Bytes)
    requires Laws(s)
    ensures |s.seal(key, nonce, text)| == |text| + AEAD_TAG
    ensures s.open(key, nonce, s.seal(key, nonce, text)) == Some(text)
  {
    hide HashLaws, KemLaws, SharingLaws;
  }

  lemma {:induction false} KemOpens(s: Scheme, holder: nat, coins: Bytes)
    requires Laws(s) && s.encapsulate(holder, coins).Some?
    ensures var (text, session) := s.encapsulate(holder, coins).value;
            |text| == KEM_TEXT_LEN && s.decapsulate(holder, text) == Some(session)
  {
    hide HashLaws, AeadLaws, SharingLaws;
  }

  lemma {:induction false} SharesReconstruct(s: Scheme, secret: Bytes, t: nat, n: nat, coins: Bytes, chosen: seq<Share>)
    requires Laws(s) && 0 < t <= n
    ensures SplitLaw(s, secret, t, n, coins) && ReconstructLaw(s, secret, t, n, coins, chosen)
  {
    hide HashLaws, AeadLaws, KemLaws, SplitLaw, ReconstructLaw;
  }

  // ----- The laws are consistent -----

  function ToyHash(domain: Domain, input: Bytes): Bytes { Zeros(HASH_LEN) }

  function ToyXof(domain: Domain, input: Bytes, n: nat): Bytes { Zeros(n) }

  function ToySeal(key: Bytes, nonce: Bytes, text: Bytes): Bytes { text + Zeros(AEAD_TAG) }

  function ToyOpen(key: Bytes, nonce: Bytes, text: Bytes): Option<Bytes> {
    if |text| < AEAD_TAG then None else Some(text[..|text| - AEAD_TAG])
  }

  function ToySplit(secret: Bytes, t: nat, n: nat, coins: Bytes): (shares: seq<Share>)
    ensures |shares| == n
    ensures forall i :: 0 <= i < n ==> shares[i] == Share(i + 1, secret)
  {
    if n == 0 then [] else ToySplit(secret, t, n - 1, coins) + [Share(n, secret)]
  }

  function ToyReconstruct(shares: seq<Share>): Option<Bytes> {
    if shares == [] then None else Some(shares[0].y)
  }

  function ToyEncapsulate(holder: nat, coins: Bytes): Option<(Bytes, Bytes)> {
    Some((Zeros(KEM_TEXT_LEN), Zeros(HASH_LEN)))
  }

  function ToyDecapsulate(holder: nat, text: Bytes): Option<Bytes> { Some(Zeros(HASH_LEN)) }

  const TOY: Scheme :=
    Scheme(ToyHash, ToyXof, ToySeal, ToyOpen, ToySplit, ToyReconstruct, ToyEncapsulate, ToyDecapsulate)

  lemma {:induction false} LawsAreConsistent()
    ensures Laws(TOY)
  {
    forall key: Bytes, nonce: Bytes, text: Bytes
      ensures TOY.open(key, nonce, TOY.seal(key, nonce, text)) == Some(text)
    {
      var sealed := ToySeal(key, nonce, text);
      assert sealed == TOY.seal(key, nonce, text) && sealed[..|text|] == text;
    }
    assert AeadLaws(TOY);
    assert KemLaws(TOY);
    forall secret: Bytes, t: nat, n: nat, coins: Bytes | 0 < t <= n
      ensures SplitLaw(TOY, secret, t, n, coins)
      ensures forall chosen :: ReconstructLaw(TOY, secret, t, n, coins, chosen)
    {
    }
  }
}
