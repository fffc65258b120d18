/**
 The nested onion read backwards: a packet peels if and only if it is a layer for the holder of the key, and it peels to
 exactly what that layer says.  Hops draw from seeds of their own.
 */
module SealedInverse {
  import opened Symbolic
  import opened Octets
  import opened Primitives
  import opened PathTag
  import opened SealedOnion

  /** The parts of a packet: a KEM ciphertext, a nonce, a sealed length, a sealed body, and whatever follows. */
  datatype Parts = Parts(text: Bytes, nonce: Bytes, length: Bytes, body: Bytes, rest: Bytes)

  function Whole(p: Parts): Bytes { [VERSION] + p.text + p.nonce + p.length + p.body + p.rest }

  /** The parts are a layer that the holder opens under this session to this command. */
  ghost predicate Opens(sch: Scheme, p: Parts, holder: nat, session: Bytes, command: Bytes) {
    && |p.text| == KEM_TEXT_LEN && |p.nonce| == NONCE_LEN && |p.length| == LEN_CT_LEN && |p.body| <= MAX_LEN_FIELD
    && sch.decapsulate(holder, p.text) == Some(session)
    && (exists tail :: sch.open(sch.hash(LenKeyDomain, session), p.nonce, p.length) == Some(Be(|p.body|, 2) + tail))
    && sch.open(sch.hash(HopKeyDomain, session), p.nonce, p.body) == Some(command)
  }

  /** What a command says: deliver with a tag, or forward what is left, padded to the bucket. */
  ghost predicate Says(sch: Scheme, session: Bytes, command: Bytes, outcome: Outcome) {
    match outcome
    case Deliver(payload, holonomy) => |holonomy| == HASH_LEN && command == [DELIVER] + holonomy + payload
    case Forward(next, onion) =>
      exists inner :: |inner| <= ONION_LEN && command == [NEXT] + EncodeTriple(next) + inner
        && onion == inner + sch.xof(BucketPadStream, session, ONION_LEN - |inner|)
  }

  /** Whatever peels is a layer, and says what it peels to. */
  lemma {:induction false} WhatPeelsIsALayer(sch: Scheme, onion: Bytes, holder: nat)
    returns (p: Parts, session: Bytes, command: Bytes)
    requires Peel(sch, onion, holder).Ok?
    ensures onion == Whole(p) && Opens(sch, p, holder, session, command)
    ensures Says(sch, session, command, Peel(sch, onion, holder).value)
  {
    hide Be, FromBe, Obey;
    session := sch.decapsulate(holder, onion[1..OFF_NONCE]).value;
    var nonce := onion[OFF_NONCE..OFF_LEN_CT];
    var length := sch.open(sch.hash(LenKeyDomain, session), nonce, onion[OFF_LEN_CT..OFF_BODY_CT]).value;
    var width := FromBe(length[..2]);
    command := sch.open(sch.hash(HopKeyDomain, session), nonce, onion[OFF_BODY_CT..OFF_BODY_CT + width]).value;
    p := Parts(onion[1..OFF_NONCE], nonce, onion[OFF_LEN_CT..OFF_BODY_CT], onion[OFF_BODY_CT..OFF_BODY_CT + width], onion[OFF_BODY_CT + width..]);
    BytesRoundTrip(length[..2]);
    FieldWidths();
    assert length == Be(width, 2) + length[2..];
    PartsOf(onion, width);
    ObeyedSays(sch, session, command);
  }

  lemma {:induction false} PartsOf(onion: Bytes, width: nat)
    requires OFF_BODY_CT + width <= |onion| && onion[0] == VERSION
    ensures onion == [VERSION] + onion[1..OFF_NONCE] + onion[OFF_NONCE..OFF_LEN_CT] + onion[OFF_LEN_CT..OFF_BODY_CT]
                     + onion[OFF_BODY_CT..OFF_BODY_CT + width] + onion[OFF_BODY_CT + width..]
  {
  }

  lemma {:induction false} ObeyedSays(sch: Scheme, session: Bytes, command: Bytes)
    requires Obey(sch, session, command).Ok?
    ensures Says(sch, session, command, Obey(sch, session, command).value)
  {
    hide DecodeTriple, EncodeTriple;
    var rest := command[1..];
    if command[0] == DELIVER {
      assert command == [DELIVER] + rest[..HASH_LEN] + rest[HASH_LEN..];
    } else {
      BytesOfTriple(rest[..12]);
      var inner := rest[12..];
      assert command == [NEXT] + rest[..12] + inner;
    }
  }

  /** And every layer peels to what it says, whatever follows it. */
  lemma {:induction false} EveryLayerPeels(sch: Scheme, p: Parts, holder: nat, session: Bytes, command: Bytes, outcome: Outcome)
    requires Opens(sch, p, holder, session, command) && Says(sch, session, command, outcome)
    ensures Peel(sch, Whole(p), holder) == Ok(outcome)
  {
    hide Be, FromBe, Obey, Says;
    var onion := Whole(p);
    var tail :| sch.open(sch.hash(LenKeyDomain, session), p.nonce, p.length) == Some(Be(|p.body|, 2) + tail);
    SlicesOf(p);
    FieldWidths();
    BeRoundTrip(|p.body|, 2);
    assert (Be(|p.body|, 2) + tail)[..2] == Be(|p.body|, 2);
    SaidIsObeyed(sch, session, command, outcome);
  }

  lemma {:induction false} SlicesOf(p: Parts)
    requires |p.text| == KEM_TEXT_LEN && |p.nonce| == NONCE_LEN && |p.length| == LEN_CT_LEN
    ensures var onion := Whole(p);
            && |onion| >= OFF_BODY_CT + |p.body| && onion[0] == VERSION && onion[1..OFF_NONCE] == p.text
            && onion[OFF_NONCE..OFF_LEN_CT] == p.nonce && onion[OFF_LEN_CT..OFF_BODY_CT] == p.length
            && onion[OFF_BODY_CT..OFF_BODY_CT + |p.body|] == p.body
  {
  }

  lemma {:induction false} SaidIsObeyed(sch: Scheme, session: Bytes, command: Bytes, outcome: Outcome)
    requires Says(sch, session, command, outcome)
    ensures Obey(sch, session, command) == Ok(outcome)
  {
    hide DecodeTriple, EncodeTriple;
    match outcome
    case Deliver(payload, holonomy) =>
      assert command[1..] == holonomy + payload;
    case Forward(next, onion) =>
      var inner :| |inner| <= ONION_LEN && command == [NEXT] + EncodeTriple(next) + inner
                   && onion == inner + sch.xof(BucketPadStream, session, ONION_LEN - |inner|);
      assert command[1..] == EncodeTriple(next) + inner;
      assert command[1..][..12] == EncodeTriple(next) && command[1..][12..] == inner;
      TripleRoundTrip(next);
  }

  /** No two hops of a circuit draw their secrets and nonces from one seed. */
  lemma {:induction false} HopsDrawApart(job: Job, j: nat, k: nat)
    requires j < 0x1_0000_0000 && k < 0x1_0000_0000 && HopSeed(job, j) == HopSeed(job, k)
    ensures j == k
  {
    hide Be;
    FieldWidths();
    BeRoundTrip(j, 4);
    BeRoundTrip(k, 4);
    assert HopSeed(job, j)[|job.seed|..] == Be(j, 4) && HopSeed(job, k)[|job.seed|..] == Be(k, 4);
  }

  /** Two hops share a nonce only if the hash agrees, over the nonce's width, on two different inputs, which are handed back. */
  lemma {:induction false} NoncesMeetOnlyByHash(sch: Scheme, job: Job, j: nat, k: nat) returns (x: Bytes, y: Bytes)
    requires j < k < 0x1_0000_0000 && HopNonce(sch, job, j) == HopNonce(sch, job, k)
    ensures x != y && First(sch.hash(HopNonceDomain, x), NONCE_LEN) == First(sch.hash(HopNonceDomain, y), NONCE_LEN)
  {
    hide HopSeed, First;
    x, y := HopSeed(job, j), HopSeed(job, k);
    if x == y { HopsDrawApart(job, j, k); }
  }

  /** Each hop's layer begins with the version and the ciphertext drawn for its own key from its own seed. */
  lemma {:induction false} EveryHopIsEncapsulatedToItsKey(sch: Scheme, job: Job, k: nat)
    requires Laws(sch) && Buildable(job) && 1 <= k <= |job.keys| && Refusal(sch, job).None?
    ensures sch.encapsulate(job.keys[k - 1], HopSeed(job, k)).Some?
    ensures [VERSION] + sch.encapsulate(job.keys[k - 1], HopSeed(job, k)).value.0 <= InnerAt(sch, job, k)
  {
    hide Laws, SealedBody, Command, InnerAt, Refusal, HopSeed, HopNonce;
    HopIsWrapped(sch, job, k);
  }

  /** The built packet is the first hop's layer, and padding drawn from that hop's session alone. */
  lemma {:induction false} ThePaddingIsTheFirstHops(sch: Scheme, job: Job)
    requires Laws(sch) && Buildable(job) && job.keys != [] && Refusal(sch, job).None?
    ensures var onion := InnerAt(sch, job, 1);
            |onion| <= ONION_LEN &&
            Build(sch, job) == Ok(onion + sch.xof(BucketPadStream, SessionAt(sch, job, 1), ONION_LEN - |onion|))
  {
    hide Laws, SealedBody, Command, Refusal, HopSeed, HopNonce, Wrap, SessionAt;
    HopIsWrapped(sch, job, 1);
  }
}
