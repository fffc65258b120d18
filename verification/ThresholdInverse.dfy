/**
 The threshold onion read backwards: a packet peels with a set of shares if and only if its first slot is a layer for a line
 of the plane's size that those shares open, and it peels to exactly what that layer says.  Hops have keys of their own.
 */
module ThresholdInverse {
  import opened Symbolic
  import opened Octets
  import opened Primitives
  import opened Budget
  import opened PeelSearch
  import opened PathTag
  import opened ThresholdOnion
  import ThresholdCircuit

  /** A layer as it is parsed: a nonce of its width and sealed shares of theirs. */
  ghost predicate WellFormed(s: Layer) {
    && |s.nonce| == NONCE_LEN && AllWide(s.shares, SEALED_SHARE_LEN)
    && |s.shares| < 0x1_0000 && |s.ciphertext| < 0x1_0000_0000
  }

  lemma {:induction false} ReadSharesIs(bytes: Bytes, n: nat)
    requires ReadShares(bytes, n).Some?
    ensures var shares := ReadShares(bytes, n).value;
            |shares| == n && AllWide(shares, SEALED_SHARE_LEN) && Concat(shares) <= bytes
    decreases n
  {
    if n > 0 {
      var rest := bytes[SEALED_SHARE_LEN..];
      ReadSharesIs(rest, n - 1);
      var others := ReadShares(rest, n - 1).value;
      var first := bytes[..SEALED_SHARE_LEN];
      ConcatSum([first], others);
      ConcatOne(first);
      assert bytes == first + rest;
      assert ReadShares(bytes, n).value == [first] + others;
    } else {
      ConcatNone();
    }
  }

  /** What parses is the serialization of what it parses to, and whatever follows. */
  lemma {:induction false} ParsedIsSerialized(bytes: Bytes)
    requires FromBytes(bytes).Some?
    ensures var s := FromBytes(bytes).value; WellFormed(s) && ToBytes(s) <= bytes
  {
    hide Be, FromBe, Concat, ReadShares;
    var s := FromBytes(bytes).value;
    var members, width := FromBe(bytes[12..14]), FromBe(bytes[14..18]);
    FieldWidths();
    BytesRoundTrip(bytes[12..14]);
    BytesRoundTrip(bytes[14..18]);
    ReadSharesIs(bytes[18 + width..], members);
    assert |s.shares| == members;
    var head := s.nonce + Be(|s.shares|, 2) + Be(|s.ciphertext|, 4) + s.ciphertext;
    assert bytes == head + bytes[18 + width..];
    assert ToBytes(s) == head + Concat(s.shares);
  }

  lemma {:induction false} SerializedParses(s: Layer, more: Bytes)
    requires WellFormed(s)
    ensures FromBytes(ToBytes(s) + more) == Some(s)
  {
    hide Be, FromBe, Concat, ReadShares;
    FieldWidths();
    BeRoundTrip(|s.shares|, 2);
    BeRoundTrip(|s.ciphertext|, 4);
    SharesParse(s.shares, more);
    var bytes, width := ToBytes(s) + more, |s.ciphertext|;
    assert bytes[..12] == s.nonce && bytes[12..14] == Be(|s.shares|, 2) && bytes[14..18] == Be(width, 4);
    assert bytes[18..18 + width] == s.ciphertext && bytes[18 + width..] == Concat(s.shares) + more;
  }

  lemma {:induction false} SharesParse(shares: seq<Bytes>, more: Bytes)
    requires AllWide(shares, SEALED_SHARE_LEN)
    ensures ReadShares(Concat(shares) + more, |shares|) == Some(shares)
    decreases |shares|
  {
    if shares != [] {
      assert shares == [shares[0]] + shares[1..];
      ConcatSum([shares[0]], shares[1..]);
      ConcatOne(shares[0]);
      var bytes := Concat(shares) + more;
      assert bytes[..SEALED_SHARE_LEN] == shares[0] && bytes[SEALED_SHARE_LEN..] == Concat(shares[1..]) + more;
      SharesParse(shares[1..], more);
    }
  }

  /** A packet: the layer of its first slot, what fills that slot, the slots behind it, and the block. */
  datatype Parts = Parts(layer: Layer, fill: Bytes, slots: Bytes, block: Bytes)

  function Whole(p: Parts): Bytes { ToBytes(p.layer) + p.fill + p.slots + p.block }

  /** The parts are a packet of a plane with lines of `n` members, whose layer these shares open to this command. */
  ghost predicate Opens(sch: Scheme, p: Parts, n: nat, shares: seq<Share>, command: Bytes) {
    && WellFormed(p.layer) && |p.layer.shares| == n
    && |ToBytes(p.layer) + p.fill| == SlotLen(n) && |p.slots| == HeaderLen(n) - SlotLen(n)
    && |p.block| == OnionLen(n) - HeaderLen(n)
    && (exists key :: |key| == 32 && sch.reconstruct(shares) == Some(key)
                      && sch.open(key, p.layer.nonce, p.layer.ciphertext) == Some(command))
  }

  /** What a command says of the slots behind it and the block: a payload and a tag, or the next line and its packet. */
  ghost predicate Says(sch: Scheme, slots: Bytes, block: Bytes, n: nat, command: Bytes, outcome: Outcome) {
    match outcome
    case Deliver(payload, holonomy) =>
      exists key, padding ::
        && |holonomy| == HASH_LEN && |key| == 32 && |payload| < 0x1_0000_0000
        && command == [DELIVER] + holonomy + key
        && Xor(block, Stream(sch, key, |block|)) == Be(|payload|, 4) + payload + padding
    case Forward(next, onion) =>
      exists key, spare ::
        && |spare| == 20 && |key| == 32 && command == [NEXT] + EncodeTriple(next) + spare + key
        && onion == slots + FillerSlot(sch, key, n) + Xor(block, Stream(sch, key, |block|))
  }

  lemma {:induction false} ShiftIs(sch: Scheme, header: Bytes, n: nat, key: Bytes)
    requires Laws(sch) && |header| == HeaderLen(n)
    ensures SlotLen(n) <= |header|
    ensures Shifted(header, FillerSlot(sch, key, n), SlotLen(n)) == header[SlotLen(n)..] + FillerSlot(sch, key, n)
  {
    hide Laws, FillerSlot, DepthFor;
    EveryPlaneReachesTheTarget(n);
    ThresholdCircuit.FillerWidth(sch, key, n);
    ThresholdCircuit.WholeSlots(SlotLen(n));
  }

  /** Whatever peels is such a packet, and says what it peels to. */
  lemma {:induction false} WhatPeelsIsALayer(sch: Scheme, onion: Bytes, n: nat, shares: seq<Share>)
    returns (p: Parts, command: Bytes)
    requires Laws(sch) && Peel(sch, onion, n, shares).Ok?
    ensures onion == Whole(p) && Opens(sch, p, n, shares, command)
    ensures Says(sch, p.slots, p.block, n, command, Peel(sch, onion, n, shares).value)
  {
    hide Laws, FromBytes, ToBytes, Obey, OnionLen, HeaderLen, SlotLen, WellFormed;
    EveryPlaneReachesTheTarget(n);
    var layer := OpenSlot0(onion, n).value;
    var slot := onion[..SlotLen(n)];
    ParsedIsSerialized(slot);
    command := OpenLayer(sch, layer, shares).value;
    var header, block := onion[..HeaderLen(n)], onion[HeaderLen(n)..];
    ShiftIs(sch, header, n, []);
    p := Parts(layer, slot[|ToBytes(layer)|..], header[SlotLen(n)..], block);
    assert slot == ToBytes(layer) + p.fill;
    assert onion == slot + p.slots + p.block;
    ObeyedSays(sch, header, block, n, command);
  }

  lemma {:induction false} ObeyedSays(sch: Scheme, header: Bytes, block: Bytes, n: nat, command: Bytes)
    requires Laws(sch) && |header| == HeaderLen(n) && Obey(sch, header, block, n, command).Ok?
    ensures SlotLen(n) <= |header| && Says(sch, header[SlotLen(n)..], block, n, command, Obey(sch, header, block, n, command).value)
  {
    hide Laws, DecodeTriple, EncodeTriple, FillerSlot, Be, FromBe, HeaderLen, SlotLen, Shifted, Xor;
    var operand, key := command[1..KEY_AT], command[KEY_AT..CMD_LEN];
    ShiftIs(sch, header, n, key);
    var plain := Xor(block, Stream(sch, key, |block|));
    if command[0] == DELIVER {
      var payload := Unpack(plain).value;
      FieldWidths();
      BytesRoundTrip(plain[..4]);
      assert plain == Be(|payload|, 4) + payload + plain[4 + |payload|..];
      assert command == [DELIVER] + operand + key;
    } else {
      BytesOfTriple(operand[..12]);
      assert command == [NEXT] + operand[..12] + operand[12..] + key;
    }
  }

  /** And every such packet peels to what it says. */
  lemma {:induction false} EveryLayerPeels(sch: Scheme, p: Parts, n: nat, shares: seq<Share>, command: Bytes, outcome: Outcome)
    requires Laws(sch) && Opens(sch, p, n, shares, command) && Says(sch, p.slots, p.block, n, command, outcome)
    ensures Peel(sch, Whole(p), n, shares) == Ok(outcome)
  {
    hide Laws, FromBytes, ToBytes, Obey, OnionLen, HeaderLen, SlotLen, WellFormed, Says;
    EveryPlaneReachesTheTarget(n);
    var onion, slot := Whole(p), ToBytes(p.layer) + p.fill;
    var header := slot + p.slots;
    SerializedParses(p.layer, p.fill);
    assert onion == header + p.block;
    assert onion[..HeaderLen(n)] == header && onion[HeaderLen(n)..] == p.block;
    assert onion[..SlotLen(n)] == slot && header[SlotLen(n)..] == p.slots;
    SaidIsObeyed(sch, header, p.block, n, command, outcome);
  }

  lemma {:induction false} SaidIsObeyed(sch: Scheme, header: Bytes, block: Bytes, n: nat, command: Bytes, outcome: Outcome)
    requires Laws(sch) && |header| == HeaderLen(n) && SlotLen(n) <= |header|
    requires Says(sch, header[SlotLen(n)..], block, n, command, outcome)
    ensures Obey(sch, header, block, n, command) == Ok(outcome)
  {
    hide Laws, DecodeTriple, EncodeTriple, FillerSlot, Be, FromBe, HeaderLen, SlotLen, Shifted, Xor;
    match outcome
    case Deliver(payload, holonomy) =>
      var key, padding :|
        && |holonomy| == HASH_LEN && |key| == 32 && |payload| < 0x1_0000_0000
        && command == [DELIVER] + holonomy + key
        && Xor(block, Stream(sch, key, |block|)) == Be(|payload|, 4) + payload + padding;
      var plain := Xor(block, Stream(sch, key, |block|));
      FieldWidths();
      BeRoundTrip(|payload|, 4);
      assert plain[..4] == Be(|payload|, 4) && plain[4..4 + |payload|] == payload;
      assert command[1..KEY_AT] == holonomy && command[KEY_AT..CMD_LEN] == key;
    case Forward(next, onion) =>
      var key, spare :|
        && |spare| == 20 && |key| == 32 && command == [NEXT] + EncodeTriple(next) + spare + key
        && onion == header[SlotLen(n)..] + FillerSlot(sch, key, n) + Xor(block, Stream(sch, key, |block|));
      assert command[1..KEY_AT][..12] == EncodeTriple(next) && command[KEY_AT..CMD_LEN] == key;
      TripleRoundTrip(next);
      ShiftIs(sch, header, n, key);
  }

  // ----- Keys of their own -----

  lemma {:induction false} TagsDiffer(seed: Bytes, what: Bytes, j: nat, k: nat)
    requires j < 0x1_0000_0000 && k < 0x1_0000_0000 && Tag(seed, what, j) == Tag(seed, what, k)
    ensures j == k
  {
    hide Be;
    FieldWidths();
    BeRoundTrip(j, 4);
    BeRoundTrip(k, 4);
    var w := |seed + what|;
    assert Tag(seed, what, j)[w..] == Be(j, 4) && Tag(seed, what, k)[w..] == Be(k, 4);
  }

  /** Two hops of a circuit share a layer key or a payload key only by a collision of the hash, which is handed back. */
  lemma {:induction false} HopsHaveKeysOfTheirOwn(sch: Scheme, seed: Bytes, j: nat, k: nat) returns (c: Collision)
    requires j < k < 0x1_0000_0000
    requires LayerKey(sch, seed, j) == LayerKey(sch, seed, k) || PayloadKey(sch, seed, j) == PayloadKey(sch, seed, k)
    ensures IsCollision(sch, c)
  {
    hide Tag;
    if LayerKey(sch, seed, j) == LayerKey(sch, seed, k) {
      c := Collision(LayerKeyDomain, Tag(seed, LAYER, j), Tag(seed, LAYER, k));
      if c.one == c.two { TagsDiffer(seed, LAYER, j, k); }
    } else {
      c := Collision(PayloadKeyDomain, Tag(seed, KEYS, j), Tag(seed, KEYS, k));
      if c.one == c.two { TagsDiffer(seed, KEYS, j, k); }
    }
  }

  /** Two hops share a nonce only if the hash agrees, over the nonce's width, on two different inputs. */
  lemma {:induction false} NoncesMeetOnlyByHash(sch: Scheme, seed: Bytes, j: nat, k: nat) returns (x: Bytes, y: Bytes)
    requires j < k < 0x1_0000_0000 && LayerNonce(sch, seed, j) == LayerNonce(sch, seed, k)
    ensures x != y && First(sch.hash(LayerNonceDomain, x), NONCE_LEN) == First(sch.hash(LayerNonceDomain, y), NONCE_LEN)
  {
    hide Tag, First;
    x, y := Tag(seed, NONCE, j), Tag(seed, NONCE, k);
    if x == y { TagsDiffer(seed, NONCE, j, k); }
  }

  /** The coins of member `i` of hop `k`. */
  function Coins(seed: Bytes, k: nat, i: nat): Bytes { Tag(seed, KEM, k) + Be(i, 4) }

  /** No two members of a circuit are encapsulated to under the same coins. */
  lemma {:induction false} CoinsDiffer(seed: Bytes, j: nat, i: nat, k: nat, l: nat)
    requires i < 0x1_0000_0000 && j < 0x1_0000_0000 && k < 0x1_0000_0000 && l < 0x1_0000_0000
    requires Coins(seed, j, i) == Coins(seed, k, l)
    ensures j == k && i == l
  {
    hide Be, Tag;
    FieldWidths();
    BeRoundTrip(i, 4);
    BeRoundTrip(l, 4);
    assert |Tag(seed, KEM, j)| == |Tag(seed, KEM, k)| by { TagWidth(seed, KEM, j); TagWidth(seed, KEM, k); }
    var w := |Tag(seed, KEM, j)|;
    assert Coins(seed, j, i)[..w] == Tag(seed, KEM, j) && Coins(seed, k, l)[..w] == Tag(seed, KEM, k);
    assert Coins(seed, j, i)[w..] == Be(i, 4) && Coins(seed, k, l)[w..] == Be(l, 4);
    TagsDiffer(seed, KEM, j, k);
  }

  lemma {:induction false} TagWidth(seed: Bytes, what: Bytes, k: nat)
    ensures |Tag(seed, what, k)| == |seed| + |what| + 4
  {
    hide Be;
  }

  /** The share sealed to member `i` of hop `k` begins with the ciphertext drawn for that member from those coins. */
  lemma {:induction false} EveryShareIsForItsMember(sch: Scheme, job: Job, k: nat, i: nat)
    requires k < |job.hops| && i < |job.hops[k].members| && SealLayer(sch, job, k).Ok?
    ensures var sealed := SealLayer(sch, job, k).value.shares;
            var text := sch.encapsulate(job.hops[k].members[i], Coins(job.seed, k, i));
            i < |sealed| && text.Some? && text.value.0 <= sealed[i]
  {
    hide Tag, Be, KeyShares, Command, LayerNonce, LayerKey, SealShares;
    var shares, nonce := KeyShares(sch, job, k), LayerNonce(sch, job.seed, k);
    SealedAt(sch, nonce, shares, job.hops[k].members, Tag(job.seed, KEM, k), |job.hops[k].members|, i);
  }

  lemma {:induction false} SealedAt(
    sch: Scheme, nonce: Bytes, shares: seq<Share>, members: seq<nat>, seed: Bytes, n: nat, i: nat)
    requires i < n <= |shares| && n <= |members| && SealShares(sch, nonce, shares, members, seed, n).Some?
    ensures var sealed := SealShares(sch, nonce, shares, members, seed, n).value;
            |sealed| == n && SealShare(sch, nonce, shares[i], members[i], seed, i) == Some(sealed[i])
    decreases n
  {
    hide SealShare;
    if i < n - 1 {
      SealedAt(sch, nonce, shares, members, seed, n - 1, i);
    } else if n > 1 {
      SealedAt(sch, nonce, shares, members, seed, n - 1, 0);
    }
  }

  /** Every padding slot is a filler under a key of its own place. */
  lemma {:induction false} EveryPadHasItsPlace(sch: Scheme, seed: Bytes, n: nat, h: nat, i: nat)
    requires h + i < DepthFor(n)
    ensures i < |Pads(sch, seed, n, h)|
    ensures Pads(sch, seed, n, h)[i] == FillerSlot(sch, sch.hash(PadSlotDomain, Tag(seed, PAD, h + i)), n)
    decreases i
  {
    hide FillerSlot, Tag, DepthFor;
    if i > 0 { EveryPadHasItsPlace(sch, seed, n, h + 1, i - 1); }
  }
}
