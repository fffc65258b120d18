/**
 The threshold onion: a header of fixed-width slots, each sealed to the members of one hop line so that any
 threshold of them opens it, and a payload block under one keystream per hop.  A hop opens slot 0, strips its
 keystream, shifts the header and appends a filler slot, so every packet of a circuit has one width.
 */
module ThresholdOnion {
  import opened Symbolic
  import opened Octets
  import opened Primitives
  import opened Budget
  import opened PeelSearch
  import opened PathTag

  datatype Error = Malformed | TooLong | Sharing | Aead | NonContributory | HolonomyFail
  datatype Result<+T> = Ok(value: T) | Err(error: Error)

  /** A hop line and its members' keys, in order. */
  datatype Hop = Hop(line: Triple, members: seq<nat>)

  datatype Job = Job(hops: seq<Hop>, threshold: nat, payload: Bytes, seed: Bytes)

  datatype Outcome = Forward(next: Triple, onion: Bytes) | Deliver(payload: Bytes, holonomy: Bytes)

  const DELIVER: bv8 := 0
  const NEXT: bv8 := 1
  const KEY_AT: nat := 33
  const SEALED_CMD_LEN: nat := CMD_LEN + TAG_LEN

  // The separators of the seeds derived for one hop.
  const KEYS: Bytes := [0x70]
  const BLOCK: Bytes := [0x62, 0x6c, 0x6f, 0x63, 0x6b]
  const LAYER: Bytes := [0x6b]
  const NONCE: Bytes := [0x6e]
  const RANDOM: Bytes := [0x72]
  const KEM: Bytes := [0x6b, 0x65, 0x6d]
  const PAD: Bytes := [0x66]

  function Tag(seed: Bytes, what: Bytes, k: nat): Bytes { seed + what + Be(k, 4) }

  // ----- The path authenticator -----

  /** The encoded hop lines. */
  function LineChunks(lines: seq<Triple>): (chunks: seq<Bytes>)
    ensures |chunks| == |lines|
    ensures forall i :: 0 <= i < |lines| ==> chunks[i] == EncodeTriple(lines[i])
  {
    if lines == [] then [] else LineChunks(lines[..|lines| - 1]) + [EncodeTriple(lines[|lines| - 1])]
  }

  function Saturated(n: nat): nat { if n > 0xFFFF_FFFF then 0xFFFF_FFFF else n }

  function LineHolonomy(sch: Scheme, lines: seq<Triple>, holoseed: Bytes): Bytes {
    Finish(sch, Cascade(sch, LineChunks(lines), holoseed), Saturated(|lines|))
  }

  function Holoseed(sch: Scheme, seed: Bytes): Bytes { sch.hash(HoloseedDomain, seed) }

  function VerifyDelivery(sch: Scheme, lines: seq<Triple>, seed: Bytes, claimed: Bytes): Result<()> {
    if LineHolonomy(sch, lines, Holoseed(sch, seed)) == claimed then Ok(()) else Err(HolonomyFail)
  }

  method CircuitLineHolonomy(sch: Scheme, lines: seq<Triple>, holoseed: Bytes) returns (holonomy: Bytes)
    ensures holonomy == LineHolonomy(sch, lines, holoseed)
  {
    hide EncodeTriple;
    var state := holoseed;
    for k := 0 to |lines|
      invariant state == Cascade(sch, LineChunks(lines[..k]), holoseed)
    {
      assert lines[..k + 1][..k] == lines[..k];
      CascadeMore(sch, LineChunks(lines[..k]), EncodeTriple(lines[k]), holoseed);
      state := sch.hash(RatchetDomain, state + EncodeTriple(lines[k]));
    }
    assert lines[..|lines|] == lines;
    return Finish(sch, state, Saturated(|lines|));
  }

  /**
   The delivery check binds the whole path: a tag made for another circuit (inserted, substituted, reordered
   or missing hops) passes only by a collision of the hash.
   */
  lemma {:induction false} DeliveryBindsThePath(sch: Scheme, lines: seq<Triple>, other: seq<Triple>, seed: Bytes)
    returns (c: Collision)
    requires |lines| <= 0xFFFF_FFFF && |other| <= 0xFFFF_FFFF
    ensures VerifyDelivery(sch, lines, seed, LineHolonomy(sch, other, Holoseed(sch, seed))).Ok? ==>
            lines == other || IsCollision(sch, c)
    ensures lines == other ==> VerifyDelivery(sch, lines, seed, LineHolonomy(sch, other, Holoseed(sch, seed))).Ok?
  {
    hide Cascade, Finish, EncodeTriple;
    c := TagBinds(sch, LineChunks(lines), LineChunks(other), Holoseed(sch, seed), 12);
    if LineChunks(lines) == LineChunks(other) {
      forall i | 0 <= i < |lines|
        ensures lines[i] == other[i]
      {
        assert LineChunks(lines)[i] == LineChunks(other)[i];
        EncodingsDiffer(lines[i], other[i]);
      }
    }
  }

  // ----- Sealing one slot -----

  /** A layer sealed to a line: nonce, sealed command, one sealed share for each member. */
  datatype Layer = Layer(nonce: Bytes, ciphertext: Bytes, shares: seq<Bytes>)

  function ToBytes(s: Layer): Bytes {
    s.nonce + Be(|s.shares|, 2) + Be(|s.ciphertext|, 4) + s.ciphertext + Concat(s.shares)
  }

  function ReadShares(bytes: Bytes, n: nat): Option<seq<Bytes>> {
    if n == 0 then Some([])
    else if |bytes| < SEALED_SHARE_LEN then None
    else
      match ReadShares(bytes[SEALED_SHARE_LEN..], n - 1)
      case None => None
      case Some(rest) => Some([bytes[..SEALED_SHARE_LEN]] + rest)
  }

  function FromBytes(bytes: Bytes): Option<Layer> {
    if |bytes| < 18 then None
    else
      var members, width := FromBe(bytes[12..14]), FromBe(bytes[14..18]);
      if 18 + width > |bytes| then None
      else
        match ReadShares(bytes[18 + width..], members)
        case None => None
        case Some(shares) => Some(Layer(bytes[..12], bytes[18..18 + width], shares))
  }

  lemma {:induction false} SharesRoundTrip(shares: seq<Bytes>)
    requires AllWide(shares, SEALED_SHARE_LEN)
    ensures ReadShares(Concat(shares), |shares|) == Some(shares)
  {
    if shares != [] {
      assert shares == [shares[0]] + shares[1..];
      ConcatSum([shares[0]], shares[1..]);
      ConcatOne(shares[0]);
      var bytes := Concat(shares);
      assert bytes[..SEALED_SHARE_LEN] == shares[0] && bytes[SEALED_SHARE_LEN..] == Concat(shares[1..]);
      SharesRoundTrip(shares[1..]);
    }
  }

  lemma {:induction false} LayerRoundTrip(s: Layer)
    requires |s.nonce| == NONCE_LEN && |s.shares| < 0x1_0000 && |s.ciphertext| < 0x1_0000_0000
    requires AllWide(s.shares, SEALED_SHARE_LEN)
    ensures FromBytes(ToBytes(s)) == Some(s)
  {
    hide Concat, ReadShares, Be, FromBe;
    FieldWidths();
    BeRoundTrip(|s.shares|, 2);
    BeRoundTrip(|s.ciphertext|, 4);
    SharesRoundTrip(s.shares);
    var bytes, width := ToBytes(s), |s.ciphertext|;
    assert bytes[..12] == s.nonce && bytes[12..14] == Be(|s.shares|, 2) && bytes[14..18] == Be(width, 4);
    assert bytes[18..18 + width] == s.ciphertext && bytes[18 + width..] == Concat(s.shares);
  }

  function ShareBytes(share: Share): Bytes { [ByteOf(share.x)] + share.y }

  function ReadShare(b: Bytes): Option<Share> {
    if |b| < SHARE_LEN then None else Some(Share(Value(b[0]), b[1..SHARE_LEN]))
  }

  /** Seal a share to a member, under coins drawn from the hop's seed and the member's position. */
  function SealShare(sch: Scheme, nonce: Bytes, share: Share, member: nat, seed: Bytes, i: nat): Option<Bytes> {
    match sch.encapsulate(member, seed + Be(i, 4))
    case None => None
    case Some((text, session)) => Some(text + sch.seal(sch.hash(ShareKeyDomain, session), nonce, ShareBytes(share)))
  }

  /** The first `n` members' sealed shares. */
  function SealShares(sch: Scheme, nonce: Bytes, shares: seq<Share>, members: seq<nat>, seed: Bytes, n: nat): Option<seq<Bytes>>
    requires n <= |shares| && n <= |members|
    decreases n
  {
    if n == 0 then Some([])
    else
      match SealShares(sch, nonce, shares, members, seed, n - 1)
      case None => None
      case Some(before) =>
        match SealShare(sch, nonce, shares[n - 1], members[n - 1], seed, n - 1)
        case None => None
        case Some(sealed) => Some(before + [sealed])
  }

  function PayloadKey(sch: Scheme, seed: Bytes, k: nat): Bytes { sch.hash(PayloadKeyDomain, Tag(seed, KEYS, k)) }

  function LayerKey(sch: Scheme, seed: Bytes, k: nat): Bytes { sch.hash(LayerKeyDomain, Tag(seed, LAYER, k)) }

  function LayerNonce(sch: Scheme, seed: Bytes, k: nat): Bytes {
    First(sch.hash(LayerNonceDomain, Tag(seed, NONCE, k)), NONCE_LEN)
  }

  function Lines(hops: seq<Hop>): (lines: seq<Triple>)
    ensures |lines| == |hops|
    ensures forall i :: 0 <= i < |hops| ==> lines[i] == hops[i].line
  {
    if hops == [] then [] else Lines(hops[..|hops| - 1]) + [hops[|hops| - 1].line]
  }

  function Holonomy(sch: Scheme, job: Job): Bytes { LineHolonomy(sch, Lines(job.hops), Holoseed(sch, job.seed)) }

  /** A command byte and its operand, padded to one width. */
  function Padded(b: Bytes): Bytes { if |b| < KEY_AT then b + Zeros(KEY_AT - |b|) else b[..KEY_AT] }

  /** The command for hop `k`: the next line or delivery, and the hop's payload key. */
  function Command(sch: Scheme, job: Job, k: nat): Bytes
    requires k < |job.hops|
  {
    var head := if k == |job.hops| - 1 then [DELIVER] + Holonomy(sch, job) else [NEXT] + EncodeTriple(job.hops[k + 1].line);
    Padded(head) + PayloadKey(sch, job.seed, k)
  }

  function KeyShares(sch: Scheme, job: Job, k: nat): seq<Share>
    requires k < |job.hops| && job.threshold > 0
  {
    sch.split(LayerKey(sch, job.seed, k), job.threshold, |job.hops[k].members|,
              sch.xof(SharingDomain, Tag(job.seed, RANDOM, k), (job.threshold - 1) * 32))
  }

  function SealLayer(sch: Scheme, job: Job, k: nat): Result<Layer>
    requires k < |job.hops|
  {
    var n, t := |job.hops[k].members|, job.threshold;
    if n > 255 || t == 0 || t > n then Err(Sharing)
    else
      var shares := KeyShares(sch, job, k);
      if |shares| < n then Err(Sharing)
      else
        var nonce := LayerNonce(sch, job.seed, k);
        match SealShares(sch, nonce, shares, job.hops[k].members, Tag(job.seed, KEM, k), n)
        case None => Err(NonContributory)
        case Some(sealed) => Ok(Layer(nonce, sch.seal(LayerKey(sch, job.seed, k), nonce, Command(sch, job, k)), sealed))
  }

  // ----- Sealing the whole circuit -----

  /** The slots of the first `n` hops. */
  function Slots(sch: Scheme, job: Job, n: nat): Result<seq<Bytes>>
    requires n <= |job.hops|
    decreases n
  {
    if n == 0 then Ok([])
    else
      match Slots(sch, job, n - 1)
      case Err(e) => Err(e)
      case Ok(before) =>
        match SealLayer(sch, job, n - 1)
        case Err(e) => Err(e)
        case Ok(sealed) =>
          var bytes := ToBytes(sealed);
          if |bytes| != SlotLen(|job.hops[0].members|) then Err(Malformed) else Ok(before + [bytes])
  }

  /** A slot of keystream, framed like a sealed one. */
  function FillerSlot(sch: Scheme, key: Bytes, lineSize: nat): Bytes {
    sch.xof(FillerNonceStream, key, NONCE_LEN)
    + Be(if lineSize > 0xFFFF then 0xFFFF else lineSize, 2) + Be(SEALED_CMD_LEN, 4)
    + sch.xof(FillerStream, key, SEALED_CMD_LEN + lineSize * SEALED_SHARE_LEN)
  }

  /** The fillers that pad a header of `n` hops. */
  function Pads(sch: Scheme, seed: Bytes, lineSize: nat, n: nat): seq<Bytes>
    decreases DepthFor(lineSize) - n
  {
    if n >= DepthFor(lineSize) then []
    else [PadSlot(sch, seed, lineSize, n)] + Pads(sch, seed, lineSize, n + 1)
  }

  function PadSlot(sch: Scheme, seed: Bytes, lineSize: nat, k: nat): Bytes {
    FillerSlot(sch, sch.hash(PadSlotDomain, Tag(seed, PAD, k)), lineSize)
  }

  function PayloadLen(lineSize: nat): Option<nat> {
    var rest := OnionLen(lineSize) - HeaderLen(lineSize);
    if rest > 4 then Some(rest) else None
  }

  function Pack(sch: Scheme, payload: Bytes, lineSize: nat, seed: Bytes): Result<Bytes> {
    match PayloadLen(lineSize)
    case None => Err(TooLong)
    case Some(width) =>
      if |payload| + 4 > width then Err(TooLong)
      else
        var length := if |payload| > 0xFFFF_FFFF then 0xFFFF_FFFF else |payload|;
        Ok(Be(length, 4) + payload + sch.xof(BlockPadStream, seed, width - 4 - |payload|))
  }

  function Unpack(block: Bytes): Option<Bytes> {
    if |block| < 4 then None
    else
      var n := FromBe(block[..4]);
      if 4 + n > |block| then None else Some(block[4..4 + n])
  }

  function Stream(sch: Scheme, key: Bytes, n: nat): Bytes { sch.xof(PayloadStream, key, n) }

  /** The block under the keystreams of hops `k..n`, hop `k` outermost. */
  function Layered(sch: Scheme, block: Bytes, seed: Bytes, k: nat, n: nat): (r: Bytes)
    ensures |r| == |block|
    decreases n - k
  {
    if k >= n then block
    else Xor(Layered(sch, block, seed, k + 1, n), Stream(sch, PayloadKey(sch, seed, k), |block|))
  }

  predicate Uniform(hops: seq<Hop>, n: nat) {
    forall i :: 0 <= i < |hops| ==> |hops[i].members| == n
  }

  function Seal(sch: Scheme, job: Job): Result<Bytes> {
    if job.hops == [] then Err(Malformed)
    else
      var h, n := |job.hops|, |job.hops[0].members|;
      if n == 0 || !Uniform(job.hops, n) then Err(Malformed)
      else if h > DepthFor(n) then Err(TooLong)
      else
        match Pack(sch, job.payload, n, Tag(job.seed, BLOCK, 0))
        case Err(e) => Err(e)
        case Ok(block) =>
          match Slots(sch, job, h)
          case Err(e) => Err(e)
          case Ok(slots) => Ok(Concat(slots + Pads(sch, job.seed, n, h)) + Layered(sch, block, job.seed, 0, h))
  }

  /** Build the onion: the block layer by layer from the last hop, then the header slot by slot. */
  method SealOnion(sch: Scheme, job: Job) returns (r: Result<Bytes>)
    ensures r == Seal(sch, job)
  {
    if job.hops == [] { return Err(Malformed); }
    var h, n := |job.hops|, |job.hops[0].members|;
    if n == 0 || !Uniform(job.hops, n) { return Err(Malformed); }
    if h > DepthFor(n) { return Err(TooLong); }
    var packed := Pack(sch, job.payload, n, Tag(job.seed, BLOCK, 0));
    if packed.Err? { return Err(packed.error); }
    var block := LayerBlock(sch, packed.value, job.seed, h);
    var header := BuildHeader(sch, job);
    if header.Err? { return Err(header.error); }
    return Ok(header.value + block);
  }

  method LayerBlock(sch: Scheme, packed: Bytes, seed: Bytes, h: nat) returns (r: Bytes)
    ensures r == Layered(sch, packed, seed, 0, h)
  {
    hide Xor, Layered;
    var block := new bv8[|packed|](i requires 0 <= i < |packed| => packed[i]);
    assert block[..] == packed;
    var k := h;
    Layers(sch, packed, seed, h, h);
    while k > 0
      invariant 0 <= k <= h
      invariant block[..] == Layered(sch, packed, seed, k, h)
    {
      k := k - 1;
      Layers(sch, packed, seed, k, h);
      XorInPlace(block, Stream(sch, PayloadKey(sch, seed, k), block.Length));
    }
    return block[..];
  }

  lemma {:induction false} Layers(sch: Scheme, block: Bytes, seed: Bytes, k: nat, h: nat)
    ensures k == h ==> Layered(sch, block, seed, k, h) == block
    ensures k < h ==> Layered(sch, block, seed, k, h) ==
                      Xor(Layered(sch, block, seed, k + 1, h), Stream(sch, PayloadKey(sch, seed, k), |block|))
  {
  }

  method BuildHeader(sch: Scheme, job: Job) returns (r: Result<Bytes>)
    requires job.hops != [] && |job.hops| <= DepthFor(|job.hops[0].members|)
    ensures r == match Slots(sch, job, |job.hops|)
                 case Err(e) => Err(e)
                 case Ok(slots) => Ok(Concat(slots + Pads(sch, job.seed, |job.hops[0].members|, |job.hops|)))
  {
    hide SealLayer, ToBytes, Pads, DepthFor;
    var n := |job.hops[0].members|;
    var header: Bytes := [];
    ghost var slots: seq<Bytes> := [];
    for k := 0 to |job.hops|
      invariant Slots(sch, job, k) == Ok(slots) && header == Concat(slots)
    {
      var sealed := SealLayer(sch, job, k);
      if sealed.Err? {
        SlotsFail(sch, job, k + 1);
        return Err(sealed.error);
      }
      var bytes := ToBytes(sealed.value);
      if |bytes| != SlotLen(n) {
        SlotsFail(sch, job, k + 1);
        return Err(Malformed);
      }
      ConcatMore(slots, bytes);
      slots := slots + [bytes];
      header := header + bytes;
    }
    ConcatSum(slots, Pads(sch, job.seed, n, |job.hops|));
    var pads := PadHeader(sch, job.seed, n, |job.hops|);
    return Ok(header + pads);
  }

  method PadHeader(sch: Scheme, seed: Bytes, n: nat, h: nat) returns (r: Bytes)
    ensures r == Concat(Pads(sch, seed, n, h))
  {
    hide FillerSlot, DepthFor, Concat, Pads;
    r := [];
    ghost var pads: seq<Bytes> := [];
    ConcatNone();
    var k := h;
    while k < DepthFor(n)
      invariant Pads(sch, seed, n, h) == pads + Pads(sch, seed, n, k) && r == Concat(pads)
    {
      var filler := PadSlot(sch, seed, n, k);
      ConcatMore(pads, filler);
      PadsAfter(sch, seed, n, k, pads);
      pads := pads + [filler];
      r := r + filler;
      k := k + 1;
    }
    PadsAfter(sch, seed, n, k, pads);
  }

  lemma {:induction false} PadsAfter(sch: Scheme, seed: Bytes, n: nat, k: nat, before: seq<Bytes>)
    ensures k < DepthFor(n) ==>
            before + Pads(sch, seed, n, k) == before + [PadSlot(sch, seed, n, k)] + Pads(sch, seed, n, k + 1)
    ensures k >= DepthFor(n) ==> before + Pads(sch, seed, n, k) == before
  {
    hide DepthFor, FillerSlot;
  }

  lemma {:induction false} SlotsFail(sch: Scheme, job: Job, n: nat)
    requires n <= |job.hops| && Slots(sch, job, n).Err?
    ensures Slots(sch, job, |job.hops|) == Slots(sch, job, n)
    decreases |job.hops| - n
  {
    if n < |job.hops| { SlotsFail(sch, job, n + 1); }
  }

  // ----- Peeling one hop -----

  /** The share that a member's key opens in a layer. */
  function MemberShare(sch: Scheme, s: Layer, i: nat, holder: nat): Option<Share> {
    if i >= |s.shares| || |s.shares[i]| < KEM_CIPHERTEXT_LEN then None
    else
      match sch.decapsulate(holder, s.shares[i][..KEM_CIPHERTEXT_LEN])
      case None => None
      case Some(session) =>
        match sch.open(sch.hash(ShareKeyDomain, session), s.nonce, s.shares[i][KEM_CIPHERTEXT_LEN..])
        case None => None
        case Some(bytes) => ReadShare(bytes)
  }

  function OpenLayer(sch: Scheme, s: Layer, shares: seq<Share>): Result<Bytes> {
    match sch.reconstruct(shares)
    case None => Err(Sharing)
    case Some(key) =>
      if |key| != 32 then Err(Malformed)
      else match sch.open(key, s.nonce, s.ciphertext) case None => Err(Aead) case Some(cmd) => Ok(cmd)
  }

  /** Parse a packet against this node's own line size and read slot 0. */
  function OpenSlot0(onion: Bytes, lineSize: nat): Result<Layer> {
    if |onion| != OnionLen(lineSize) then Err(Malformed)
    else
      EveryPlaneReachesTheTarget(lineSize);
      match FromBytes(onion[..SlotLen(lineSize)])
      case None => Err(Malformed)
      case Some(s) => if |s.shares| != lineSize then Err(Malformed) else Ok(s)
  }

  /** The header shifted one slot left, a filler in the freed place, the width kept. */
  function Shifted(header: Bytes, filler: Bytes, width: nat): Bytes
    requires width > 0
  {
    if |header| < width then header else First(header[width..] + filler, |header| / width * width)
  }

  /** Act on an opened command. */
  function Obey(sch: Scheme, header: Bytes, payload: Bytes, lineSize: nat, cmd: Bytes): Result<Outcome> {
    if |cmd| != CMD_LEN then Err(Malformed)
    else
      var operand, key := cmd[1..KEY_AT], cmd[KEY_AT..CMD_LEN];
      var block := Xor(payload, Stream(sch, key, |payload|));
      if cmd[0] == DELIVER then
        match Unpack(block) case None => Err(Malformed) case Some(text) => Ok(Deliver(text, operand))
      else if cmd[0] == NEXT then
        Ok(Forward(DecodeTriple(operand[..12]), Shifted(header, FillerSlot(sch, key, lineSize), SlotLen(lineSize)) + block))
      else Err(Malformed)
  }

  /** Peel with gathered shares. */
  function Peel(sch: Scheme, onion: Bytes, lineSize: nat, shares: seq<Share>): Result<Outcome> {
    match OpenSlot0(onion, lineSize)
    case Err(e) => Err(e)
    case Ok(s) =>
      match OpenLayer(sch, s, shares)
      case Err(e) => Err(e)
      case Ok(cmd) =>
        EveryPlaneReachesTheTarget(lineSize);
        Obey(sch, onion[..HeaderLen(lineSize)], onion[HeaderLen(lineSize)..], lineSize, cmd)
  }

  /** The shares that the members at these positions, with these keys, open. */
  function Gather(sch: Scheme, s: Layer, members: seq<(nat, nat)>): seq<Share>
    decreases |members|
  {
    if members == [] then []
    else
      var (i, holder) := members[|members| - 1];
      Gather(sch, s, members[..|members| - 1]) +
      match MemberShare(sch, s, i, holder) case None => [] case Some(share) => [share]
  }

  /** Peel with the members' secrets. */
  function PeelOnion(sch: Scheme, onion: Bytes, lineSize: nat, members: seq<(nat, nat)>): Result<Outcome> {
    match OpenSlot0(onion, lineSize)
    case Err(e) => Err(e)
    case Ok(s) => Peel(sch, onion, lineSize, Gather(sch, s, members))
  }

  /** A packet being processed: its header and its payload are changed in place. */
  class Packet {
    const lineSize: nat
    var header: Bytes
    const payload: array<bv8>

    constructor (onion: Bytes, lineSize: nat)
      requires |onion| == OnionLen(lineSize)
      ensures this.lineSize == lineSize && fresh(payload)
      ensures HeaderLen(lineSize) <= |onion| && header == onion[..HeaderLen(lineSize)]
      ensures payload[..] == onion[HeaderLen(lineSize)..]
    {
      EveryPlaneReachesTheTarget(lineSize);
      this.lineSize := lineSize;
      header := onion[..HeaderLen(lineSize)];
      var rest := onion[HeaderLen(lineSize)..];
      payload := new bv8[|rest|](i requires 0 <= i < |rest| => rest[i]);
    }

    method ShiftIn(filler: Bytes)
      modifies this
      ensures header == Shifted(old(header), filler, SlotLen(lineSize))
    {
      var width := SlotLen(lineSize);
      var slots := |header| / width;
      if |header| < width { return; }
      header := header[width..];
      header := header + filler;
      header := First(header, slots * width);
    }

    method Process(sch: Scheme, cmd: Bytes) returns (r: Result<Outcome>)
      modifies this, payload
      ensures r == Obey(sch, old(header), old(payload[..]), lineSize, cmd)
    {
      if |cmd| != CMD_LEN { return Err(Malformed); }
      var operand, key := cmd[1..KEY_AT], cmd[KEY_AT..CMD_LEN];
      XorInPlace(payload, Stream(sch, key, payload.Length));
      if cmd[0] == DELIVER {
        var text := Unpack(payload[..]);
        return if text.None? then Err(Malformed) else Ok(Deliver(text.value, operand));
      } else if cmd[0] == NEXT {
        ShiftIn(FillerSlot(sch, key, lineSize));
        return Ok(Forward(DecodeTriple(operand[..12]), header + payload[..]));
      }
      return Err(Malformed);
    }
  }

  method PeelWithShares(sch: Scheme, onion: Bytes, lineSize: nat, shares: seq<Share>) returns (r: Result<Outcome>)
    ensures r == Peel(sch, onion, lineSize, shares)
  {
    var opened0 := OpenSlot0(onion, lineSize);
    if opened0.Err? { return Err(opened0.error); }
    var cmd := OpenLayer(sch, opened0.value, shares);
    if cmd.Err? { return Err(cmd.error); }
    var packet := new Packet(onion, lineSize);
    r := packet.Process(sch, cmd.value);
  }
}
