/**
 A sealed threshold onion over its whole circuit: exactly when it can be built, what packet each hop receives,
 and that peeling it hop by hop visits the lines in order and delivers the payload.
 */
module ThresholdCircuit {
  import opened Symbolic
  import opened Octets
  import opened Primitives
  import opened Budget
  import opened PeelSearch
  import opened PathTag
  import opened ThresholdOnion

  // ----- When a circuit can be sealed -----

  /** Every member key of hop `k` yields a contributory encapsulation. */
  ghost predicate Contributory(sch: Scheme, job: Job, k: nat)
    requires k < |job.hops|
  {
    CanSeal(sch, job.hops[k].members, Tag(job.seed, KEM, k), |job.hops[k].members|)
  }

  ghost predicate CanSeal(sch: Scheme, members: seq<nat>, seed: Bytes, n: nat)
    requires n <= |members|
  {
    forall i :: 0 <= i < n ==> sch.encapsulate(members[i], seed + Be(i, 4)).Some?
  }

  ghost predicate AllContributory(sch: Scheme, job: Job, n: nat)
    requires n <= |job.hops|
  {
    forall k :: 0 <= k < n ==> Contributory(sch, job, k)
  }

  function LineSize(job: Job): nat { if job.hops == [] then 0 else |job.hops[0].members| }

  /** The sharing parameters a line allows: 1 to 255 members, a threshold among them. */
  predicate Shareable(job: Job) { 0 < job.threshold <= LineSize(job) <= 255 }

  predicate WellShaped(job: Job) {
    job.hops != [] && LineSize(job) > 0 && Uniform(job.hops, LineSize(job))
  }

  predicate WellSized(job: Job) {
    |job.hops| <= TARGET_DEPTH && |job.payload| + 4 <= OnionLen(LineSize(job)) - HeaderLen(LineSize(job))
  }

  /** Why a circuit is refused, if it is. */
  ghost function Refusal(sch: Scheme, job: Job): Option<Error> {
    if !WellShaped(job) then Some(Malformed)
    else if !WellSized(job) then Some(TooLong)
    else if !Shareable(job) then Some(Sharing)
    else if !AllContributory(sch, job, |job.hops|) then Some(NonContributory)
    else None
  }

  ghost predicate Sealable(sch: Scheme, job: Job) {
    && WellShaped(job) && WellSized(job) && Shareable(job)
    && AllContributory(sch, job, |job.hops|)
  }

  // ----- The packet each hop receives -----

  /** The layer of hop `k`. */
  function TheLayer(sch: Scheme, job: Job, k: nat): Layer
    requires k < |job.hops|
  {
    match SealLayer(sch, job, k) case Ok(layer) => layer case Err(_) => Layer([], [], [])
  }

  /** The slots of hops `j` on. */
  function RealSlots(sch: Scheme, job: Job, j: nat): seq<Bytes>
    decreases |job.hops| - j
  {
    if j >= |job.hops| then [] else [ToBytes(TheLayer(sch, job, j))] + RealSlots(sch, job, j + 1)
  }

  /** The fillers that the first `j` hops appended. */
  function Fillers(sch: Scheme, job: Job, j: nat): seq<Bytes>
    decreases j
  {
    if j == 0 then []
    else Fillers(sch, job, j - 1) + [FillerSlot(sch, PayloadKey(sch, job.seed, j - 1), LineSize(job))]
  }

  /** The slots behind the first once `j` hops are peeled. */
  function Behind(sch: Scheme, job: Job, j: nat): seq<Bytes> {
    RealSlots(sch, job, j + 1) + Pads(sch, job.seed, LineSize(job), |job.hops|) + Fillers(sch, job, j)
  }

  /** The header once `j` hops are peeled: the remaining slots, the padding, and a filler for each peeled hop. */
  function HeaderSlots(sch: Scheme, job: Job, j: nat): seq<Bytes> {
    RealSlots(sch, job, j) + Pads(sch, job.seed, LineSize(job), |job.hops|) + Fillers(sch, job, j)
  }

  function PackedBlock(sch: Scheme, job: Job): Bytes {
    match Pack(sch, job.payload, LineSize(job), Tag(job.seed, BLOCK, 0)) case Ok(block) => block case Err(_) => []
  }

  /** The packet once `j` hops are peeled: that header, and the block under the remaining keystreams. */
  function OnionAt(sch: Scheme, job: Job, j: nat): Bytes {
    Concat(HeaderSlots(sch, job, j)) + Layered(sch, PackedBlock(sch, job), job.seed, j, |job.hops|)
  }

  // ----- Sealing -----

  predicate SharesFit(shares: seq<Share>, n: nat) {
    |shares| == n && forall i :: 0 <= i < n ==> shares[i].x == i + 1 && |shares[i].y| == HASH_LEN
  }

  function Coins(sch: Scheme, job: Job, k: nat): Bytes
    requires job.threshold > 0
  {
    sch.xof(SharingDomain, Tag(job.seed, RANDOM, k), (job.threshold - 1) * 32)
  }

  lemma {:induction false} KeySharesFit(sch: Scheme, job: Job, k: nat)
    requires Laws(sch) && WellShaped(job) && Shareable(job) && k < |job.hops|
    ensures SharesFit(KeyShares(sch, job, k), LineSize(job))
  {
    hide Laws;
    var key := LayerKey(sch, job.seed, k);
    HashWidth(sch, LayerKeyDomain, Tag(job.seed, LAYER, k));
    SharesReconstruct(sch, key, job.threshold, LineSize(job), Coins(sch, job, k), []);
  }

  lemma {:induction false} ShareSeals(sch: Scheme, nonce: Bytes, share: Share, member: nat, seed: Bytes, i: nat)
    requires Laws(sch) && |share.y| == HASH_LEN
    ensures var r := SealShare(sch, nonce, share, member, seed, i);
            && (r.Some? <==> sch.encapsulate(member, seed + Be(i, 4)).Some?)
            && (r.Some? ==> |r.value| == SEALED_SHARE_LEN)
  {
    hide Laws;
    var coins := seed + Be(i, 4);
    if sch.encapsulate(member, coins).Some? {
      KemOpens(sch, member, coins);
      SealOpens(sch, sch.hash(ShareKeyDomain, sch.encapsulate(member, coins).value.1), nonce, ShareBytes(share));
    }
  }

  /** `sealed` are the shares, each sealed to its member. */
  ghost predicate SealsEach(
    sch: Scheme, nonce: Bytes, shares: seq<Share>, members: seq<nat>, seed: Bytes, sealed: seq<Bytes>)
  {
    && |sealed| <= |shares| && |sealed| <= |members|
    && AllWide(sealed, SEALED_SHARE_LEN)
    && (forall i :: 0 <= i < |sealed| ==> SealShare(sch, nonce, shares[i], members[i], seed, i) == Some(sealed[i]))
  }

  lemma {:induction false} SharesSeal(
    sch: Scheme, nonce: Bytes, shares: seq<Share>, members: seq<nat>, seed: Bytes, n: nat)
    requires Laws(sch) && n <= |shares| && n <= |members|
    requires forall i :: 0 <= i < |shares| ==> |shares[i].y| == HASH_LEN
    ensures var r := SealShares(sch, nonce, shares, members, seed, n);
            && (r.Some? <==> CanSeal(sch, members, seed, n))
            && (r.Some? ==> |r.value| == n && SealsEach(sch, nonce, shares, members, seed, r.value))
  {
    hide Laws, SealShare, CanSeal, SealsEach;
    if n == 0 {
      NoneSealed(sch, nonce, shares, members, seed);
    } else {
      SharesSeal(sch, nonce, shares, members, seed, n - 1);
      ShareSeals(sch, nonce, shares[n - 1], members[n - 1], seed, n - 1);
      CanSealMore(sch, members, seed, n);
      var before := SealShares(sch, nonce, shares, members, seed, n - 1);
      var last := SealShare(sch, nonce, shares[n - 1], members[n - 1], seed, n - 1);
      if before.Some? && last.Some? { OneMoreSealed(sch, nonce, shares, members, seed, before.value, last.value); }
    }
  }

  lemma {:induction false} NoneSealed(sch: Scheme, nonce: Bytes, shares: seq<Share>, members: seq<nat>, seed: Bytes)
    ensures CanSeal(sch, members, seed, 0) && SealsEach(sch, nonce, shares, members, seed, [])
  {
  }

  lemma {:induction false} CanSealMore(sch: Scheme, members: seq<nat>, seed: Bytes, n: nat)
    requires 0 < n <= |members|
    ensures CanSeal(sch, members, seed, n) <==>
            CanSeal(sch, members, seed, n - 1) && sch.encapsulate(members[n - 1], seed + Be(n - 1, 4)).Some?
  {
    hide Be;
  }

  lemma {:induction false} OneMoreSealed(
    sch: Scheme, nonce: Bytes, shares: seq<Share>, members: seq<nat>, seed: Bytes, before: seq<Bytes>, last: Bytes)
    requires SealsEach(sch, nonce, shares, members, seed, before)
    requires |before| < |shares| && |before| < |members| && |last| == SEALED_SHARE_LEN
    requires SealShare(sch, nonce, shares[|before|], members[|before|], seed, |before|) == Some(last)
    ensures SealsEach(sch, nonce, shares, members, seed, before + [last])
  {
    hide SealShare;
  }

  lemma {:induction false} CommandWidth(sch: Scheme, job: Job, k: nat)
    requires Laws(sch) && k < |job.hops|
    ensures |Command(sch, job, k)| == CMD_LEN
  {
    hide Laws;
    HashWidth(sch, PayloadKeyDomain, Tag(job.seed, KEYS, k));
  }

  /** The layer of a hop exists exactly when its keys are contributory, and then has the slot's shape. */
  lemma {:induction false} LayerSeals(sch: Scheme, job: Job, k: nat)
    requires Laws(sch) && WellShaped(job) && Shareable(job) && k < |job.hops|
    ensures var r := SealLayer(sch, job, k);
            && (Contributory(sch, job, k) ==> r.Ok? && WellFramed(r.value, LineSize(job)))
            && (!Contributory(sch, job, k) ==> r == Err(NonContributory))
  {
    hide Laws, SealShares, Command, KeyShares, CanSeal;
    KeySharesFit(sch, job, k);
    var nonce := LayerNonce(sch, job.seed, k);
    SharesSeal(sch, nonce, KeyShares(sch, job, k), job.hops[k].members, Tag(job.seed, KEM, k), LineSize(job));
    CommandWidth(sch, job, k);
    HashWidth(sch, LayerNonceDomain, Tag(job.seed, NONCE, k));
    SealOpens(sch, LayerKey(sch, job.seed, k), nonce, Command(sch, job, k));
  }

  predicate WellFramed(layer: Layer, n: nat) {
    && |layer.nonce| == NONCE_LEN && |layer.ciphertext| == SEALED_CMD_LEN
    && |layer.shares| == n && AllWide(layer.shares, SEALED_SHARE_LEN)
  }

  lemma {:induction false} FramedWidth(layer: Layer, n: nat)
    requires WellFramed(layer, n)
    ensures |ToBytes(layer)| == SlotLen(n)
  {
    ConcatWidth(layer.shares, SEALED_SHARE_LEN);
  }

  lemma {:induction false} SlotsSeal(sch: Scheme, job: Job, n: nat)
    requires Laws(sch) && WellShaped(job) && Shareable(job) && n <= |job.hops|
    ensures var r := Slots(sch, job, n);
            && (AllContributory(sch, job, n) ==> r.Ok? && r.value + RealSlots(sch, job, n) == RealSlots(sch, job, 0))
            && (!AllContributory(sch, job, n) ==> r == Err(NonContributory))
  {
    hide Laws, SealLayer, ToBytes, Contributory, WellFramed;
    if n == 0 {
      assert [] + RealSlots(sch, job, 0) == RealSlots(sch, job, 0);
    } else {
      SlotsSeal(sch, job, n - 1);
      LayerSeals(sch, job, n - 1);
      if AllContributory(sch, job, n) {
        assert Contributory(sch, job, n - 1);
        var bytes := ToBytes(TheLayer(sch, job, n - 1));
        FramedWidth(TheLayer(sch, job, n - 1), LineSize(job));
        var before := Slots(sch, job, n - 1).value;
        assert before + ([bytes] + RealSlots(sch, job, n)) == (before + [bytes]) + RealSlots(sch, job, n);
      }
    }
  }

  lemma {:induction false} BlockPacks(sch: Scheme, job: Job)
    requires Laws(sch)
    ensures var n := LineSize(job);
            var r := Pack(sch, job.payload, n, Tag(job.seed, BLOCK, 0));
            if |job.payload| + 4 <= OnionLen(n) - HeaderLen(n)
            then r.Ok? && |r.value| == OnionLen(n) - HeaderLen(n) else r == Err(TooLong)
  {
    hide Laws, OnionLen, HeaderLen, Be, Tag, LineSize;
    var n := LineSize(job);
    EveryPlaneReachesTheTarget(n);
    assert PayloadLen(n) == Some(OnionLen(n) - HeaderLen(n));
    if |job.payload| + 4 <= OnionLen(n) - HeaderLen(n) {
      XofWidth(sch, BlockPadStream, Tag(job.seed, BLOCK, 0), OnionLen(n) - HeaderLen(n) - 4 - |job.payload|);
    }
  }

  /** The onion is built exactly when nothing refuses the circuit, and is then the first hop's packet. */
  lemma {:induction false} SealVerdict(sch: Scheme, job: Job)
    requires Laws(sch)
    ensures Seal(sch, job) ==
            match Refusal(sch, job) case Some(e) => Err(e) case None => Ok(OnionAt(sch, job, 0))
  {
    hide Laws, Slots, Pads, Layered, Pack, OnionLen, HeaderLen, RealSlots, Concat, DepthFor, AllContributory, SealLayer;
    if WellShaped(job) {
      EveryPlaneReachesTheTarget(LineSize(job));
      BlockPacks(sch, job);
      if WellSized(job) {
        if Shareable(job) { SlotsAreHeader(sch, job); } else { NotShareable(sch, job, |job.hops|); }
      }
    }
  }

  lemma {:induction false} SlotsAreHeader(sch: Scheme, job: Job)
    requires Laws(sch) && WellShaped(job) && Shareable(job)
    ensures var r := Slots(sch, job, |job.hops|);
            && (AllContributory(sch, job, |job.hops|) ==>
                  r.Ok? && r.value + Pads(sch, job.seed, LineSize(job), |job.hops|) == HeaderSlots(sch, job, 0))
            && (!AllContributory(sch, job, |job.hops|) ==> r == Err(NonContributory))
  {
    hide Laws, Slots, Pads, AllContributory, RealSlots, WellShaped;
    SlotsSeal(sch, job, |job.hops|);
    Ends(sch, job);
    var r := Slots(sch, job, |job.hops|);
    if r.Ok? { SumsWithNothing(r.value, Pads(sch, job.seed, LineSize(job), |job.hops|)); }
  }

  lemma {:induction false} Ends(sch: Scheme, job: Job)
    ensures RealSlots(sch, job, |job.hops|) == [] && Fillers(sch, job, 0) == []
  {
  }

  lemma {:induction false} SumsWithNothing(a: seq<Bytes>, b: seq<Bytes>)
    ensures a + [] == a && a + b + [] == a + b
  {
  }

  lemma {:induction false} NotShareable(sch: Scheme, job: Job, n: nat)
    requires WellShaped(job) && !Shareable(job) && n <= |job.hops|
    ensures n > 0 ==> Slots(sch, job, n) == Err(Sharing)
  {
    hide ToBytes, KeyShares, SealShares;
    if n > 1 { NotShareable(sch, job, n - 1); }
  }

  // ----- Widths -----

  lemma {:induction false} FillerWidth(sch: Scheme, key: Bytes, n: nat)
    requires Laws(sch)
    ensures |FillerSlot(sch, key, n)| == SlotLen(n)
  {
    hide Laws, Be;
    XofWidth(sch, FillerNonceStream, key, NONCE_LEN);
    XofWidth(sch, FillerStream, key, SEALED_CMD_LEN + n * SEALED_SHARE_LEN);
  }

  lemma {:induction false} RealSlotsFit(sch: Scheme, job: Job, j: nat)
    requires Laws(sch) && Sealable(sch, job) && j <= |job.hops|
    ensures |RealSlots(sch, job, j)| == |job.hops| - j && AllWide(RealSlots(sch, job, j), SlotLen(LineSize(job)))
    decreases |job.hops| - j
  {
    hide Laws, SealLayer, ToBytes, WellFramed, Contributory, SlotLen;
    if j < |job.hops| {
      RealSlotsFit(sch, job, j + 1);
      assert Contributory(sch, job, j);
      LayerSeals(sch, job, j);
      FramedWidth(TheLayer(sch, job, j), LineSize(job));
    }
  }

  lemma {:induction false} PadsFit(sch: Scheme, seed: Bytes, n: nat, h: nat)
    requires Laws(sch) && h <= TARGET_DEPTH
    ensures |Pads(sch, seed, n, h)| == TARGET_DEPTH - h && AllWide(Pads(sch, seed, n, h), SlotLen(n))
    decreases TARGET_DEPTH - h
  {
    hide Laws, FillerSlot, DepthFor, SlotLen, HeaderLen, OnionLen, Tag;
    EveryPlaneReachesTheTarget(n);
    if h < TARGET_DEPTH {
      PadsFit(sch, seed, n, h + 1);
      FillerWidth(sch, sch.hash(PadSlotDomain, Tag(seed, PAD, h)), n);
    }
  }

  lemma {:induction false} FillersFit(sch: Scheme, job: Job, j: nat)
    requires Laws(sch)
    ensures |Fillers(sch, job, j)| == j && AllWide(Fillers(sch, job, j), SlotLen(LineSize(job)))
    decreases j
  {
    hide Laws, FillerSlot, SlotLen, LineSize;
    if j > 0 {
      FillersFit(sch, job, j - 1);
      FillerWidth(sch, PayloadKey(sch, job.seed, j - 1), LineSize(job));
    }
  }

  lemma {:induction false} HeaderFits(sch: Scheme, job: Job, j: nat)
    requires Laws(sch) && Sealable(sch, job) && j <= |job.hops|
    ensures |HeaderSlots(sch, job, j)| == TARGET_DEPTH
    ensures AllWide(HeaderSlots(sch, job, j), SlotLen(LineSize(job)))
    ensures |Concat(HeaderSlots(sch, job, j))| == HeaderLen(LineSize(job))
  {
    hide Laws, SlotLen, RealSlots, Pads, Fillers, DepthFor, Contributory;
    RealSlotsFit(sch, job, j);
    PadsFit(sch, job.seed, LineSize(job), |job.hops|);
    FillersFit(sch, job, j);
    ConcatWidth(HeaderSlots(sch, job, j), SlotLen(LineSize(job)));
    EveryPlaneReachesTheTarget(LineSize(job));
  }

  /** Every packet of the circuit has the plane's one width, and splits into its header and its block. */
  lemma {:induction false} EveryPacketIsOneWidth(sch: Scheme, job: Job, j: nat)
    requires Laws(sch) && Sealable(sch, job) && j <= |job.hops|
    ensures var onion, n := OnionAt(sch, job, j), LineSize(job);
            && |onion| == OnionLen(n) && HeaderLen(n) <= OnionLen(n)
            && onion[..HeaderLen(n)] == Concat(HeaderSlots(sch, job, j))
            && onion[HeaderLen(n)..] == Layered(sch, PackedBlock(sch, job), job.seed, j, |job.hops|)
  {
    hide Laws, HeaderSlots, Layered, OnionLen, HeaderLen, Pack, Contributory, Concat;
    EveryPlaneReachesTheTarget(LineSize(job));
    HeaderFits(sch, job, j);
    BlockPacks(sch, job);
  }

  /** Shifting the header past slot `j` gives the next packet's header. */
  lemma {:induction false} HeaderShifts(sch: Scheme, job: Job, j: nat)
    requires Laws(sch) && Sealable(sch, job) && j < |job.hops|
    ensures var n := LineSize(job);
            Shifted(Concat(HeaderSlots(sch, job, j)), FillerSlot(sch, PayloadKey(sch, job.seed, j), n), SlotLen(n)) ==
            Concat(HeaderSlots(sch, job, j + 1))
  {
    hide Laws, SlotLen, Pads, Contributory, Concat, FillerSlot, ToBytes, DepthFor, RealSlots, Fillers;
    var n := LineSize(job);
    var width, behind := SlotLen(n), Behind(sch, job, j);
    var slot, filler := ToBytes(TheLayer(sch, job, j)), FillerSlot(sch, PayloadKey(sch, job.seed, j), n);
    HeadersOverlap(sch, job, j);
    HeaderFits(sch, job, j);
    HeaderFits(sch, job, j + 1);
    ConcatSum([slot], behind);
    ConcatOne(slot);
    ConcatMore(behind, filler);
    assert HeaderSlots(sch, job, j)[0] == slot;
    EveryPlaneReachesTheTarget(n);
    var header := Concat(HeaderSlots(sch, job, j));
    assert header[width..] == Concat(behind);
    WholeSlots(width);
  }

  lemma {:induction false} WholeSlots(width: nat)
    requires width > 0
    ensures TARGET_DEPTH * width / width * width == TARGET_DEPTH * width
  {
    QuotientAtLeast(TARGET_DEPTH * width, width, TARGET_DEPTH);
    DivisionBounds(TARGET_DEPTH * width, width);
    assert TARGET_DEPTH * width / width == TARGET_DEPTH;
  }

  lemma {:induction false} HeadersOverlap(sch: Scheme, job: Job, j: nat)
    requires j < |job.hops|
    ensures HeaderSlots(sch, job, j) == [ToBytes(TheLayer(sch, job, j))] + Behind(sch, job, j)
    ensures HeaderSlots(sch, job, j + 1) ==
            Behind(sch, job, j) + [FillerSlot(sch, PayloadKey(sch, job.seed, j), LineSize(job))]
  {
    hide ToBytes, FillerSlot, Pads, TheLayer;
    var slot, filler := ToBytes(TheLayer(sch, job, j)), FillerSlot(sch, PayloadKey(sch, job.seed, j), LineSize(job));
    var pads := Pads(sch, job.seed, LineSize(job), |job.hops|);
    assert RealSlots(sch, job, j) == [slot] + RealSlots(sch, job, j + 1);
    assert Fillers(sch, job, j + 1) == Fillers(sch, job, j) + [filler];
    Overlap(slot, RealSlots(sch, job, j + 1), pads, Fillers(sch, job, j), filler);
  }

  lemma {:induction false} Overlap(slot: Bytes, slots: seq<Bytes>, pads: seq<Bytes>, fillers: seq<Bytes>, filler: Bytes)
    ensures ([slot] + slots) + pads + fillers == [slot] + (slots + pads + fillers)
    ensures slots + pads + (fillers + [filler]) == (slots + pads + fillers) + [filler]
  {
  }

  // ----- Opening a slot -----

  lemma {:induction false} FirstSlotOpens(sch: Scheme, job: Job, j: nat)
    requires Laws(sch) && Sealable(sch, job) && j < |job.hops|
    ensures OpenSlot0(OnionAt(sch, job, j), LineSize(job)) == Ok(TheLayer(sch, job, j))
  {
    hide Laws, OnionLen, HeaderLen, SlotLen, Concat, ToBytes, FromBytes, Layered, Contributory, SealLayer, RealSlots, Pads,
         Fillers, DepthFor, HeaderSlots, Pack;
    var n, slots := LineSize(job), HeaderSlots(sch, job, j);
    EveryPacketIsOneWidth(sch, job, j);
    HeaderFits(sch, job, j);
    HeadersOverlap(sch, job, j);
    PieceAt(slots, SlotLen(n), 0);
    assert OnionAt(sch, job, j)[..SlotLen(n)] == slots[0];
    assert Contributory(sch, job, j);
    LayerSeals(sch, job, j);
    LayerRoundTrip(TheLayer(sch, job, j));
  }

  lemma {:induction false} ShareRoundTrip(share: Share)
    requires share.x < 256 && |share.y| == HASH_LEN
    ensures ReadShare(ShareBytes(share)) == Some(share)
  {
    hide ByteOf, Value;
    ByteRoundTrip(share.x);
    assert ShareBytes(share)[1..SHARE_LEN] == share.y;
  }

  lemma {:induction false} ShareOpens(sch: Scheme, layer: Layer, share: Share, member: nat, seed: Bytes, i: nat)
    requires Laws(sch) && i < |layer.shares| && 0 < share.x < 256 && |share.y| == HASH_LEN
    requires SealShare(sch, layer.nonce, share, member, seed, i) == Some(layer.shares[i])
    ensures MemberShare(sch, layer, i, member) == Some(share)
  {
    hide Laws, ShareBytes, ReadShare, Be;
    ShareRoundTrip(share);
    KemOpens(sch, member, seed + Be(i, 4));
    var (text, session) := sch.encapsulate(member, seed + Be(i, 4)).value;
    SealOpens(sch, sch.hash(ShareKeyDomain, session), layer.nonce, ShareBytes(share));
    assert layer.shares[i][..KEM_CIPHERTEXT_LEN] == text;
    assert layer.shares[i][KEM_CIPHERTEXT_LEN..] == sch.seal(sch.hash(ShareKeyDomain, session), layer.nonce, ShareBytes(share));
  }

  /** Every member of the hop line recovers its own share of the layer key. */
  lemma {:induction false} MemberOpens(sch: Scheme, job: Job, j: nat, i: nat)
    requires Laws(sch) && Sealable(sch, job) && j < |job.hops| && i < LineSize(job)
    ensures SharesFit(KeyShares(sch, job, j), LineSize(job))
    ensures MemberShare(sch, TheLayer(sch, job, j), i, job.hops[j].members[i]) == Some(KeyShares(sch, job, j)[i])
  {
    hide Laws, SealShares, SealShare, MemberShare, CanSeal, KeyShares, Command, LayerNonce;
    KeySharesFit(sch, job, j);
    assert Contributory(sch, job, j);
    LayerSeals(sch, job, j);
    var layer, shares := TheLayer(sch, job, j), KeyShares(sch, job, j);
    SharesSeal(sch, layer.nonce, shares, job.hops[j].members, Tag(job.seed, KEM, j), LineSize(job));
    ShareOpens(sch, layer, shares[i], job.hops[j].members[i], Tag(job.seed, KEM, j), i);
  }

  /** Positions on a line, each once and at least a threshold of them. */
  predicate IsQuorum(job: Job, positions: seq<nat>) {
    && job.threshold <= |positions|
    && OnLine(job, positions)
    && (forall a, b :: 0 <= a < b < |positions| ==> positions[a] != positions[b])
  }

  predicate OnLine(job: Job, positions: seq<nat>) {
    forall a :: 0 <= a < |positions| ==> positions[a] < LineSize(job)
  }

  /** The members at these positions of hop `j`, with their keys. */
  function Holders(job: Job, j: nat, positions: seq<nat>): (r: seq<(nat, nat)>)
    requires j < |job.hops|
    ensures |r| == |positions|
    decreases |positions|
  {
    if positions == [] then []
    else
      var i := positions[|positions| - 1];
      Holders(job, j, positions[..|positions| - 1]) +
      [(i, if i < |job.hops[j].members| then job.hops[j].members[i] else 0)]
  }

  /** `shares` are the shares at these positions. */
  predicate AtPositions(shares: seq<Share>, all: seq<Share>, positions: seq<nat>) {
    && |shares| == |positions|
    && forall a :: 0 <= a < |positions| ==> positions[a] < |all| && shares[a] == all[positions[a]]
  }

  lemma {:induction false} QuorumGathers(sch: Scheme, job: Job, j: nat, positions: seq<nat>)
    requires Laws(sch) && Sealable(sch, job) && j < |job.hops| && OnLine(job, positions)
    ensures AtPositions(Gather(sch, TheLayer(sch, job, j), Holders(job, j, positions)), KeyShares(sch, job, j), positions)
    decreases |positions|
  {
    hide Laws, SealLayer, MemberShare, KeyShares, TheLayer, AllContributory;
    if positions != [] {
      var k := |positions| - 1;
      QuorumGathers(sch, job, j, positions[..k]);
      MemberOpens(sch, job, j, positions[k]);
      assert Holders(job, j, positions)[..k] == Holders(job, j, positions[..k]);
    }
  }

  lemma {:induction false} QuorumReconstructs(sch: Scheme, job: Job, j: nat, positions: seq<nat>, shares: seq<Share>)
    requires Laws(sch) && WellShaped(job) && Shareable(job) && j < |job.hops| && IsQuorum(job, positions)
    requires AtPositions(shares, KeyShares(sch, job, j), positions)
    ensures sch.reconstruct(shares) == Some(LayerKey(sch, job.seed, j))
  {
    hide Laws, SplitLaw, LayerKey;
    KeySharesFit(sch, job, j);
    QuorumIsDistinct(job, positions, KeyShares(sch, job, j), shares);
    SharesReconstruct(sch, LayerKey(sch, job.seed, j), job.threshold, LineSize(job), Coins(sch, job, j), shares);
  }

  lemma {:induction false} QuorumIsDistinct(job: Job, positions: seq<nat>, all: seq<Share>, shares: seq<Share>)
    requires IsQuorum(job, positions) && SharesFit(all, LineSize(job)) && AtPositions(shares, all, positions)
    ensures Distinct(shares) && forall a :: 0 <= a < |shares| ==> shares[a] in all
  {
    forall a, b | 0 <= a < b < |shares|
      ensures shares[a].x != shares[b].x
    {
      assert positions[a] != positions[b];
    }
  }

  lemma {:induction false} LayerOpens(sch: Scheme, job: Job, j: nat, shares: seq<Share>)
    requires Laws(sch) && Sealable(sch, job) && j < |job.hops|
    requires sch.reconstruct(shares) == Some(LayerKey(sch, job.seed, j))
    ensures OpenLayer(sch, TheLayer(sch, job, j), shares) == Ok(Command(sch, job, j))
  {
    hide Laws, CanSeal, KeyShares, SealShares, Command, LayerNonce;
    assert Contributory(sch, job, j);
    LayerSeals(sch, job, j);
    var key := LayerKey(sch, job.seed, j);
    HashWidth(sch, LayerKeyDomain, Tag(job.seed, LAYER, j));
    SealOpens(sch, key, LayerNonce(sch, job.seed, j), Command(sch, job, j));
  }

  /** Any threshold of members opens the layer to its command. */
  lemma {:induction false} QuorumOpens(sch: Scheme, job: Job, j: nat, positions: seq<nat>)
    requires Laws(sch) && Sealable(sch, job) && j < |job.hops| && IsQuorum(job, positions)
    ensures OpenLayer(sch, TheLayer(sch, job, j), Gather(sch, TheLayer(sch, job, j), Holders(job, j, positions))) ==
            Ok(Command(sch, job, j))
  {
    hide Laws, Command, Gather, AllContributory, TheLayer, OpenLayer, LayerKey, KeyShares, AtPositions;
    QuorumGathers(sch, job, j, positions);
    var shares := Gather(sch, TheLayer(sch, job, j), Holders(job, j, positions));
    QuorumReconstructs(sch, job, j, positions, shares);
    LayerOpens(sch, job, j, shares);
  }

  // ----- One hop and the whole walk -----

  lemma {:induction false} BlockUnpacks(sch: Scheme, job: Job)
    requires Laws(sch) && Sealable(sch, job)
    ensures Unpack(PackedBlock(sch, job)) == Some(job.payload)
  {
    hide Laws, Be, FromBe, AllContributory, Uniform, HeaderLen;
    var n, payload := LineSize(job), job.payload;
    EveryPlaneReachesTheTarget(n);
    BlockPacks(sch, job);
    assert |payload| < 0x1_0000_0000;
    FieldWidths();
    BeRoundTrip(|payload|, 4);
    var block := PackedBlock(sch, job);
    assert block[..4] == Be(|payload|, 4);
    assert block[4..4 + |payload|] == payload;
  }

  /** What hop `j` must see. */
  function Expected(sch: Scheme, job: Job, j: nat): Outcome
    requires j < |job.hops|
  {
    if j == |job.hops| - 1 then Deliver(job.payload, Holonomy(sch, job))
    else Forward(job.hops[j + 1].line, OnionAt(sch, job, j + 1))
  }

  lemma {:induction false} CommandParts(sch: Scheme, job: Job, j: nat)
    requires Laws(sch) && j < |job.hops|
    ensures var cmd := Command(sch, job, j);
            && |cmd| == CMD_LEN
            && cmd[KEY_AT..CMD_LEN] == PayloadKey(sch, job.seed, j)
            && (if j == |job.hops| - 1 then cmd[0] == DELIVER && cmd[1..KEY_AT] == Holonomy(sch, job)
                else cmd[0] == NEXT && cmd[1..KEY_AT][..12] == EncodeTriple(job.hops[j + 1].line))
  {
    hide Laws, LineHolonomy, EncodeTriple, PayloadKey;
    HolonomyWidth(sch, job);
    assert |PayloadKey(sch, job.seed, j)| == HASH_LEN by { KeyWidth(sch, job.seed, j); }
    var head := if j == |job.hops| - 1 then [DELIVER] + Holonomy(sch, job) else [NEXT] + EncodeTriple(job.hops[j + 1].line);
    HeadParts(head, PayloadKey(sch, job.seed, j));
    assert Command(sch, job, j) == Padded(head) + PayloadKey(sch, job.seed, j);
    assert head[1..] == if j == |job.hops| - 1 then Holonomy(sch, job) else EncodeTriple(job.hops[j + 1].line);
  }

  lemma {:induction false} HeadParts(head: Bytes, key: Bytes)
    requires 0 < |head| <= KEY_AT && |key| == HASH_LEN
    ensures var cmd := Padded(head) + key;
            && |cmd| == CMD_LEN && cmd[KEY_AT..CMD_LEN] == key
            && cmd[0] == head[0] && cmd[1..KEY_AT][..|head| - 1] == head[1..]
            && (|head| == KEY_AT ==> cmd[1..KEY_AT] == head[1..])
  {
  }

  lemma {:induction false} KeyWidth(sch: Scheme, seed: Bytes, j: nat)
    requires Laws(sch)
    ensures |PayloadKey(sch, seed, j)| == HASH_LEN
  {
    hide Laws;
    HashWidth(sch, PayloadKeyDomain, Tag(seed, KEYS, j));
  }

  lemma {:induction false} HolonomyWidth(sch: Scheme, job: Job)
    requires Laws(sch)
    ensures |Holonomy(sch, job)| == HASH_LEN
  {
    hide Laws;
    HashWidth(sch, RatchetFinalDomain,
              Cascade(sch, LineChunks(Lines(job.hops)), Holoseed(sch, job.seed)) + Be(Saturated(|Lines(job.hops)|), 4));
  }

  /** Hop `j` strips its keystream. */
  lemma {:induction false} LayerStrips(sch: Scheme, job: Job, j: nat)
    requires j < |job.hops|
    ensures var block, h := PackedBlock(sch, job), |job.hops|;
            Xor(Layered(sch, block, job.seed, j, h), Stream(sch, PayloadKey(sch, job.seed, j), |block|)) ==
            Layered(sch, block, job.seed, j + 1, h)
  {
    hide Layered, Xor, PackedBlock, Stream, PayloadKey;
    var block, h := PackedBlock(sch, job), |job.hops|;
    Layers(sch, block, job.seed, j, h);
    XorTwice(Layered(sch, block, job.seed, j + 1, h), Stream(sch, PayloadKey(sch, job.seed, j), |block|));
  }

  lemma {:induction false} LastHopDelivers(sch: Scheme, job: Job)
    requires Laws(sch) && Sealable(sch, job)
    ensures var h, n, block := |job.hops|, LineSize(job), PackedBlock(sch, job);
            Obey(sch, Concat(HeaderSlots(sch, job, h - 1)), Layered(sch, block, job.seed, h - 1, h), n, Command(sch, job, h - 1)) ==
            Ok(Deliver(job.payload, Holonomy(sch, job)))
  {
    hide Laws, AllContributory, Command, HeaderSlots, Layered, Unpack, PackedBlock, Holonomy, Xor, Concat, Stream, PayloadKey,
         FillerSlot, Shifted, DecodeTriple, OnionLen, HeaderLen;
    var h := |job.hops|;
    CommandParts(sch, job, h - 1);
    LayerStrips(sch, job, h - 1);
    Layers(sch, PackedBlock(sch, job), job.seed, h, h);
    BlockUnpacks(sch, job);
  }

  lemma {:induction false} OtherHopsForward(sch: Scheme, job: Job, j: nat)
    requires Laws(sch) && Sealable(sch, job) && j < |job.hops| - 1
    ensures var n, block := LineSize(job), PackedBlock(sch, job);
            Obey(sch, Concat(HeaderSlots(sch, job, j)), Layered(sch, block, job.seed, j, |job.hops|), n, Command(sch, job, j)) ==
            Ok(Forward(job.hops[j + 1].line, OnionAt(sch, job, j + 1)))
  {
    hide Laws, Sealable, Command, HeaderSlots, Layered, Unpack, PackedBlock, Xor, Concat, Stream, PayloadKey,
         FillerSlot, Shifted, EncodeTriple, DecodeTriple, SlotLen, Holonomy;
    CommandParts(sch, job, j);
    LayerStrips(sch, job, j);
    TripleRoundTrip(job.hops[j + 1].line);
    HeaderShifts(sch, job, j);
  }

  /** One hop, with any threshold of its members: the next line and its packet, or the payload and its tag. */
  lemma {:induction false} HopPeels(sch: Scheme, job: Job, j: nat, positions: seq<nat>)
    requires Laws(sch) && Sealable(sch, job) && j < |job.hops| && IsQuorum(job, positions)
    ensures PeelOnion(sch, OnionAt(sch, job, j), LineSize(job), Holders(job, j, positions)) == Ok(Expected(sch, job, j))
  {
    hide Laws, Sealable, OnionAt, OpenSlot0, OpenLayer, Gather, Command, Obey, HeaderLen, OnionLen, IsQuorum, TheLayer, Layered,
         HeaderSlots, Concat, PackedBlock, Holonomy;
    FirstSlotOpens(sch, job, j);
    QuorumOpens(sch, job, j, positions);
    EveryPacketIsOneWidth(sch, job, j);
    if j == |job.hops| - 1 { LastHopDelivers(sch, job); } else { OtherHopsForward(sch, job, j); }
  }

  /** A combiner that holds a quorum of the members' shares peels the hop to the same outcome. */
  lemma {:induction false} GatheredSharesPeel(sch: Scheme, job: Job, j: nat, positions: seq<nat>, shares: seq<Share>)
    requires Laws(sch) && Sealable(sch, job) && j < |job.hops| && IsQuorum(job, positions)
    requires AtPositions(shares, KeyShares(sch, job, j), positions)
    ensures Peel(sch, OnionAt(sch, job, j), LineSize(job), shares) == Ok(Expected(sch, job, j))
  {
    hide Laws, AllContributory, OnionAt, OpenSlot0, OpenLayer, Command, Obey, HeaderLen, OnionLen, IsQuorum, TheLayer, Layered,
         HeaderSlots, Concat, PackedBlock, Holonomy, KeyShares, AtPositions, LayerKey, Uniform;
    FirstSlotOpens(sch, job, j);
    QuorumReconstructs(sch, job, j, positions, shares);
    LayerOpens(sch, job, j, shares);
    EveryPacketIsOneWidth(sch, job, j);
    if j == |job.hops| - 1 { LastHopDelivers(sch, job); } else { OtherHopsForward(sch, job, j); }
  }

  /** Any packet at all, peeled with any shares, is handed on at exactly its own width. */
  lemma {:induction false} ForwardingKeepsTheWidth(sch: Scheme, onion: Bytes, n: nat, shares: seq<Share>)
    requires Laws(sch)
    ensures var r := Peel(sch, onion, n, shares);
            r.Ok? && r.value.Forward? ==> |onion| == OnionLen(n) && |r.value.onion| == OnionLen(n)
  {
    hide Laws, OpenLayer, FillerSlot, OnionLen, FromBytes, SlotLen, Xor, DepthFor, Unpack;
    EveryPlaneReachesTheTarget(n);
    var r := Peel(sch, onion, n, shares);
    if r.Ok? && r.value.Forward? {
      var header, cmd := onion[..HeaderLen(n)], OpenLayer(sch, OpenSlot0(onion, n).value, shares).value;
      var filler := FillerSlot(sch, cmd[KEY_AT..CMD_LEN], n);
      FillerWidth(sch, cmd[KEY_AT..CMD_LEN], n);
      ShiftKeepsTheWidth(header, filler, SlotLen(n));
    }
  }

  lemma {:induction false} ShiftKeepsTheWidth(header: Bytes, filler: Bytes, width: nat)
    requires width > 0 && |header| == TARGET_DEPTH * width && |filler| == width
    ensures |Shifted(header, filler, width)| == |header|
  {
    WholeSlots(width);
  }

  /** Peel hop by hop, each time with the next members: the lines visited after the first, and how it ends. */
  function Travel(sch: Scheme, onion: Bytes, lineSize: nat, hops: seq<seq<(nat, nat)>>): (seq<Triple>, Option<Outcome>)
    decreases |hops|
  {
    if hops == [] then ([], None)
    else
      match PeelOnion(sch, onion, lineSize, hops[0])
      case Err(_) => ([], None)
      case Ok(Deliver(payload, holonomy)) => ([], Some(Deliver(payload, holonomy)))
      case Ok(Forward(next, inner)) =>
        var (visited, end) := Travel(sch, inner, lineSize, hops[1..]);
        ([next] + visited, end)
  }

  /** `members` are a quorum of hop `j`, with their keys. */
  ghost predicate IsHopQuorum(job: Job, j: nat, members: seq<(nat, nat)>)
    requires j < |job.hops|
  {
    exists positions :: IsQuorum(job, positions) && members == Holders(job, j, positions)
  }

  ghost predicate AreQuorums(job: Job, from: nat, members: seq<seq<(nat, nat)>>)
    requires from <= |job.hops|
  {
    && |members| == |job.hops| - from
    && forall i :: 0 <= i < |members| ==> IsHopQuorum(job, from + i, members[i])
  }

  lemma {:induction false} HopQuorumPeels(sch: Scheme, job: Job, j: nat, members: seq<(nat, nat)>)
    requires Laws(sch) && Sealable(sch, job) && j < |job.hops| && IsHopQuorum(job, j, members)
    ensures PeelOnion(sch, OnionAt(sch, job, j), LineSize(job), members) == Ok(Expected(sch, job, j))
  {
    hide Laws, Sealable, OnionAt, PeelOnion, Expected, IsQuorum, Holders, LineSize;
    var positions :| IsQuorum(job, positions) && members == Holders(job, j, positions);
    HopPeels(sch, job, j, positions);
  }

  lemma {:induction false} TravelFrom(sch: Scheme, job: Job, j: nat, members: seq<seq<(nat, nat)>>)
    requires Laws(sch) && Sealable(sch, job) && j < |job.hops| && AreQuorums(job, j, members)
    ensures Travel(sch, OnionAt(sch, job, j), LineSize(job), members) ==
            (Lines(job.hops)[j + 1..], Some(Deliver(job.payload, Holonomy(sch, job))))
    decreases |job.hops| - j
  {
    hide Laws, Sealable, OnionAt, PeelOnion, Holonomy, LineSize, IsHopQuorum;
    assert IsHopQuorum(job, j + 0, members[0]);
    HopQuorumPeels(sch, job, j, members[0]);
    if j + 1 < |job.hops| {
      QuorumsAfter(job, j, members);
      TravelFrom(sch, job, j + 1, members[1..]);
      assert Lines(job.hops)[j + 1..] == [job.hops[j + 1].line] + Lines(job.hops)[j + 2..];
    } else {
      assert Lines(job.hops)[j + 1..] == [];
    }
  }

  lemma {:induction false} QuorumsAfter(job: Job, j: nat, members: seq<seq<(nat, nat)>>)
    requires j < |job.hops| && AreQuorums(job, j, members)
    ensures AreQuorums(job, j + 1, members[1..])
  {
    hide IsHopQuorum;
    forall i | 0 <= i < |members| - 1
      ensures IsHopQuorum(job, j + 1 + i, members[1..][i])
    {
      assert IsHopQuorum(job, j + (i + 1), members[i + 1]);
    }
  }

  /**
   Seal, then peel hop by hop with any threshold of each line: the lines are visited in order and the payload
   and the sealed path tag are delivered.
   */
  lemma {:induction false} TheCircuitDelivers(sch: Scheme, job: Job, onion: Bytes, members: seq<seq<(nat, nat)>>)
    requires Laws(sch) && Seal(sch, job) == Ok(onion)
    requires AreQuorums(job, 0, members)
    ensures |onion| == OnionLen(LineSize(job))
    ensures Travel(sch, onion, LineSize(job), members) ==
            (Lines(job.hops)[1..], Some(Deliver(job.payload, Holonomy(sch, job))))
    ensures VerifyDelivery(sch, Lines(job.hops), job.seed, Holonomy(sch, job)).Ok?
  {
    hide Laws, Seal, OnionAt, Travel, AreQuorums, LineHolonomy, OnionLen, HeaderLen;
    SealVerdict(sch, job);
    assert Sealable(sch, job);
    EveryPacketIsOneWidth(sch, job, 0);
    TravelFrom(sch, job, 0, members);
  }

  // ----- A packet does not show how far it has travelled -----

  lemma {:induction false} FillerParses(sch: Scheme, key: Bytes, n: nat)
    requires Laws(sch) && n < 0x1_0000
    ensures FromBytes(FillerSlot(sch, key, n)).Some? && WellFramed(FromBytes(FillerSlot(sch, key, n)).value, n)
  {
    hide Laws, Be, FromBe, ReadShares;
    XofWidth(sch, FillerNonceStream, key, NONCE_LEN);
    XofWidth(sch, FillerStream, key, SEALED_CMD_LEN + n * SEALED_SHARE_LEN);
    FieldWidths();
    BeRoundTrip(n, 2);
    BeRoundTrip(SEALED_CMD_LEN, 4);
    var slot, rest := FillerSlot(sch, key, n), sch.xof(FillerStream, key, SEALED_CMD_LEN + n * SEALED_SHARE_LEN);
    assert slot[12..14] == Be(n, 2) && slot[14..18] == Be(SEALED_CMD_LEN, 4);
    assert slot[18 + SEALED_CMD_LEN..] == rest[SEALED_CMD_LEN..];
    WideEnough(rest[SEALED_CMD_LEN..], n);
  }

  lemma {:induction false} WideEnough(bytes: Bytes, n: nat)
    requires |bytes| == n * SEALED_SHARE_LEN
    ensures ReadShares(bytes, n).Some? && |ReadShares(bytes, n).value| == n
    ensures AllWide(ReadShares(bytes, n).value, SEALED_SHARE_LEN)
  {
    if n > 0 {
      assert n * SEALED_SHARE_LEN == (n - 1) * SEALED_SHARE_LEN + SEALED_SHARE_LEN;
      WideEnough(bytes[SEALED_SHARE_LEN..], n - 1);
    }
  }

  predicate Parses(slot: Bytes, n: nat) {
    FromBytes(slot).Some? && WellFramed(FromBytes(slot).value, n)
  }

  predicate AllParse(slots: seq<Bytes>, n: nat) {
    forall i :: 0 <= i < |slots| ==> Parses(slots[i], n)
  }

  lemma {:induction false} RealSlotsParse(sch: Scheme, job: Job, j: nat)
    requires Laws(sch) && Sealable(sch, job)
    ensures AllParse(RealSlots(sch, job, j), LineSize(job))
    decreases |job.hops| - j
  {
    hide Laws, SealLayer, ToBytes, FromBytes, Contributory;
    if j < |job.hops| {
      RealSlotsParse(sch, job, j + 1);
      assert Contributory(sch, job, j);
      LayerSeals(sch, job, j);
      LayerRoundTrip(TheLayer(sch, job, j));
    }
  }

  lemma {:induction false} PadsParse(sch: Scheme, seed: Bytes, n: nat, h: nat)
    requires Laws(sch) && n < 0x1_0000
    ensures AllParse(Pads(sch, seed, n, h), n)
    decreases DepthFor(n) - h
  {
    hide Laws, FillerSlot, DepthFor, Parses;
    if h < DepthFor(n) {
      PadsParse(sch, seed, n, h + 1);
      FillerIsASlot(sch, sch.hash(PadSlotDomain, Tag(seed, PAD, h)), n);
    }
  }

  lemma {:induction false} FillerIsASlot(sch: Scheme, key: Bytes, n: nat)
    requires Laws(sch) && n < 0x1_0000
    ensures Parses(FillerSlot(sch, key, n), n)
  {
    hide Laws, FillerSlot, FromBytes, WellFramed;
    FillerParses(sch, key, n);
  }

  lemma {:induction false} FillersParse(sch: Scheme, job: Job, j: nat)
    requires Laws(sch) && LineSize(job) < 0x1_0000
    ensures AllParse(Fillers(sch, job, j), LineSize(job))
    decreases j
  {
    hide Laws, FillerSlot, AllParse, LineSize, PayloadKey;
    ParseMore([], [], LineSize(job));
    if j > 0 {
      FillersParse(sch, job, j - 1);
      var filler := FillerSlot(sch, PayloadKey(sch, job.seed, j - 1), LineSize(job));
      FillerIsASlot(sch, PayloadKey(sch, job.seed, j - 1), LineSize(job));
      ParseMore(Fillers(sch, job, j - 1), filler, LineSize(job));
    }
  }

  lemma {:induction false} ParseMore(slots: seq<Bytes>, slot: Bytes, n: nat)
    ensures AllParse([], n)
    ensures AllParse(slots, n) && Parses(slot, n) ==> AllParse(slots + [slot], n)
  {
    hide Parses;
  }

  /** Every slot of every packet of a circuit parses with the same framing, whether it is real or filler. */
  lemma {:induction false} EverySlotLooksReal(sch: Scheme, job: Job, j: nat, i: nat)
    requires Laws(sch) && Sealable(sch, job) && j <= |job.hops| && i < TARGET_DEPTH
    ensures var onion, width := OnionAt(sch, job, j), SlotLen(LineSize(job));
            && 0 <= i * width <= i * width + width <= |onion|
            && Parses(onion[i * width..i * width + width], LineSize(job))
  {
    hide Laws, SlotLen, RealSlots, Pads, Fillers, Layered, AllContributory, Parses, Concat, OnionLen, HeaderLen, PackedBlock,
         Uniform;
    var n, slots := LineSize(job), HeaderSlots(sch, job, j);
    RealSlotsParse(sch, job, j);
    PadsParse(sch, job.seed, n, |job.hops|);
    FillersParse(sch, job, j);
    HeaderFits(sch, job, j);
    EveryPacketIsOneWidth(sch, job, j);
    PieceAt(slots, SlotLen(n), i);
    var start := i * SlotLen(n);
    SliceOfSum(Concat(slots), Layered(sch, PackedBlock(sch, job), job.seed, j, |job.hops|), start, start + SlotLen(n));
    assert Parses(slots[i], n);
  }

  lemma {:induction false} SliceOfSum(a: Bytes, b: Bytes, from: nat, to: nat)
    requires from <= to <= |a|
    ensures (a + b)[from..to] == a[from..to]
  {
  }
}
