/**
 The nested onion: each hop's layer is a KEM ciphertext, a nonce, a sealed length and a sealed body that holds
 the next hop and the next layer; only the outermost packet is padded, to one bucket, and each hop pads again.
 */
module SealedOnion {
  import opened Symbolic
  import opened Octets
  import opened Primitives
  import opened PathTag

  datatype Error = Malformed | Aead | KeyMismatch | TooLong | NonContributory | HolonomyFail
  datatype Result<+T> = Ok(value: T) | Err(error: Error)

  /** Relays `r0 .. rL` and the hop lines between them. */
  datatype Circuit = Circuit(relays: seq<Triple>, lines: seq<Triple>)

  predicate IsCircuit(c: Circuit) { |c.relays| == |c.lines| + 1 }

  /** A circuit, the keys of relays `r1 .. rL`, a payload and the seed all randomness derives from. */
  datatype Job = Job(circuit: Circuit, keys: seq<nat>, payload: Bytes, seed: Bytes)

  datatype Outcome = Forward(next: Triple, onion: Bytes) | Deliver(payload: Bytes, holonomy: Bytes)

  const VERSION: bv8 := 1
  const DELIVER: bv8 := 0
  const NEXT: bv8 := 1
  const NONCE_LEN: nat := 12
  const LEN_CT_LEN: nat := 2 + AEAD_TAG
  const OFF_NONCE: nat := 1 + KEM_TEXT_LEN
  const OFF_LEN_CT: nat := OFF_NONCE + NONCE_LEN
  const OFF_BODY_CT: nat := OFF_LEN_CT + LEN_CT_LEN
  const ONION_LEN: nat := 8192
  const MAX_LEN_FIELD: nat := 0xFFFF

  // ----- The path authenticator -----

  function Connection(c: Circuit, k: nat): (b: Bytes)
    requires IsCircuit(c) && k < |c.lines|
    ensures |b| == 36
  {
    EncodeTriple(c.relays[k]) + EncodeTriple(c.relays[k + 1]) + EncodeTriple(c.lines[k])
  }

  /** The first `n` connections. */
  function Connections(c: Circuit, n: nat): (chunks: seq<Bytes>)
    requires IsCircuit(c) && n <= |c.lines|
    ensures |chunks| == n
    decreases n
  {
    if n == 0 then [] else Connections(c, n - 1) + [Connection(c, n - 1)]
  }

  lemma {:induction false} ConnectionAt(c: Circuit, n: nat, k: nat)
    requires IsCircuit(c) && k < n <= |c.lines|
    ensures Connections(c, n)[k] == Connection(c, k)
    decreases n
  {
    hide Connection;
    if k < n - 1 { ConnectionAt(c, n - 1, k); }
  }

  lemma {:induction false} ConnectionsWide(c: Circuit)
    requires IsCircuit(c)
    ensures AllWide(Connections(c, |c.lines|), 36)
  {
    hide Connection;
    forall k | 0 <= k < |c.lines|
      ensures |Connections(c, |c.lines|)[k]| == 36
    {
      ConnectionAt(c, |c.lines|, k);
    }
  }

  function Holoseed(sch: Scheme, seed: Bytes): Bytes { sch.hash(HoloseedDomain, seed) }

  function CircuitHolonomy(sch: Scheme, c: Circuit, holoseed: Bytes): Bytes
    requires IsCircuit(c)
  {
    Finish(sch, Cascade(sch, Connections(c, |c.lines|), holoseed), |c.lines|)
  }

  function VerifyDelivery(sch: Scheme, c: Circuit, seed: Bytes, claimed: Bytes): Result<()>
    requires IsCircuit(c)
  {
    if CircuitHolonomy(sch, c, Holoseed(sch, seed)) == claimed then Ok(()) else Err(HolonomyFail)
  }

  lemma {:induction false} ConnectionsDiffer(a: Circuit, b: Circuit, i: nat, j: nat)
    requires IsCircuit(a) && IsCircuit(b) && i < |a.lines| && j < |b.lines| && Connection(a, i) == Connection(b, j)
    ensures a.relays[i] == b.relays[j] && a.relays[i + 1] == b.relays[j + 1] && a.lines[i] == b.lines[j]
  {
    hide EncodeTriple;
    SameParts(EncodeTriple(a.relays[i]) + EncodeTriple(a.relays[i + 1]), EncodeTriple(a.lines[i]),
              EncodeTriple(b.relays[j]) + EncodeTriple(b.relays[j + 1]), EncodeTriple(b.lines[j]));
    SameParts(EncodeTriple(a.relays[i]), EncodeTriple(a.relays[i + 1]),
              EncodeTriple(b.relays[j]), EncodeTriple(b.relays[j + 1]));
    EncodingsDiffer(a.relays[i], b.relays[j]);
    EncodingsDiffer(a.relays[i + 1], b.relays[j + 1]);
    EncodingsDiffer(a.lines[i], b.lines[j]);
  }

  lemma {:induction false} SameConnections(a: Circuit, b: Circuit)
    requires IsCircuit(a) && IsCircuit(b) && a.lines != []
    requires Connections(a, |a.lines|) == Connections(b, |b.lines|)
    ensures a == b
  {
    hide Connection;
    forall k | 0 <= k < |a.lines|
      ensures a.lines[k] == b.lines[k]
    {
      SameConnection(a, b, k);
    }
    assert a.lines == b.lines;
    forall k | 0 <= k < |a.relays|
      ensures a.relays[k] == b.relays[k]
    {
      SameConnection(a, b, if k < |a.lines| then k else k - 1);
    }
    assert a.relays == b.relays;
  }

  lemma {:induction false} SameConnection(a: Circuit, b: Circuit, k: nat)
    requires IsCircuit(a) && IsCircuit(b) && k < |a.lines|
    requires Connections(a, |a.lines|) == Connections(b, |b.lines|)
    ensures |a.lines| == |b.lines|
    ensures a.relays[k] == b.relays[k] && a.relays[k + 1] == b.relays[k + 1] && a.lines[k] == b.lines[k]
  {
    hide Connection;
    ConnectionAt(a, |a.lines|, k);
    ConnectionAt(b, |b.lines|, k);
    ConnectionsDiffer(a, b, k, k);
  }

  /** A tag made for another circuit of at least one hop passes the check only by a collision of the hash. */
  lemma {:induction false} DeliveryBindsTheCircuit(sch: Scheme, c: Circuit, other: Circuit, seed: Bytes)
    returns (collision: Collision)
    requires IsCircuit(c) && IsCircuit(other) && c.lines != []
    requires |c.lines| <= 0xFFFF_FFFF && |other.lines| <= 0xFFFF_FFFF
    ensures VerifyDelivery(sch, c, seed, CircuitHolonomy(sch, other, Holoseed(sch, seed))).Ok? ==>
            c == other || IsCollision(sch, collision)
    ensures c == other ==> VerifyDelivery(sch, c, seed, CircuitHolonomy(sch, other, Holoseed(sch, seed))).Ok?
  {
    hide Cascade, Finish, Connection;
    var one, two := Connections(c, |c.lines|), Connections(other, |other.lines|);
    ConnectionsWide(c);
    ConnectionsWide(other);
    collision := TagBinds(sch, one, two, Holoseed(sch, seed), 36);
    if one == two { SameConnections(c, other); }
  }

  // ----- Building -----

  function HopSeed(job: Job, k: nat): Bytes { job.seed + Be(k, 4) }

  function HopNonce(sch: Scheme, job: Job, k: nat): Bytes { First(sch.hash(HopNonceDomain, HopSeed(job, k)), NONCE_LEN) }

  function Holonomy(sch: Scheme, job: Job): Bytes
    requires IsCircuit(job.circuit)
  {
    CircuitHolonomy(sch, job.circuit, Holoseed(sch, job.seed))
  }

  /** The routing command of hop `k` of `1 .. L`. */
  function Command(sch: Scheme, job: Job, k: nat): Bytes
    requires IsCircuit(job.circuit) && 1 <= k <= |job.circuit.lines|
  {
    if k == |job.circuit.lines| then [DELIVER] + Holonomy(sch, job)
    else [NEXT] + EncodeTriple(job.circuit.relays[k + 1])
  }

  /** A layer as bytes. */
  function Assemble(sch: Scheme, text: Bytes, session: Bytes, nonce: Bytes, body: Bytes): Bytes {
    [VERSION] + text + nonce + sch.seal(sch.hash(LenKeyDomain, session), nonce, Be(|body|, 2)) + body
  }

  function SealedBody(sch: Scheme, session: Bytes, nonce: Bytes, body: Bytes): Bytes {
    sch.seal(sch.hash(HopKeyDomain, session), nonce, body)
  }

  /** Wrap `inner` for hop `k`, and the hop's session secret. */
  function Wrap(sch: Scheme, job: Job, k: nat, inner: Bytes): Result<(Bytes, Bytes)>
    requires IsCircuit(job.circuit) && 1 <= k <= |job.circuit.lines| == |job.keys|
  {
    match sch.encapsulate(job.keys[k - 1], HopSeed(job, k))
    case None => Err(NonContributory)
    case Some((text, session)) =>
      var nonce := HopNonce(sch, job, k);
      var body := SealedBody(sch, session, nonce, Command(sch, job, k) + inner);
      if |body| > MAX_LEN_FIELD then Err(TooLong) else Ok((Assemble(sch, text, session, nonce, body), session))
  }

  /** The unpadded onion from hop `k` on, and the session secret of its outermost hop. */
  function WrapFrom(sch: Scheme, job: Job, k: nat): Result<(Bytes, Bytes)>
    requires IsCircuit(job.circuit) && |job.circuit.lines| == |job.keys| && 1 <= k <= |job.keys| + 1
    decreases |job.keys| + 1 - k
  {
    if k == |job.keys| + 1 then Ok((job.payload, Zeros(32)))
    else
      match WrapFrom(sch, job, k + 1)
      case Err(e) => Err(e)
      case Ok((inner, _)) => Wrap(sch, job, k, inner)
  }

  function PadToBucket(sch: Scheme, onion: Bytes, session: Bytes): Result<Bytes> {
    if |onion| > ONION_LEN then Err(TooLong) else Ok(onion + sch.xof(BucketPadStream, session, ONION_LEN - |onion|))
  }

  function Build(sch: Scheme, job: Job): Result<Bytes>
    requires IsCircuit(job.circuit)
  {
    if |job.keys| != |job.circuit.lines| then Err(KeyMismatch)
    else
      match WrapFrom(sch, job, 1)
      case Err(e) => Err(e)
      case Ok((onion, session)) => PadToBucket(sch, onion, session)
  }

  /** The builder as it runs: wrap from the last hop to the first, then pad once. */
  method BuildOnion(sch: Scheme, job: Job) returns (r: Result<Bytes>)
    requires IsCircuit(job.circuit)
    ensures r == Build(sch, job)
  {
    hide Wrap, PadToBucket;
    if |job.keys| != |job.circuit.lines| { return Err(KeyMismatch); }
    var inner, session := job.payload, Zeros(32);
    var k := |job.keys| + 1;
    while k > 1
      invariant 1 <= k <= |job.keys| + 1
      invariant WrapFrom(sch, job, k) == Ok((inner, session))
    {
      k := k - 1;
      var wrapped := Wrap(sch, job, k, inner);
      if wrapped.Err? {
        WrapFails(sch, job, k);
        return Err(wrapped.error);
      }
      inner, session := wrapped.value.0, wrapped.value.1;
    }
    return PadToBucket(sch, inner, session);
  }

  lemma {:induction false} WrapFails(sch: Scheme, job: Job, k: nat)
    requires IsCircuit(job.circuit) && |job.circuit.lines| == |job.keys| && 1 <= k <= |job.keys| + 1
    requires WrapFrom(sch, job, k).Err?
    ensures WrapFrom(sch, job, 1) == WrapFrom(sch, job, k)
    decreases k
  {
    hide Wrap;
    if k > 1 { WrapFails(sch, job, k - 1); }
  }

  // ----- Peeling -----

  function Obey(sch: Scheme, session: Bytes, text: Bytes): Result<Outcome> {
    if text == [] then Err(Malformed)
    else
      var rest := text[1..];
      if text[0] == DELIVER then
        if |rest| < HASH_LEN then Err(Malformed) else Ok(Deliver(rest[HASH_LEN..], rest[..HASH_LEN]))
      else if text[0] == NEXT then
        if |rest| < 12 then Err(Malformed)
        else
          match PadToBucket(sch, rest[12..], session)
          case Err(e) => Err(e)
          case Ok(onion) => Ok(Forward(DecodeTriple(rest[..12]), onion))
      else Err(Malformed)
  }

  function Peel(sch: Scheme, onion: Bytes, holder: nat): Result<Outcome> {
    if |onion| < OFF_BODY_CT || onion[0] != VERSION then Err(Malformed)
    else
      match sch.decapsulate(holder, onion[1..OFF_NONCE])
      case None => Err(NonContributory)
      case Some(session) =>
        var nonce := onion[OFF_NONCE..OFF_LEN_CT];
        match sch.open(sch.hash(LenKeyDomain, session), nonce, onion[OFF_LEN_CT..OFF_BODY_CT])
        case None => Err(Aead)
        case Some(length) =>
          if |length| < 2 then Err(Malformed)
          else
            var width := FromBe(length[..2]);
            if OFF_BODY_CT + width > |onion| then Err(Malformed)
            else
              match sch.open(sch.hash(HopKeyDomain, session), nonce, onion[OFF_BODY_CT..OFF_BODY_CT + width])
              case None => Err(Aead)
              case Some(text) => Obey(sch, session, text)
  }

  // ----- Size -----

  /** The closed-form size of the unpadded onion from hop `k` on. */
  function Size(job: Job, k: nat): int { |job.payload| + 1200 + 1180 * (|job.keys| - k) }

  predicate Buildable(job: Job) { IsCircuit(job.circuit) && |job.circuit.lines| == |job.keys| }

  ghost predicate Contributory(sch: Scheme, job: Job, k: nat)
    requires 1 <= k <= |job.keys|
  {
    sch.encapsulate(job.keys[k - 1], HopSeed(job, k)).Some?
  }

  ghost predicate ContributoryFrom(sch: Scheme, job: Job, k: nat)
    requires k >= 1
  {
    forall j :: k <= j <= |job.keys| ==> Contributory(sch, job, j)
  }

  /** The last hop whose key is not contributory, or 0. */
  ghost function LastBad(sch: Scheme, job: Job, k: nat): (bad: nat)
    requires k <= |job.keys|
    ensures bad <= k
    decreases k
  {
    if k == 0 || !Contributory(sch, job, k) then k else LastBad(sch, job, k - 1)
  }

  lemma {:induction false} LastBadIsLast(sch: Scheme, job: Job, k: nat, j: nat)
    requires k <= |job.keys|
    ensures LastBad(sch, job, k) > 0 ==> !Contributory(sch, job, LastBad(sch, job, k))
    ensures LastBad(sch, job, k) < j <= k ==> Contributory(sch, job, j)
    decreases k
  {
    hide Contributory;
    if k > 0 && Contributory(sch, job, k) { LastBadIsLast(sch, job, k - 1, j); }
  }

  lemma {:induction false} WrapSize(sch: Scheme, job: Job, k: nat, inner: Bytes)
    requires Laws(sch) && Buildable(job) && 1 <= k <= |job.keys| && Contributory(sch, job, k)
    requires k == |job.keys| ==> inner == job.payload
    requires k < |job.keys| ==> |inner| == Size(job, k + 1)
    ensures var r := Wrap(sch, job, k, inner);
            if Size(job, k) - OFF_BODY_CT > MAX_LEN_FIELD then r == Err(TooLong) else r.Ok? && |r.value.0| == Size(job, k)
  {
    hide Laws, Connections, Cascade, EncodeTriple, Be;
    var (text, session) := sch.encapsulate(job.keys[k - 1], HopSeed(job, k)).value;
    KemOpens(sch, job.keys[k - 1], HopSeed(job, k));
    var nonce := HopNonce(sch, job, k);
    NonceWidth(sch, job, k);
    CommandWidth(sch, job, k);
    var body := Command(sch, job, k) + inner;
    SealOpens(sch, sch.hash(HopKeyDomain, session), nonce, body);
    SealOpens(sch, sch.hash(LenKeyDomain, session), nonce, Be(|SealedBody(sch, session, nonce, body)|, 2));
  }

  lemma {:induction false} NonceWidth(sch: Scheme, job: Job, k: nat)
    requires Laws(sch)
    ensures |HopNonce(sch, job, k)| == NONCE_LEN
  {
    hide Laws;
    HashWidth(sch, HopNonceDomain, HopSeed(job, k));
  }

  lemma {:induction false} CommandWidth(sch: Scheme, job: Job, k: nat)
    requires Laws(sch) && IsCircuit(job.circuit) && 1 <= k <= |job.circuit.lines|
    ensures |Command(sch, job, k)| == 1 + if k == |job.circuit.lines| then HASH_LEN else 12
    ensures |Holonomy(sch, job)| == HASH_LEN
  {
    hide Laws, Connections, Cascade;
    var c := job.circuit;
    HashWidth(sch, RatchetFinalDomain,
              Cascade(sch, Connections(c, |c.lines|), Holoseed(sch, job.seed)) + Be(|c.lines|, 4));
  }

  /** Why the onion from hop `k` on is refused, if it is. */
  ghost function RefusalFrom(sch: Scheme, job: Job, k: nat): Option<Error>
    requires 1 <= k <= |job.keys| + 1
  {
    var bad := LastBad(sch, job, |job.keys|);
    var first := if bad >= k then bad + 1 else k;
    if first <= |job.keys| && Size(job, first) - OFF_BODY_CT > MAX_LEN_FIELD then Some(TooLong)
    else if bad >= k then Some(NonContributory)
    else None
  }

  lemma {:induction false} WrapFromSize(sch: Scheme, job: Job, k: nat)
    requires Laws(sch) && Buildable(job) && 1 <= k <= |job.keys| + 1
    ensures match RefusalFrom(sch, job, k)
            case Some(e) => WrapFrom(sch, job, k) == Err(e)
            case None =>
              && WrapFrom(sch, job, k).Ok?
              && |WrapFrom(sch, job, k).value.0| == (if k <= |job.keys| then Size(job, k) else |job.payload|)
              && (k == |job.keys| + 1 ==> WrapFrom(sch, job, k).value.0 == job.payload)
    decreases |job.keys| + 1 - k
  {
    hide Laws, Wrap, RefusalFrom, Contributory;
    if k == |job.keys| + 1 {
      NothingRefused(sch, job);
    } else {
      WrapFromSize(sch, job, k + 1);
      RefusalStep(sch, job, k);
      var inner := WrapFrom(sch, job, k + 1);
      if inner.Ok? {
        if Contributory(sch, job, k) { WrapSize(sch, job, k, inner.value.0); } else { WrapRefuses(sch, job, k, inner.value.0); }
      }
    }
  }

  lemma {:induction false} NothingRefused(sch: Scheme, job: Job)
    ensures RefusalFrom(sch, job, |job.keys| + 1).None?
  {
  }

  /** The closed form of the refusal, one hop at a time. */
  lemma {:induction false} RefusalStep(sch: Scheme, job: Job, k: nat)
    requires 1 <= k <= |job.keys|
    ensures RefusalFrom(sch, job, k) ==
            if RefusalFrom(sch, job, k + 1).Some? then RefusalFrom(sch, job, k + 1)
            else if !Contributory(sch, job, k) then Some(NonContributory)
            else if Size(job, k) - OFF_BODY_CT > MAX_LEN_FIELD then Some(TooLong)
            else None
  {
    hide Contributory;
    LastBadIsLast(sch, job, |job.keys|, k);
  }

  lemma {:induction false} WrapRefuses(sch: Scheme, job: Job, k: nat, inner: Bytes)
    requires Buildable(job) && 1 <= k <= |job.keys| && !Contributory(sch, job, k)
    ensures Wrap(sch, job, k, inner) == Err(NonContributory)
  {
  }

  /** Why the build is refused, if it is. */
  ghost function Refusal(sch: Scheme, job: Job): Option<Error> {
    if |job.keys| != |job.circuit.lines| then Some(KeyMismatch)
    else
      match RefusalFrom(sch, job, 1)
      case Some(e) => Some(e)
      case None =>
        if (if job.keys == [] then |job.payload| else Size(job, 1)) > ONION_LEN then Some(TooLong) else None
  }

  /**
   The builder's verdict for every job, in closed form; with contributory keys and at least one hop it is
   refused exactly when the closed-form size exceeds the bucket.
   */
  lemma {:induction false} BuildVerdict(sch: Scheme, job: Job)
    requires Laws(sch) && IsCircuit(job.circuit)
    ensures match Refusal(sch, job)
            case Some(e) => Build(sch, job) == Err(e)
            case None => Build(sch, job).Ok? && |Build(sch, job).value| == ONION_LEN
    ensures Buildable(job) && job.keys != [] && ContributoryFrom(sch, job, 1) ==>
            Refusal(sch, job) == if Size(job, 1) > ONION_LEN then Some(TooLong) else None
  {
    hide Laws, WrapFrom, Contributory, RefusalFrom;
    if Buildable(job) {
      WrapFromSize(sch, job, 1);
      if job.keys != [] && ContributoryFrom(sch, job, 1) { OnlySizeRefuses(sch, job); }
      var r := WrapFrom(sch, job, 1);
      if r.Ok? && |r.value.0| <= ONION_LEN { XofWidth(sch, BucketPadStream, r.value.1, ONION_LEN - |r.value.0|); }
    }
  }

  lemma {:induction false} OnlySizeRefuses(sch: Scheme, job: Job)
    requires job.keys != [] && ContributoryFrom(sch, job, 1)
    ensures RefusalFrom(sch, job, 1) == if Size(job, 1) - OFF_BODY_CT > MAX_LEN_FIELD then Some(TooLong) else None
  {
    hide Contributory;
    LastBadIsLast(sch, job, |job.keys|, 1);
  }

  // ----- The whole walk -----

  /** The unpadded onion from hop `k` on. */
  function InnerAt(sch: Scheme, job: Job, k: nat): Bytes
    requires Buildable(job) && 1 <= k <= |job.keys| + 1
  {
    match WrapFrom(sch, job, k) case Ok((onion, _)) => onion case Err(_) => []
  }

  /** The session secret of hop `k`. */
  function SessionAt(sch: Scheme, job: Job, k: nat): Bytes
    requires 1 <= k <= |job.keys|
  {
    match sch.encapsulate(job.keys[k - 1], HopSeed(job, k)) case Some((_, session)) => session case None => []
  }

  /** What hop `k` must see, and what packet it hands on. */
  function Expected(sch: Scheme, job: Job, k: nat): Outcome
    requires Buildable(job) && 1 <= k <= |job.keys|
  {
    if k == |job.keys| then Deliver(job.payload, Holonomy(sch, job))
    else
      var inner := InnerAt(sch, job, k + 1);
      var room := if |inner| > ONION_LEN then 0 else ONION_LEN - |inner|;
      Forward(job.circuit.relays[k + 1], inner + sch.xof(BucketPadStream, SessionAt(sch, job, k), room))
  }

  lemma {:induction false} HopIsWrapped(sch: Scheme, job: Job, k: nat)
    requires Laws(sch) && Buildable(job) && 1 <= k <= |job.keys| && Refusal(sch, job).None?
    ensures Contributory(sch, job, k) && Size(job, k) <= ONION_LEN
    ensures Wrap(sch, job, k, InnerAt(sch, job, k + 1)) == Ok((InnerAt(sch, job, k), SessionAt(sch, job, k)))
    ensures |InnerAt(sch, job, k)| == Size(job, k)
    ensures |InnerAt(sch, job, k + 1)| == if k < |job.keys| then Size(job, k + 1) else |job.payload|
    ensures k == |job.keys| ==> InnerAt(sch, job, k + 1) == job.payload
  {
    hide Laws, Assemble, SealedBody, Command, RefusalFrom;
    NoRefusalFrom(sch, job, k);
    NoRefusalFrom(sch, job, k + 1);
    WrapFromSize(sch, job, k);
    WrapFromSize(sch, job, k + 1);
    RefusalStep(sch, job, k);
  }

  lemma {:induction false} NoRefusalFrom(sch: Scheme, job: Job, k: nat)
    requires 1 <= k <= |job.keys| + 1 && Refusal(sch, job).None?
    ensures RefusalFrom(sch, job, k).None?
    ensures k <= |job.keys| ==> Size(job, k) <= ONION_LEN
    decreases k
  {
    hide Contributory, RefusalFrom;
    if k > 1 {
      NoRefusalFrom(sch, job, k - 1);
      RefusalStep(sch, job, k - 1);
    }
  }

  lemma {:induction false} AssembledParts(sch: Scheme, text: Bytes, session: Bytes, nonce: Bytes, body: Bytes, filler: Bytes)
    requires Laws(sch) && |text| == KEM_TEXT_LEN && |nonce| == NONCE_LEN && |body| <= MAX_LEN_FIELD
    ensures var onion := Assemble(sch, text, session, nonce, body) + filler;
            && |onion| >= OFF_BODY_CT + |body| && onion[0] == VERSION
            && onion[1..OFF_NONCE] == text && onion[OFF_NONCE..OFF_LEN_CT] == nonce
            && onion[OFF_LEN_CT..OFF_BODY_CT] == sch.seal(sch.hash(LenKeyDomain, session), nonce, Be(|body|, 2))
            && onion[OFF_BODY_CT..OFF_BODY_CT + |body|] == body
  {
    hide Laws, Be;
    SealOpens(sch, sch.hash(LenKeyDomain, session), nonce, Be(|body|, 2));
  }

  lemma {:induction false} AssembledOpens(
    sch: Scheme, holder: nat, text: Bytes, session: Bytes, nonce: Bytes, plain: Bytes, filler: Bytes)
    requires Laws(sch) && |text| == KEM_TEXT_LEN && |nonce| == NONCE_LEN
    requires |SealedBody(sch, session, nonce, plain)| <= MAX_LEN_FIELD && sch.decapsulate(holder, text) == Some(session)
    ensures Peel(sch, Assemble(sch, text, session, nonce, SealedBody(sch, session, nonce, plain)) + filler, holder) ==
            Obey(sch, session, plain)
  {
    hide Laws, Assemble, Obey, Be, FromBe;
    var body := SealedBody(sch, session, nonce, plain);
    AssembledParts(sch, text, session, nonce, body, filler);
    SealOpens(sch, sch.hash(LenKeyDomain, session), nonce, Be(|body|, 2));
    SealOpens(sch, sch.hash(HopKeyDomain, session), nonce, plain);
    FieldWidths();
    BeRoundTrip(|body|, 2);
    assert Be(|body|, 2)[..2] == Be(|body|, 2);
  }

  lemma {:induction false} ObeyDeliver(sch: Scheme, session: Bytes, holonomy: Bytes, inner: Bytes)
    requires |holonomy| == HASH_LEN
    ensures Obey(sch, session, [DELIVER] + holonomy + inner) == Ok(Deliver(inner, holonomy))
  {
    var text := [DELIVER] + holonomy + inner;
    assert text[1..] == holonomy + inner;
    assert text[1..][..HASH_LEN] == holonomy && text[1..][HASH_LEN..] == inner;
  }

  lemma {:induction false} ObeyNext(sch: Scheme, session: Bytes, next: Triple, inner: Bytes)
    requires |inner| <= ONION_LEN
    ensures Obey(sch, session, [NEXT] + EncodeTriple(next) + inner) ==
            Ok(Forward(next, inner + sch.xof(BucketPadStream, session, ONION_LEN - |inner|)))
  {
    hide EncodeTriple, DecodeTriple;
    var text := [NEXT] + EncodeTriple(next) + inner;
    assert text[1..] == EncodeTriple(next) + inner;
    assert text[1..][..12] == EncodeTriple(next) && text[1..][12..] == inner;
    TripleRoundTrip(next);
  }

  lemma {:induction false} CommandIsObeyed(sch: Scheme, job: Job, k: nat)
    requires Laws(sch) && Buildable(job) && 1 <= k <= |job.keys| && Refusal(sch, job).None?
    ensures Obey(sch, SessionAt(sch, job, k), Command(sch, job, k) + InnerAt(sch, job, k + 1)) == Ok(Expected(sch, job, k))
  {
    hide Laws, InnerAt, SessionAt, Refusal, CircuitHolonomy, EncodeTriple, Obey, Contributory, Wrap, Holonomy;
    HopIsWrapped(sch, job, k);
    var inner, session := InnerAt(sch, job, k + 1), SessionAt(sch, job, k);
    if k == |job.keys| {
      CommandWidth(sch, job, k);
      ObeyDeliver(sch, session, Holonomy(sch, job), inner);
    } else {
      HopIsWrapped(sch, job, k + 1);
      ObeyNext(sch, session, job.circuit.relays[k + 1], inner);
    }
  }

  /** Hop `k` peels its layer, and the filler behind the layer, whatever it is, does not matter. */
  lemma {:induction false} HopPeels(sch: Scheme, job: Job, k: nat, filler: Bytes)
    requires Laws(sch) && Buildable(job) && 1 <= k <= |job.keys| && Refusal(sch, job).None?
    ensures Peel(sch, InnerAt(sch, job, k) + filler, job.keys[k - 1]) == Ok(Expected(sch, job, k))
  {
    hide Laws, Peel, Obey, Assemble, SealedBody, Command, InnerAt, Expected, Refusal;
    HopIsWrapped(sch, job, k);
    NonceWidth(sch, job, k);
    var (text, session) := sch.encapsulate(job.keys[k - 1], HopSeed(job, k)).value;
    KemOpens(sch, job.keys[k - 1], HopSeed(job, k));
    AssembledOpens(sch, job.keys[k - 1], text, session, HopNonce(sch, job, k), Command(sch, job, k) + InnerAt(sch, job, k + 1), filler);
    CommandIsObeyed(sch, job, k);
  }

  /** Any packet at all, peeled with any key, is handed on at exactly the bucket's width. */
  lemma {:induction false} ForwardingFillsTheBucket(sch: Scheme, onion: Bytes, holder: nat)
    requires Laws(sch)
    ensures Filled(Peel(sch, onion, holder))
  {
    hide Laws, FromBe, Obey;
    forall session: Bytes, text: Bytes
      ensures Filled(Obey(sch, session, text))
    {
      ObeyFills(sch, session, text);
    }
  }

  predicate Filled(r: Result<Outcome>) { r.Ok? && r.value.Forward? ==> |r.value.onion| == ONION_LEN }

  lemma {:induction false} ObeyFills(sch: Scheme, session: Bytes, text: Bytes)
    requires Laws(sch)
    ensures Filled(Obey(sch, session, text))
  {
    hide Laws, DecodeTriple;
    if |text| >= 13 && |text| - 13 <= ONION_LEN { XofWidth(sch, BucketPadStream, session, ONION_LEN - |text[1..][12..]|); }
  }

  /** Peel hop by hop with these keys: the packets, the relays visited after the first, and how it ends. */
  function Travel(sch: Scheme, onion: Bytes, keys: seq<nat>): (seq<Bytes>, seq<Triple>, Option<Outcome>)
    decreases |keys|
  {
    if keys == [] then ([onion], [], None)
    else
      match Peel(sch, onion, keys[0])
      case Err(_) => ([onion], [], None)
      case Ok(Deliver(payload, holonomy)) => ([onion], [], Some(Deliver(payload, holonomy)))
      case Ok(Forward(next, inner)) =>
        var (packets, visited, end) := Travel(sch, inner, keys[1..]);
        ([onion] + packets, [next] + visited, end)
  }

  /** A walk from hop `k` on that keeps one width, visits the remaining relays in order and delivers. */
  predicate Arrives(sch: Scheme, job: Job, k: nat, walk: (seq<Bytes>, seq<Triple>, Option<Outcome>))
    requires IsCircuit(job.circuit) && k <= |job.circuit.lines|
  {
    && AllWide(walk.0, ONION_LEN)
    && walk.1 == job.circuit.relays[k + 1..]
    && walk.2 == Some(Deliver(job.payload, Holonomy(sch, job)))
  }

  lemma {:induction false} OneHopMore(
    sch: Scheme, job: Job, k: nat, onion: Bytes, walk: (seq<Bytes>, seq<Triple>, Option<Outcome>))
    requires IsCircuit(job.circuit) && k < |job.circuit.lines| && |onion| == ONION_LEN && Arrives(sch, job, k + 1, walk)
    ensures Arrives(sch, job, k, ([onion] + walk.0, [job.circuit.relays[k + 1]] + walk.1, walk.2))
  {
    hide Holonomy;
    assert job.circuit.relays[k + 1..] == [job.circuit.relays[k + 1]] + job.circuit.relays[k + 2..];
  }

  lemma {:induction false} LastHopArrives(sch: Scheme, job: Job, onion: Bytes)
    requires Buildable(job) && |onion| == ONION_LEN
    ensures Arrives(sch, job, |job.keys|, ([onion], [], Some(Deliver(job.payload, Holonomy(sch, job)))))
  {
    hide Holonomy;
  }

  lemma {:induction false} TravelFrom(sch: Scheme, job: Job, k: nat, filler: Bytes)
    requires Laws(sch) && Buildable(job) && 1 <= k <= |job.keys| && Refusal(sch, job).None?
    requires |InnerAt(sch, job, k) + filler| == ONION_LEN
    ensures Arrives(sch, job, k, Travel(sch, InnerAt(sch, job, k) + filler, job.keys[k - 1..]))
    decreases |job.keys| - k
  {
    hide Laws, Peel, InnerAt, Refusal, Holonomy, Arrives, SessionAt, Contributory, Wrap;
    HopPeels(sch, job, k, filler);
    HopIsWrapped(sch, job, k);
    var onion := InnerAt(sch, job, k) + filler;
    if k < |job.keys| {
      var inner := InnerAt(sch, job, k + 1);
      HopIsWrapped(sch, job, k + 1);
      var pad := sch.xof(BucketPadStream, SessionAt(sch, job, k), ONION_LEN - |inner|);
      XofWidth(sch, BucketPadStream, SessionAt(sch, job, k), ONION_LEN - |inner|);
      TravelFrom(sch, job, k + 1, pad);
      assert job.keys[k - 1..][1..] == job.keys[k..];
      OneHopMore(sch, job, k, onion, Travel(sch, inner + pad, job.keys[k..]));
    } else {
      LastHopArrives(sch, job, onion);
    }
  }

  /**
   A built onion, peeled with the relays' keys in order: every packet is exactly the bucket, every next hop is
   visited in order, and the payload and the path tag are delivered.
   */
  lemma {:induction false} TheCircuitDelivers(sch: Scheme, job: Job, onion: Bytes)
    requires Laws(sch) && IsCircuit(job.circuit) && job.keys != [] && Build(sch, job) == Ok(onion)
    ensures |job.keys| == |job.circuit.lines|
    ensures Arrives(sch, job, 1, Travel(sch, onion, job.keys))
    ensures VerifyDelivery(sch, job.circuit, job.seed, Holonomy(sch, job)).Ok?
  {
    hide Laws, Travel, Refusal, CircuitHolonomy, WrapFrom, Arrives;
    BuildVerdict(sch, job);
    var (inner, session) := WrapFrom(sch, job, 1).value;
    var pad := sch.xof(BucketPadStream, session, ONION_LEN - |inner|);
    TravelFrom(sch, job, 1, pad);
    assert job.keys[0..] == job.keys;
  }
}
