/**
 Two honest double-ratchet parties on a network that loses, reorders, duplicates, replays and reflects
 bodies, puts any header around them, and injects forgeries.  One header is set apart: the key on the first
 message of an epoch is bound to nothing, and swapping it there is shown to lose the session.

 `History` is the reference: one sequence of epochs, each the KDF of the one before, made in turn by the
 initiator and the responder, with the plaintexts sealed in it.  The invariant `Sound` places each
 party's root, keys and chains on that sequence; the theorems at the end read it off for every run.
 */
module RatchetRuns {
  import opened Symbolic
  import opened Ratchet
  import Chain

  datatype Role = Initiator | Responder

  /** Epoch `k` of the shared history: the ratchet key it introduced and what was sealed on its chain. */
  datatype Epoch = Epoch(id: nat, coin: nat, root: Key, chain: Key, plains: seq<Plain>)

  /** `next` is above every ratchet key id in use. */
  datatype History = History(genesis: Key, firstId: nat, epochs: seq<Epoch>, next: nat)

  datatype Receipt = Receipt(epoch: nat, n: nat, plain: Plain)
  datatype Side = Side(party: Party, got: seq<Receipt>)

  /** A message on the wire, tagged with where its sender sealed it; no party reads the tag. */
  datatype Packet = Packet(epoch: nat, n: nat, msg: Msg)
  datatype World = World(h: History, wire: set<Packet>, a: Side, b: Side)

  // ----- The shared history -----

  /** The party that makes epoch `k`. */
  function Maker(k: nat): Role { if k % 2 == 0 then Initiator else Responder }

  function RootAt(h: History, k: nat): Key
    requires k <= |h.epochs|
  {
    if k == 0 then h.genesis else h.epochs[k - 1].root
  }

  /** The ratchet key that epoch `k` encapsulates to. */
  function IdAt(h: History, k: nat): nat
    requires k <= |h.epochs|
  {
    if k == 0 then h.firstId else h.epochs[k - 1].id
  }

  function NewEpoch(h: History, plain: Plain): Epoch {
    var root, shared := RootAt(h, |h.epochs|), Shared(IdAt(h, |h.epochs|), h.next);
    Epoch(h.next + 1, h.next, NextRoot(root, shared), ChainKey(root, shared), [plain])
  }

  predicate InHistory(h: History, k: nat, n: nat) {
    k < |h.epochs| && n < |h.epochs[k].plains|
  }

  /** The message that carries plaintext `n` of epoch `k`. */
  function MsgAt(h: History, k: nat, n: nat): Msg
    requires InHistory(h, k, n)
  {
    var e := h.epochs[k];
    var body := Sealed(Chain.KeyOf(e.chain, n), n, e.plains[n]);
    if n > 0 then InChainMsg(Pub(e.id), n, body)
    else RatchetMsg(Some(Pub(e.id)), Encap(IdAt(h, k), e.coin), if k < 2 then 0 else |h.epochs[k - 2].plains|, 0, body)
  }

  ghost predicate EpochOk(h: History, k: nat)
    requires k < |h.epochs|
  {
    var e, shared := h.epochs[k], Shared(IdAt(h, k), h.epochs[k].coin);
    && e.root == NextRoot(RootAt(h, k), shared)
    && e.chain == ChainKey(RootAt(h, k), shared)
    && e.plains != []
  }

  ghost predicate HistoryOk(h: History) {
    && (forall k :: 0 <= k < |h.epochs| ==> EpochOk(h, k))
    && (forall i, j :: 0 <= i < j <= |h.epochs| ==> IdAt(h, i) < IdAt(h, j))
    && IdAt(h, |h.epochs|) < h.next
  }

  // ----- Where a party stands on it -----

  /** Whether `role` made the latest epoch; before the first, the responder's key counts as it. */
  predicate MadeLast(h: History, role: Role) {
    (|h.epochs| % 2 == 1) == (role == Initiator)
  }

  /** The position of a party's root on the root sequence. */
  function Pos(h: History, role: Role, p: Party): int {
    if MadeLast(h, role) || p.mustRatchet then |h.epochs| else |h.epochs| - 1
  }

  /** The latest epoch `role` made (-1 for the key it started with, -2 for none). */
  function Mine(h: History, role: Role): int {
    if MadeLast(h, role) then |h.epochs| - 1 else |h.epochs| - 2
  }

  /** The latest epoch of the peer that the party entered (-1 for the key it was given, -2 for none). */
  function Heard(h: History, role: Role, p: Party): int {
    if MadeLast(h, role) then |h.epochs| - 2 else if p.mustRatchet then |h.epochs| - 1 else |h.epochs| - 3
  }

  ghost predicate HeaderOk(h: History, role: Role, p: Party) {
    var mine, heard := Mine(h, role), Heard(h, role, p);
    && (p.mustRatchet ==> !MadeLast(h, role))
    && 0 <= Pos(h, role, p) <= |h.epochs|
    && p.root == RootAt(h, Pos(h, role, p))
    && p.self == (if mine >= -1 then Some(IdAt(h, mine + 1)) else None)
    && p.send == (if mine >= 0 then Some(Send(Chain.Advance(h.epochs[mine].chain, |h.epochs[mine].plains|),
                                              |h.epochs[mine].plains|)) else None)
    && p.peer == (if heard >= -1 then Some(Pub(IdAt(h, heard + 1))) else None)
  }

  /** The numbers of epoch `k` that were opened. */
  ghost function Got(got: seq<Receipt>, k: nat): set<nat> {
    set i | 0 <= i < |got| && got[i].epoch == k :: got[i].n
  }

  ghost predicate RecvOk(h: History, role: Role, s: Side) {
    var heard := Heard(h, role, s.party);
    if heard < 0 then s.party.recv.None?
    else s.party.recv.Some? && heard < |h.epochs| &&
         Chain.Tied(s.party.recv.value, h.epochs[heard].chain, Got(s.got, heard))
  }

  ghost predicate IsEpochKey(h: History, q: Pub) { q.Pub? && exists j :: 0 <= j < |h.epochs| && h.epochs[j].id == q.id }

  /** Every retired epoch is one of the peer's, before `bound`, tied to its own keys. */
  ghost predicate RetiredOk(h: History, role: Role, bound: int, past: map<Pub, Chain.Recv>, got: seq<Receipt>) {
    && (forall q :: q in past ==> IsEpochKey(h, q) && q.id < h.next)
    && (forall k :: 0 <= k < |h.epochs| && Pub(h.epochs[k].id) in past ==>
          && k < bound
          && Maker(k) != role
          && Chain.Tied(past[Pub(h.epochs[k].id)], h.epochs[k].chain, Got(got, k)))
  }

  ghost predicate PastOk(h: History, role: Role, s: Side) {
    RetiredOk(h, role, Heard(h, role, s.party), s.party.past, s.got)
  }

  ghost predicate ReceiptOk(h: History, role: Role, p: Party, r: Receipt) {
    && InHistory(h, r.epoch, r.n)
    && r.epoch <= Heard(h, role, p)
    && Maker(r.epoch) != role
    && r.plain == h.epochs[r.epoch].plains[r.n]
  }

  ghost predicate ReceiptsOk(h: History, role: Role, s: Side) {
    && (forall i :: 0 <= i < |s.got| ==> ReceiptOk(h, role, s.party, s.got[i]))
    && (forall i, j :: 0 <= i < j < |s.got| ==> s.got[i].epoch != s.got[j].epoch || s.got[i].n != s.got[j].n)
  }

  ghost predicate SideOk(h: History, role: Role, s: Side) {
    && HeaderOk(h, role, s.party)
    && RecvOk(h, role, s)
    && PastOk(h, role, s)
    && ReceiptsOk(h, role, s)
  }

  ghost predicate WireOk(h: History, wire: set<Packet>) {
    forall x :: x in wire ==> InHistory(h, x.epoch, x.n) && x.msg == MsgAt(h, x.epoch, x.n)
  }

  ghost predicate Sound(w: World) {
    HistoryOk(w.h) && WireOk(w.h, w.wire) && SideOk(w.h, Initiator, w.a) && SideOk(w.h, Responder, w.b)
  }

  // ----- Steps and runs -----

  datatype Event =
    | Sealing(role: Role, plain: Plain)
    | Delivery(role: Role, packet: Packet, msg: Msg)
    | Forgery(role: Role, msg: Msg)

  function SideOf(w: World, role: Role): Side { if role == Initiator then w.a else w.b }

  function WithSide(w: World, role: Role, s: Side): World {
    if role == Initiator then w.(a := s) else w.(b := s)
  }

  /** The network may put any header around a body. */
  predicate Carries(m: Msg, original: Msg) { !m.MalformedMsg? && !original.MalformedMsg? && m.body == original.body }

  /** The ratchet key a header names, and its `pn`. */
  function HeaderKey(m: Msg): Option<Pub> {
    match m case InChainMsg(pid, _, _) => Some(pid) case RatchetMsg(pub, _, _, _, _) => pub case MalformedMsg => None
  }

  function PnOf(m: Msg): nat { if m.RatchetMsg? then m.pn else 0 }

  /** The ciphertext that carries the KEM step of epoch `k`. */
  function TextAt(h: History, k: nat): KemText
    requires k < |h.epochs|
  {
    Encap(IdAt(h, k), h.epochs[k].coin)
  }

  /**
   A header still says where body `n` of epoch `k` belongs: its number and its key, and, for an epoch not entered
   yet, its ciphertext.  Everything else in it may be changed.
   */
  ghost predicate Says(h: History, role: Role, p: Party, k: nat, n: nat, m: Msg)
    requires InHistory(h, k, n)
  {
    && !m.MalformedMsg? && m.n == n && HeaderKey(m) == Some(Pub(h.epochs[k].id))
    && (k > Heard(h, role, p) ==> m.RatchetMsg? && m.ct == TextAt(h, k))
  }

  /** The first message of an epoch not entered yet, with its key replaced by one the receiver does not know. */
  ghost predicate Swaps(h: History, role: Role, p: Party, k: nat, n: nat, m: Msg)
    requires InHistory(h, k, n)
  {
    && Maker(k) != role && k > Heard(h, role, p) && n == 0
    && m.RatchetMsg? && m.n == 0 && m.ct == TextAt(h, k)
    && m.pub.Some? && m.pub != Some(Pub(h.epochs[k].id)) && m.pub != p.peer && m.pub.value !in p.past
  }

  /** The network may rewrite the `pn` of a ratchet header. */
  function WithPn(m: Msg, pn: nat): Msg { if m.RatchetMsg? then m.(pn := pn) else m }

  function Append(h: History, k: nat, plain: Plain): History
    requires k < |h.epochs|
  {
    h.(epochs := h.epochs[k := h.epochs[k].(plains := h.epochs[k].plains + [plain])])
  }

  function AfterSeal(w: World, role: Role, plain: Plain): World {
    var s, mine := SideOf(w, role), Mine(w.h, role);
    var (p, m) := Seal(s.party, w.h.next, w.h.next + 1, plain);
    var w' := WithSide(w, role, s.(party := p));
    if m.None? then w'
    else if m.value.RatchetMsg? then
      w'.(h := w.h.(epochs := w.h.epochs + [NewEpoch(w.h, plain)], next := w.h.next + 2),
          wire := w.wire + {Packet(|w.h.epochs|, 0, m.value)})
    else if mine < 0 then w'
    else
      w'.(h := Append(w.h, mine, plain),
          wire := w.wire + {Packet(mine, |w.h.epochs[mine].plains|, m.value)})
  }

  ghost function AfterOpen(s: Side, k: nat, n: nat, m: Msg): Side {
    var (p, r) := Open(s.party, m);
    Side(p, if r.Some? then s.got + [Receipt(k, n, r.value)] else s.got)
  }

  ghost function Step(w: World, e: Event): World {
    match e
    case Sealing(role, plain) => AfterSeal(w, role, plain)
    case Delivery(role, x, m) => WithSide(w, role, AfterOpen(SideOf(w, role), x.epoch, x.n, m))
    case Forgery(role, m) => WithSide(w, role, AfterOpen(SideOf(w, role), 0, 0, m))
  }

  /**
   The network delivers any body it has seen, to either party and as often as it likes, under any header at all but
   one: it does not swap the key on the first message of an epoch that the receiver has not entered.
   */
  ghost predicate Enabled(w: World, e: Event) {
    match e
    case Sealing(_, _) => true
    case Delivery(role, x, m) =>
      x in w.wire && Carries(m, x.msg) && InHistory(w.h, x.epoch, x.n)
      && !Swaps(w.h, role, SideOf(w, role).party, x.epoch, x.n, m)
    case Forgery(_, m) => m.MalformedMsg? || m.body.Forged?
  }

  /** The two sessions right after the handshake to the key `id`. */
  function Genesis(orderA: Pub -> nat, orderB: Pub -> nat, id: nat, coin: nat): World {
    var (a, handshake) := Initiate(orderA, Pub(id), coin).value;
    var b := Respond(orderB, id, handshake).value;
    World(History(a.root, id, [], id + 1), {}, Side(a, []), Side(b, []))
  }

  ghost function After(w: World, run: seq<Event>): World {
    if run == [] then w else Step(After(w, run[..|run| - 1]), run[|run| - 1])
  }

  ghost predicate Feasible(w: World, run: seq<Event>) {
    forall i :: 0 <= i < |run| ==> Enabled(After(w, run[..i]), run[i])
  }

  // ----- Sealing keeps the invariant -----

  lemma {:induction false} RatchetKeepsHistory(h: History, plain: Plain)
    requires HistoryOk(h)
    ensures HistoryOk(h.(epochs := h.epochs + [NewEpoch(h, plain)], next := h.next + 2))
  {
    var h' := h.(epochs := h.epochs + [NewEpoch(h, plain)], next := h.next + 2);
    forall k | 0 <= k < |h'.epochs|
      ensures EpochOk(h', k)
    {
      assert RootAt(h', k) == RootAt(h, k) && IdAt(h', k) == IdAt(h, k);
      if k < |h.epochs| { assert EpochOk(h, k); }
    }
    forall i, j | 0 <= i < j <= |h'.epochs|
      ensures IdAt(h', i) < IdAt(h', j)
    {
      assert IdAt(h', i) == IdAt(h, i);
      if j <= |h.epochs| { assert IdAt(h', j) == IdAt(h, j); }
      if i < |h.epochs| { assert IdAt(h, i) < IdAt(h, |h.epochs|); }
    }
  }

  /** `h'` continues `h`: the same epochs, with perhaps more plaintexts, and perhaps one more epoch. */
  ghost predicate Extends(h: History, h': History) {
    && h'.genesis == h.genesis && h'.firstId == h.firstId
    && |h.epochs| <= |h'.epochs| && h.next <= h'.next
    && (forall k :: 0 <= k < |h.epochs| ==>
          h'.epochs[k].(plains := h.epochs[k].plains) == h.epochs[k] && h.epochs[k].plains <= h'.epochs[k].plains)
    && (forall k :: |h.epochs| <= k < |h'.epochs| ==> h.next < h'.epochs[k].id < h'.next)
  }

  lemma {:induction false} StableIds(h: History, h': History, k: nat)
    requires Extends(h, h') && k <= |h.epochs|
    ensures RootAt(h', k) == RootAt(h, k) && IdAt(h', k) == IdAt(h, k)
  {
    if k > 0 {
      var e := h'.epochs[k - 1];
      assert e.(plains := h.epochs[k - 1].plains) == h.epochs[k - 1];
    }
  }

  /** What a party received stays sound while the history grows and the party's own place does not move. */
  lemma {:induction false} ReceivedIsStable(h: History, h': History, role: Role, s: Side, p': Party)
    requires Extends(h, h')
    requires RecvOk(h, role, s) && PastOk(h, role, s) && ReceiptsOk(h, role, s)
    requires p'.recv == s.party.recv && p'.past == s.party.past
    requires Heard(h', role, p') == Heard(h, role, s.party)
    ensures RecvOk(h', role, s.(party := p')) && PastOk(h', role, s.(party := p')) && ReceiptsOk(h', role, s.(party := p'))
  {
    var s' := s.(party := p');
    var heard := Heard(h, role, s.party);
    if 0 <= heard { assert h'.epochs[heard].(plains := h.epochs[heard].plains) == h.epochs[heard]; }
    forall k | 0 <= k < |h'.epochs| && Pub(h'.epochs[k].id) in p'.past
      ensures k < heard && Maker(k) != role
      ensures Chain.Tied(p'.past[Pub(h'.epochs[k].id)], h'.epochs[k].chain, Got(s.got, k))
    {
      assert Pub(h'.epochs[k].id).id < h.next;
      assert h'.epochs[k].(plains := h.epochs[k].plains) == h.epochs[k];
    }
    forall q | q in p'.past
      ensures IsEpochKey(h', q)
    {
      EpochKeyStays(h, h', q);
    }
    forall i | 0 <= i < |s.got|
      ensures ReceiptOk(h', role, p', s.got[i])
    {
      assert ReceiptOk(h, role, s.party, s.got[i]);
      assert h.epochs[s.got[i].epoch].plains <= h'.epochs[s.got[i].epoch].plains;
    }
  }

  lemma {:induction false} EpochKeyStays(h: History, h': History, q: Pub)
    requires Extends(h, h') && IsEpochKey(h, q)
    ensures IsEpochKey(h', q)
  {
    var j :| 0 <= j < |h.epochs| && h.epochs[j].id == q.id;
    assert h'.epochs[j].(plains := h.epochs[j].plains) == h.epochs[j];
    assert h'.epochs[j].id == h.epochs[j].id;
  }

  lemma {:induction false} WireIsStable(h: History, h': History, wire: set<Packet>)
    requires Extends(h, h') && WireOk(h, wire)
    requires forall k :: 0 <= k < |h.epochs| - 2 ==> h'.epochs[k].plains == h.epochs[k].plains
    ensures WireOk(h', wire)
  {
    forall x | x in wire
      ensures InHistory(h', x.epoch, x.n) && x.msg == MsgAt(h', x.epoch, x.n)
    {
      var k := x.epoch;
      assert h'.epochs[k].(plains := h.epochs[k].plains) == h.epochs[k];
      assert h.epochs[k].plains <= h'.epochs[k].plains;
      StableIds(h, h', k);
    }
  }

  /** What sealing does when a ratchet is owed: it makes the next epoch of the history. */
  lemma {:induction false} SealMakesEpoch(h: History, role: Role, p: Party, plain: Plain)
    requires HistoryOk(h) && HeaderOk(h, role, p) && p.mustRatchet
    ensures var h' := h.(epochs := h.epochs + [NewEpoch(h, plain)], next := h.next + 2);
            var (p', m) := Seal(p, h.next, h.next + 1, plain);
            && m == Some(MsgAt(h', |h.epochs|, 0)) && m.value.RatchetMsg?
            && HeaderOk(h', role, p')
            && Heard(h', role, p') == Heard(h, role, p)
            && p'.recv == p.recv && p'.past == p.past
  {
    var K := |h.epochs|;
    var h' := h.(epochs := h.epochs + [NewEpoch(h, plain)], next := h.next + 2);
    assert Extends(h, h');
    StableIds(h, h', K);
    var p' := Seal(p, h.next, h.next + 1, plain).0;
    assert p.peer == Some(Pub(IdAt(h, K)));
    assert MadeLast(h', role) && Mine(h', role) == K;
    assert Chain.Advance(h'.epochs[K].chain, 1) == Chain.NextKey(h'.epochs[K].chain);
  }

  /** What sealing does otherwise: it extends the party's own chain, or, with no peer key yet, refuses. */
  lemma {:induction false} SealExtendsChain(h: History, role: Role, p: Party, plain: Plain)
    requires HistoryOk(h) && HeaderOk(h, role, p) && !p.mustRatchet
    ensures var (p', m) := Seal(p, h.next, h.next + 1, plain);
            var mine := Mine(h, role);
            && (mine < 0 ==> p' == p && m.None?)
            && (mine >= 0 ==>
                  var h' := Append(h, mine, plain);
                  && m == Some(MsgAt(h', mine, |h.epochs[mine].plains|))
                  && m.value.InChainMsg?
                  && HeaderOk(h', role, p')
                  && p'.recv == p.recv && p'.past == p.past && !p'.mustRatchet)
  {
    hide Extends;
    var mine := Mine(h, role);
    if mine < 0 {
      assert Heard(h, role, p) < -1;
    } else {
      assert EpochOk(h, mine);
      var h' := Append(h, mine, plain);
      AppendExtends(h, mine, plain);
      StableIds(h, h', Pos(h, role, p));
      StableIds(h, h', mine + 1);
      if Heard(h, role, p) >= -1 { StableIds(h, h', Heard(h, role, p) + 1); }
      Chain.AdvanceStep(h.epochs[mine].chain, |h.epochs[mine].plains|);
    }
  }

  lemma {:induction false} AppendExtends(h: History, k: nat, plain: Plain)
    requires k < |h.epochs|
    ensures Extends(h, Append(h, k, plain))
  {}

  lemma {:induction false} AppendKeepsHistory(h: History, k: nat, plain: Plain)
    requires HistoryOk(h) && k < |h.epochs|
    ensures HistoryOk(Append(h, k, plain))
  {
    var h' := Append(h, k, plain);
    AppendExtends(h, k, plain);
    forall j | 0 <= j < |h'.epochs|
      ensures EpochOk(h', j)
    {
      assert EpochOk(h, j);
      StableIds(h, h', j);
    }
    forall i, j | 0 <= i < j <= |h'.epochs|
      ensures IdAt(h', i) < IdAt(h', j)
    {
      StableIds(h, h', i);
      StableIds(h, h', j);
      assert IdAt(h, i) < IdAt(h, j);
    }
    StableIds(h, h', |h.epochs|);
  }

  /** A party that does not move keeps its header while the history grows past it. */
  lemma {:induction false} HeaderIsStable(h: History, h': History, role: Role, p: Party)
    requires Extends(h, h') && HeaderOk(h, role, p)
    requires Pos(h', role, p) == Pos(h, role, p) && Mine(h', role) == Mine(h, role)
    requires Heard(h', role, p) == Heard(h, role, p)
    requires p.mustRatchet ==> !MadeLast(h', role)
    requires 0 <= Mine(h, role) ==> h'.epochs[Mine(h, role)] == h.epochs[Mine(h, role)]
    ensures HeaderOk(h', role, p)
  {
    StableIds(h, h', Pos(h, role, p));
    if Mine(h, role) >= -1 { StableIds(h, h', Mine(h, role) + 1); }
    if Heard(h, role, p) >= -1 { StableIds(h, h', Heard(h, role, p) + 1); }
  }

  function Other(role: Role): Role { if role == Initiator then Responder else Initiator }

  /** A side keeps its place while its peer makes the next epoch or extends a chain. */
  lemma {:induction false} PeerFollows(h: History, h': History, role: Role, s: Side)
    requires SideOk(h, role, s) && Extends(h, h')
    requires |h'.epochs| == |h.epochs| || (|h'.epochs| == |h.epochs| + 1 && MadeLast(h, role))
    requires 0 <= Mine(h, role) ==> h'.epochs[Mine(h, role)] == h.epochs[Mine(h, role)]
    ensures SideOk(h', role, s)
  {
    hide Extends, RecvOk, PastOk, ReceiptsOk;
    HeaderIsStable(h, h', role, s.party);
    ReceivedIsStable(h, h', role, s, s.party);
  }

  lemma {:induction false} WireGrows(h: History, wire: set<Packet>, x: Packet)
    requires WireOk(h, wire) && InHistory(h, x.epoch, x.n) && x.msg == MsgAt(h, x.epoch, x.n)
    ensures WireOk(h, wire + {x})
  {}

  lemma {:induction false} RatchetIsSound(w: World, role: Role, plain: Plain)
    requires Sound(w) && SideOf(w, role).party.mustRatchet
    ensures Sound(AfterSeal(w, role, plain))
  {
    hide HistoryOk, SideOk, HeaderOk, WireOk, MsgAt, NewEpoch, Seal, Extends;
    var s, o, K := SideOf(w, role), SideOf(w, Other(role)), |w.h.epochs|;
    var h' := w.h.(epochs := w.h.epochs + [NewEpoch(w.h, plain)], next := w.h.next + 2);
    RatchetKeepsHistory(w.h, plain);
    RatchetExtends(w.h, plain);
    OwnSideRatchets(w.h, role, s, plain);
    PeerFollows(w.h, h', Other(role), o);
    WireIsStable(w.h, h', w.wire);
    WireGrows(h', w.wire, Packet(K, 0, MsgAt(h', K, 0)));
  }

  lemma {:induction false} OwnSideRatchets(h: History, role: Role, s: Side, plain: Plain)
    requires HistoryOk(h) && SideOk(h, role, s) && s.party.mustRatchet
    ensures !MadeLast(h, role)
    ensures var h' := h.(epochs := h.epochs + [NewEpoch(h, plain)], next := h.next + 2);
            var (p', m) := Seal(s.party, h.next, h.next + 1, plain);
            && InHistory(h', |h.epochs|, 0)
            && m == Some(MsgAt(h', |h.epochs|, 0)) && m.value.RatchetMsg?
            && SideOk(h', role, s.(party := p'))
  {
    hide HistoryOk, RecvOk, PastOk, ReceiptsOk, MsgAt, NewEpoch, Seal, Extends;
    var h' := h.(epochs := h.epochs + [NewEpoch(h, plain)], next := h.next + 2);
    RatchetExtends(h, plain);
    SealMakesEpoch(h, role, s.party, plain);
    ReceivedIsStable(h, h', role, s, Seal(s.party, h.next, h.next + 1, plain).0);
  }

  lemma {:induction false} RatchetExtends(h: History, plain: Plain)
    ensures var h' := h.(epochs := h.epochs + [NewEpoch(h, plain)], next := h.next + 2);
            Extends(h, h') && InHistory(h', |h.epochs|, 0)
  {}

  lemma {:induction false} InChainIsSound(w: World, role: Role, plain: Plain)
    requires Sound(w) && !SideOf(w, role).party.mustRatchet
    ensures Sound(AfterSeal(w, role, plain))
  {
    hide HistoryOk, SideOk, HeaderOk, WireOk, MsgAt, Seal, Extends;
    var s, o, mine := SideOf(w, role), SideOf(w, Other(role)), Mine(w.h, role);
    OwnSideSends(w.h, role, s, plain);
    if mine >= 0 {
      var h', n := Append(w.h, mine, plain), |w.h.epochs[mine].plains|;
      AppendExtends(w.h, mine, plain);
      AppendKeepsHistory(w.h, mine, plain);
      PeerFollows(w.h, h', Other(role), o);
      WireIsStable(w.h, h', w.wire);
      WireGrows(h', w.wire, Packet(mine, n, MsgAt(h', mine, n)));
    }
  }

  lemma {:induction false} OwnSideSends(h: History, role: Role, s: Side, plain: Plain)
    requires HistoryOk(h) && SideOk(h, role, s) && !s.party.mustRatchet
    ensures var (p', m) := Seal(s.party, h.next, h.next + 1, plain);
            var mine := Mine(h, role);
            && (mine < 0 ==> p' == s.party && m.None?)
            && (mine >= 0 ==>
                  var h' := Append(h, mine, plain);
                  && m == Some(MsgAt(h', mine, |h.epochs[mine].plains|)) && m.value.InChainMsg?
                  && SideOk(h', role, s.(party := p')))
  {
    hide HistoryOk, RecvOk, PastOk, ReceiptsOk, MsgAt, Seal, Extends;
    SealExtendsChain(h, role, s.party, plain);
    if Mine(h, role) >= 0 {
      AppendExtends(h, Mine(h, role), plain);
      ReceivedIsStable(h, Append(h, Mine(h, role), plain), role, s, Seal(s.party, h.next, h.next + 1, plain).0);
    }
  }

  // ----- Delivery -----

  /** Whether `role` opens message `n` of epoch `k` when it arrives. */
  ghost predicate Opens(h: History, role: Role, p: Party, k: nat, n: nat)
    requires InHistory(h, k, n)
  {
    var heard, q := Heard(h, role, p), Pub(h.epochs[k].id);
    && Maker(k) != role
    && (if k == heard then
          p.recv.Some? && var c := p.recv.value;
          c.n <= n <= c.n + Chain.MAX_SKIP_PER_MESSAGE || n in c.skipped
        else if k < heard then q in p.past && n in p.past[q].skipped
        else n == 0)
  }

  /** A ratchet message never runs the KEM step on a key it was not encapsulated to. */
  lemma {:induction false} FreshNeedsItsKey(h: History, p: Party, k: nat, pub: Pub, pn: nat, plain: Plain)
    requires k < |h.epochs| && EpochOk(h, k)
    requires p.self != Some(IdAt(h, k))
    ensures var e := h.epochs[k];
            OpenFresh(p, pub, Encap(IdAt(h, k), e.coin), pn, Sealed(Chain.KeyOf(e.chain, 0), 0, plain)) == (p, None)
  {
    var e := h.epochs[k];
    if p.self.Some? {
      var shared := Decapsulate(p.self.value, Encap(IdAt(h, k), e.coin)).value;
      assert shared.Rejected?;
      var c := Chain.NewRecv(ChainKey(p.root, shared));
      assert Chain.LiveKey(c, 0) == Chain.MessageKey(ChainKey(p.root, shared));
      assert Chain.KeyOf(e.chain, 0) == Chain.MessageKey(e.chain);
    }
  }

  /** A party's own message, reflected back at it, is refused. */
  lemma {:induction false} ReflectionIsRefused(h: History, role: Role, s: Side, k: nat, n: nat, pn: nat)
    requires HistoryOk(h) && SideOk(h, role, s) && InHistory(h, k, n) && Maker(k) == role
    ensures Open(s.party, WithPn(MsgAt(h, k, n), pn)) == (s.party, None)
  {
    hide OpenFresh, OpenCurrent, Chain.Tied, Got, RecvOk, ReceiptsOk, Chain.KeyOf;
    var p, q := s.party, Pub(h.epochs[k].id);
    assert q == Pub(IdAt(h, k + 1));
    IdsDiffer(h, Heard(h, role, p) + 1, k + 1);
    assert p.peer != Some(q);
    assert q !in p.past;
    if n == 0 {
      assert EpochOk(h, k);
      IdsDiffer(h, Mine(h, role) + 1, k);
      FreshNeedsItsKey(h, p, k, q, pn, h.epochs[k].plains[0]);
    }
  }

  lemma {:induction false} IdsDiffer(h: History, i: int, j: nat)
    requires HistoryOk(h) && i <= |h.epochs| && j <= |h.epochs| && i != j
    ensures 0 <= i ==> IdAt(h, i) != IdAt(h, j)
  {
    if 0 <= i < j {
      assert IdAt(h, i) < IdAt(h, j);
    } else if j < i {
      assert IdAt(h, j) < IdAt(h, i);
    }
  }

  /** A late message is opened from its retired epoch, and never runs the KEM step again. */
  lemma {:induction false} LateGoesToPast(h: History, role: Role, s: Side, k: nat, n: nat, pn: nat)
    requires HistoryOk(h) && SideOk(h, role, s) && InHistory(h, k, n) && Maker(k) != role
    requires k < Heard(h, role, s.party)
    ensures var e := h.epochs[k];
            Open(s.party, WithPn(MsgAt(h, k, n), pn))
            == OpenPast(s.party, Pub(e.id), n, Sealed(Chain.KeyOf(e.chain, n), n, e.plains[n]))
  {
    var p, q := s.party, Pub(h.epochs[k].id);
    assert q == Pub(IdAt(h, k + 1));
    IdsDiffer(h, Heard(h, role, p) + 1, k + 1);
    assert p.peer != Some(q);
    if q !in p.past && n == 0 {
      assert EpochOk(h, k);
      IdsDiffer(h, Mine(h, role) + 1, k);
      FreshNeedsItsKey(h, p, k, q, pn, h.epochs[k].plains[0]);
    }
  }

  lemma {:induction false} CurrentGoesToChain(h: History, role: Role, s: Side, k: nat, n: nat, pn: nat)
    requires HistoryOk(h) && SideOk(h, role, s) && InHistory(h, k, n)
    requires k == Heard(h, role, s.party)
    ensures var e := h.epochs[k];
            Open(s.party, WithPn(MsgAt(h, k, n), pn))
            == OpenCurrent(s.party, n, Sealed(Chain.KeyOf(e.chain, n), n, e.plains[n]))
  {
    assert s.party.peer == Some(Pub(IdAt(h, k + 1)));
  }

  /** The first message of the epoch a party has not entered yet. */
  lemma {:induction false} NewGoesToKem(h: History, role: Role, s: Side, k: nat, n: nat, pn: nat)
    requires HistoryOk(h) && SideOk(h, role, s) && InHistory(h, k, n) && Maker(k) != role
    requires k > Heard(h, role, s.party)
    ensures k == |h.epochs| - 1 && !MadeLast(h, role) && !s.party.mustRatchet
    ensures var p, e := s.party, h.epochs[k];
            Open(p, WithPn(MsgAt(h, k, n), pn))
            == if n > 0 then (p, None)
               else (p.(root := RootAt(h, k + 1), recv := Some(Entered(e)), peer := Some(Pub(e.id)),
                        past := Retire(p, pn), mustRatchet := true),
                     Some(e.plains[0]))
  {
    hide Chain.Tied, ReceiptsOk, RecvOk, Retire, Chain.Retain, Got;
    var p, e, q := s.party, h.epochs[k], Pub(h.epochs[k].id);
    assert k == |h.epochs| - 1;
    assert q == Pub(IdAt(h, k + 1));
    IdsDiffer(h, Heard(h, role, p) + 1, k + 1);
    assert p.peer != Some(q) && q !in p.past;
    if n == 0 {
      assert EpochOk(h, k);
      assert p.self == Some(IdAt(h, k));
      assert p.root == RootAt(h, k);
      var c := Chain.NewRecv(e.chain);
      assert Chain.LiveKey(c, 0) == Chain.KeyOf(e.chain, 0);
    }
  }

  /** The receive chain of an epoch right after its first message. */
  ghost function Entered(e: Epoch): Chain.Recv
    requires e.plains != []
  {
    Chain.Open(Chain.NewRecv(e.chain), 0, Sealed(Chain.KeyOf(e.chain, 0), 0, e.plains[0])).0
  }

  lemma {:induction false} GotGrows(got: seq<Receipt>, r: Receipt, k: nat)
    ensures Got(got + [r], k) == if r.epoch == k then Got(got, k) + {r.n} else Got(got, k)
  {
    var more := got + [r];
    forall n | n in Got(got, k)
      ensures n in Got(more, k)
    {
      var i :| 0 <= i < |got| && got[i].epoch == k && got[i].n == n;
      assert more[i].epoch == k && more[i].n == n;
    }
    if r.epoch == k { assert more[|got|].epoch == k && more[|got|].n == r.n; }
  }

  lemma {:induction false} ReceiptIsNew(h: History, role: Role, s: Side, p': Party, r: Receipt)
    requires ReceiptsOk(h, role, s) && ReceiptOk(h, role, p', r)
    requires Heard(h, role, s.party) <= Heard(h, role, p')
    requires r.n !in Got(s.got, r.epoch)
    ensures ReceiptsOk(h, role, Side(p', s.got + [r]))
  {
    var got := s.got + [r];
    forall i | 0 <= i < |got|
      ensures ReceiptOk(h, role, p', got[i])
    {
      if i < |s.got| { assert ReceiptOk(h, role, s.party, s.got[i]); }
    }
  }

  /** A current message, opened, leaves the side sound. */
  lemma {:induction false} CurrentIsSound(h: History, role: Role, s: Side, k: nat, n: nat, pn: nat)
    requires HistoryOk(h) && SideOk(h, role, s) && InHistory(h, k, n) && Maker(k) != role
    requires k == Heard(h, role, s.party)
    ensures SideOk(h, role, AfterOpen(s, k, n, WithPn(MsgAt(h, k, n), pn)))
    ensures Open(s.party, WithPn(MsgAt(h, k, n), pn)).1
            == if Opens(h, role, s.party, k, n) then Some(h.epochs[k].plains[n]) else None
  {
    hide Chain.Tied, Chain.Open, Got, Chain.KeyOf, PastOk, ReceiptsOk, HistoryOk, MsgAt, Open;
    var e, c := h.epochs[k], s.party.recv.value;
    var body := Sealed(Chain.KeyOf(e.chain, n), n, e.plains[n]);
    CurrentGoesToChain(h, role, s, k, n, pn);
    Chain.HonestOpensIff(c, e.chain, Got(s.got, k), n, e.plains[n]);
    Chain.OpenIsSound(c, e.chain, Got(s.got, k), n, body);
    var (c', r) := Chain.Open(c, n, body);
    if r.Some? {
      var receipt := Receipt(k, n, e.plains[n]);
      var p' := s.party.(recv := Some(c'));
      GotGrows(s.got, receipt, k);
      ReceiptIsNew(h, role, s, p', receipt);
      PastAfterReceipt(h, role, s, p', receipt);
    } else {
      assert AfterOpen(s, k, n, WithPn(MsgAt(h, k, n), pn)) == s;
    }
  }

  /** A receipt outside the retired epochs does not disturb them. */
  lemma {:induction false} PastAfterReceipt(h: History, role: Role, s: Side, p': Party, r: Receipt)
    requires PastOk(h, role, s) && p'.past == s.party.past
    requires Heard(h, role, s.party) <= Heard(h, role, p')
    requires Heard(h, role, s.party) <= r.epoch
    ensures PastOk(h, role, Side(p', s.got + [r]))
  {
    forall k | 0 <= k < |h.epochs| && Pub(h.epochs[k].id) in p'.past
      ensures Got(s.got + [r], k) == Got(s.got, k)
    {
      GotGrows(s.got, r, k);
    }
  }

  /** A late message leaves the side sound, opened or not. */
  lemma {:induction false} LateIsSound(h: History, role: Role, s: Side, k: nat, n: nat, pn: nat)
    requires HistoryOk(h) && SideOk(h, role, s) && InHistory(h, k, n) && Maker(k) != role
    requires k < Heard(h, role, s.party)
    ensures SideOk(h, role, AfterOpen(s, k, n, WithPn(MsgAt(h, k, n), pn)))
    ensures Open(s.party, WithPn(MsgAt(h, k, n), pn)).1
            == if Opens(h, role, s.party, k, n) then Some(h.epochs[k].plains[n]) else None
  {
    hide Chain.Tied, Chain.KeyOf, Got, Open, MsgAt;
    var e, q := h.epochs[k], Pub(h.epochs[k].id);
    LateGoesToPast(h, role, s, k, n, pn);
    if q in s.party.past && n in s.party.past[q].skipped {
      LateOpens(h, role, s, k, n);
    } else {
      if q in s.party.past { Chain.HonestOpensIff(s.party.past[q], e.chain, Got(s.got, k), n, e.plains[n]); }
      assert AfterOpen(s, k, n, WithPn(MsgAt(h, k, n), pn)) == s;
    }
  }

  lemma {:induction false} LateOpens(h: History, role: Role, s: Side, k: nat, n: nat)
    requires HistoryOk(h) && SideOk(h, role, s) && InHistory(h, k, n) && Maker(k) != role
    requires k < Heard(h, role, s.party)
    requires var q := Pub(h.epochs[k].id); q in s.party.past && n in s.party.past[q].skipped
    ensures var e := h.epochs[k];
            var (p', r) := OpenPast(s.party, Pub(e.id), n, Sealed(Chain.KeyOf(e.chain, n), n, e.plains[n]));
            && r == Some(e.plains[n])
            && SideOk(h, role, Side(p', s.got + [Receipt(k, n, e.plains[n])]))
  {
    hide Chain.Tied, Chain.OpenSkipped, Got, Chain.KeyOf, ReceiptsOk;
    var e, q := h.epochs[k], Pub(h.epochs[k].id);
    var c, used := s.party.past[q], Got(s.got, k);
    var body, receipt := Sealed(Chain.KeyOf(e.chain, n), n, e.plains[n]), Receipt(k, n, e.plains[n]);
    Chain.HonestOpensIff(c, e.chain, used, n, e.plains[n]);
    Chain.OpenSkippedIsSound(c, e.chain, used, n, body);
    var p' := OpenPast(s.party, q, n, body).0;
    ReceiptIsNew(h, role, s, p', receipt);
    GotGrows(s.got, receipt, Heard(h, role, s.party));
    forall j | 0 <= j < |h.epochs| && Pub(h.epochs[j].id) in p'.past
      ensures j < Heard(h, role, p') && Maker(j) != role
      ensures Chain.Tied(p'.past[Pub(h.epochs[j].id)], h.epochs[j].chain, Got(s.got + [receipt], j))
    {
      GotGrows(s.got, receipt, j);
      if j != k { IdsDiffer(h, j + 1, k + 1); }
    }
  }

  /** The first message of a new epoch moves the side into it, soundly. */
  lemma {:induction false} NewIsSound(h: History, role: Role, s: Side, k: nat, n: nat, pn: nat)
    requires HistoryOk(h) && SideOk(h, role, s) && InHistory(h, k, n) && Maker(k) != role
    requires k > Heard(h, role, s.party)
    ensures SideOk(h, role, AfterOpen(s, k, n, WithPn(MsgAt(h, k, n), pn)))
    ensures Open(s.party, WithPn(MsgAt(h, k, n), pn)).1
            == if Opens(h, role, s.party, k, n) then Some(h.epochs[k].plains[n]) else None
  {
    hide Chain.Tied, Entered, Retire, Got, PastOk, ReceiptsOk, HistoryOk, Open, MsgAt;
    NewGoesToKem(h, role, s, k, n, pn);
    if n == 0 {
      var p, e := s.party, h.epochs[k];
      var p' := Open(p, WithPn(MsgAt(h, k, n), pn)).0;
      var receipt := Receipt(k, 0, e.plains[0]);
      NothingGot(h, role, s, k);
      EnteredIsTied(e);
      GotGrows(s.got, receipt, k);
      ReceiptIsNew(h, role, s, p', receipt);
      RetireIsSound(h, role, s, p', pn);
      PastAfterReceipt(h, role, Side(p', s.got), p', receipt);
      assert Got(s.got + [receipt], k) == {0};
      assert HeaderOk(h, role, p');
    }
  }

  lemma {:induction false} NothingGot(h: History, role: Role, s: Side, k: nat)
    requires ReceiptsOk(h, role, s) && k > Heard(h, role, s.party)
    ensures Got(s.got, k) == {}
  {
    forall i | 0 <= i < |s.got|
      ensures s.got[i].epoch != k
    {
      assert ReceiptOk(h, role, s.party, s.got[i]);
    }
  }

  lemma {:induction false} EnteredIsTied(e: Epoch)
    requires e.plains != []
    ensures Chain.Tied(Entered(e), e.chain, {0})
  {
    var c, body := Chain.NewRecv(e.chain), Sealed(Chain.KeyOf(e.chain, 0), 0, e.plains[0]);
    assert Chain.Tied(c, e.chain, {});
    Chain.HonestOpensIff(c, e.chain, {}, 0, e.plains[0]);
    Chain.OpenIsSound(c, e.chain, {}, 0, body);
    assert {} + {0} == {0};
  }

  /** Retiring one more epoch keeps the retired ones sound. */
  lemma {:induction false} RetireOne(
    h: History, role: Role, bound: nat, past: map<Pub, Chain.Recv>, got: seq<Receipt>, c: Chain.Recv)
    requires HistoryOk(h) && bound < |h.epochs| && Maker(bound) != role
    requires RetiredOk(h, role, bound, past, got)
    requires Chain.Tied(c, h.epochs[bound].chain, Got(got, bound))
    ensures RetiredOk(h, role, bound + 1, past[Pub(h.epochs[bound].id) := c], got)
  {
    hide Chain.Tied, Got;
    var all := past[Pub(h.epochs[bound].id) := c];
    assert IdAt(h, bound + 1) == h.epochs[bound].id;
    IdBelowNext(h, bound + 1);
    forall k | 0 <= k < |h.epochs| && Pub(h.epochs[k].id) in all
      ensures k < bound + 1 && Maker(k) != role
      ensures Chain.Tied(all[Pub(h.epochs[k].id)], h.epochs[k].chain, Got(got, k))
    {
      if k != bound {
        IdsDiffer(h, k + 1, bound + 1);
        assert h.epochs[k].id == IdAt(h, k + 1);
      }
    }
  }

  lemma {:induction false} IdBelowNext(h: History, k: nat)
    requires HistoryOk(h) && k <= |h.epochs|
    ensures IdAt(h, k) < h.next
  {
    if k < |h.epochs| { assert IdAt(h, k) < IdAt(h, |h.epochs|); }
  }

  /** Fewer retired epochs, or a later bound, stay sound. */
  lemma {:induction false} RetiredSubset(
    h: History, role: Role, bound: int, past: map<Pub, Chain.Recv>, got: seq<Receipt>,
    bound': int, past': map<Pub, Chain.Recv>)
    requires RetiredOk(h, role, bound, past, got) && bound <= bound'
    requires past'.Keys <= past.Keys && forall q :: q in past' ==> past'[q] == past[q]
    ensures RetiredOk(h, role, bound', past', got)
  {
    hide Chain.Tied, Got;
  }

  /** Retiring the current chain, whatever `pn` claims, leaves every retired epoch tied to its own keys. */
  lemma {:induction false} RetireIsSound(h: History, role: Role, s: Side, p': Party, pn: nat)
    requires HistoryOk(h) && SideOk(h, role, s)
    requires !MadeLast(h, role) && !s.party.mustRatchet
    requires p'.past == Retire(s.party, pn) && p'.mustRatchet
    ensures PastOk(h, role, Side(p', s.got))
  {
    hide Chain.Tied, Chain.BankThrough, Got, ReceiptsOk, RetiredOk, HistoryOk;
    var p, heard := s.party, Heard(h, role, s.party);
    if p.peer.Some? && p.recv.Some? {
      var left := Chain.BankThrough(p.recv.value, pn);
      Chain.BankKeepsTied(p.recv.value, h.epochs[heard].chain, Got(s.got, heard), pn);
      RetireOne(h, role, heard, p.past, s.got, left);
      var all := p.past[Pub(h.epochs[heard].id) := left];
      RetiredSubset(h, role, heard + 1, all, s.got, Heard(h, role, p'), Prune(all, p.order));
    }
    RetiredSubset(h, role, heard, p.past, s.got, Heard(h, role, p'), p.past);
  }

  // ----- Bodies under other headers -----

  /** No root of the sequence repeats. */
  lemma {:induction false} RootsDiffer(h: History, i: nat, j: nat)
    requires HistoryOk(h) && i < j <= |h.epochs|
    ensures Size(RootAt(h, i)) < Size(RootAt(h, j))
    decreases j
  {
    assert EpochOk(h, j - 1);
    var mixed := Pair(RootAt(h, j - 1), Shared(IdAt(h, j - 1), h.epochs[j - 1].coin));
    assert Size(Hash(MixLabel, mixed)) > Size(RootAt(h, j - 1));
    if i < j - 1 { RootsDiffer(h, i, j - 1); }
  }

  /** No two epochs share a chain. */
  lemma {:induction false} ChainsDiffer(h: History, i: nat, j: nat)
    requires HistoryOk(h) && i < |h.epochs| && j < |h.epochs| && h.epochs[i].chain == h.epochs[j].chain
    ensures i == j
  {
    assert EpochOk(h, i) && EpochOk(h, j);
    if i < j { RootsDiffer(h, i, j); } else if j < i { RootsDiffer(h, j, i); }
  }

  lemma {:induction false} ChainIsChain(h: History, k: nat)
    requires HistoryOk(h) && k < |h.epochs|
    ensures IsChain(h.epochs[k].chain)
  {
    assert EpochOk(h, k);
  }

  /** A body of one epoch opens on the chain of another nowhere, and on its own only at its number. */
  lemma {:induction false} WrongKey(h: History, j: nat, t: nat, k: nat, n: nat)
    requires HistoryOk(h) && j < |h.epochs| && k < |h.epochs|
    requires Chain.KeyOf(h.epochs[j].chain, t) == Chain.KeyOf(h.epochs[k].chain, n)
    ensures j == k && t == n
  {
    hide Chain.KeyOf, HistoryOk, IsChain;
    ChainIsChain(h, j);
    ChainIsChain(h, k);
    KeyIsForOne(h.epochs[j].chain, t, h.epochs[k].chain, n);
    ChainsDiffer(h, j, k);
  }

  lemma {:induction false} WrongForCurrent(h: History, role: Role, s: Side, k: nat, n: nat, t: nat)
    requires HistoryOk(h) && SideOk(h, role, s) && InHistory(h, k, n) && (k != Heard(h, role, s.party) || t != n)
    ensures OpenCurrent(s.party, t, MsgAt(h, k, n).body) == (s.party, None)
  {
    hide Chain.Tied, Chain.Open, Chain.KeyOf, Got, HistoryOk, HeaderOk, PastOk, ReceiptsOk;
    var heard, p, e := Heard(h, role, s.party), s.party, h.epochs[k];
    if p.recv.Some? {
      var body := Sealed(Chain.KeyOf(e.chain, n), n, e.plains[n]);
      Chain.OpenIsSound(p.recv.value, h.epochs[heard].chain, Got(s.got, heard), t, body);
      if Chain.Open(p.recv.value, t, body).1.Some? { WrongKey(h, heard, t, k, n); }
    }
  }

  lemma {:induction false} WrongForPast(h: History, role: Role, s: Side, k: nat, n: nat, q: Pub, t: nat)
    requires HistoryOk(h) && SideOk(h, role, s) && InHistory(h, k, n) && (q != Pub(h.epochs[k].id) || t != n)
    ensures OpenPast(s.party, q, t, MsgAt(h, k, n).body) == (s.party, None)
  {
    hide Chain.Tied, Chain.OpenSkipped, Chain.KeyOf, Got, HistoryOk, HeaderOk, RecvOk, ReceiptsOk;
    var p, e := s.party, h.epochs[k];
    if q in p.past {
      var j :| 0 <= j < |h.epochs| && h.epochs[j].id == q.id;
      assert q == Pub(h.epochs[j].id);
      var body := Sealed(Chain.KeyOf(e.chain, n), n, e.plains[n]);
      Chain.OpenSkippedIsSound(p.past[q], h.epochs[j].chain, Got(s.got, j), t, body);
      if Chain.OpenSkipped(p.past[q], t, body).1.Some? { WrongKey(h, j, t, k, n); }
    }
  }

  /** The KEM step opens a body only with its own ciphertext, at the party that is about to enter its epoch. */
  lemma {:induction false} WrongForFresh(h: History, role: Role, s: Side, k: nat, n: nat, pub: Pub, ct: KemText, pn: nat)
    requires HistoryOk(h) && SideOk(h, role, s) && InHistory(h, k, n)
    requires OpenFresh(s.party, pub, ct, pn, MsgAt(h, k, n).body).1.Some?
    ensures n == 0 && ct == TextAt(h, k) && Maker(k) != role && k > Heard(h, role, s.party)
  {
    hide Chain.Open, Chain.KeyOf, Retire, RecvOk, PastOk, ReceiptsOk, HistoryOk;
    var p, e := s.party, h.epochs[k];
    var shared := Decapsulate(p.self.value, ct).value;
    var root := ChainKey(p.root, shared);
    var body := MsgAt(h, k, n).body;
    assert Chain.Tied(Chain.NewRecv(root), root, {});
    Chain.OpenIsSound(Chain.NewRecv(root), root, {}, 0, body);
    ChainIsChain(h, k);
    KeyIsForOne(root, 0, e.chain, n);
    SameChain(h, role, p, k, shared, ct);
  }

  lemma {:induction false} SameChain(h: History, role: Role, p: Party, k: nat, shared: Key, ct: KemText)
    requires HistoryOk(h) && HeaderOk(h, role, p) && k < |h.epochs| && p.self.Some?
    requires Decapsulate(p.self.value, ct) == Some(shared) && ChainKey(p.root, shared) == h.epochs[k].chain
    ensures ct == TextAt(h, k) && Maker(k) != role && k > Heard(h, role, p)
  {
    hide HistoryOk;
    assert EpochOk(h, k) by { EpochIsOk(h, k); }
    var pos := Pos(h, role, p);
    assert p.root == RootAt(h, k) && shared == Shared(IdAt(h, k), h.epochs[k].coin);
    if pos < k { RootsDiffer(h, pos, k); } else if k < pos { RootsDiffer(h, k, pos); }
  }

  lemma {:induction false} EpochIsOk(h: History, k: nat)
    requires HistoryOk(h) && k < |h.epochs|
    ensures EpochOk(h, k)
  {
    hide EpochOk;
  }

  /** The KEM step does with the header's key nothing but keep it. */
  lemma {:induction false} FreshKeepsTheKey(p: Party, pub: Pub, other: Pub, ct: KemText, pn: nat, body: Body)
    ensures OpenFresh(p, other, ct, pn, body) ==
            var (p', r) := OpenFresh(p, pub, ct, pn, body);
            (if r.Some? then p'.(peer := Some(other)) else p', r)
  {
    hide Chain.Open, Retire;
  }

  lemma {:induction false} KeyOfNewEpoch(h: History, role: Role, s: Side, k: nat)
    requires HistoryOk(h) && SideOk(h, role, s) && k < |h.epochs| && (k > Heard(h, role, s.party) || Maker(k) == role)
    ensures s.party.peer != Some(Pub(h.epochs[k].id)) && Pub(h.epochs[k].id) !in s.party.past
  {
    hide Chain.Tied, RecvOk, ReceiptsOk, Got;
    assert h.epochs[k].id == IdAt(h, k + 1);
    IdsDiffer(h, Heard(h, role, s.party) + 1, k + 1);
  }

  /** The honest message that carries body `n` of epoch `k`, with the `pn` of this one. */
  function Original(h: History, k: nat, n: nat, m: Msg): Msg
    requires InHistory(h, k, n)
  {
    WithPn(MsgAt(h, k, n), PnOf(m))
  }

  /** The swapped first message: the same as the honest one, but for the key that is kept. */
  lemma {:induction false} SwappedOpen(h: History, role: Role, s: Side, k: nat, n: nat, m: Msg)
    requires HistoryOk(h) && SideOk(h, role, s) && InHistory(h, k, n) && Carries(m, MsgAt(h, k, n))
    requires Swaps(h, role, s.party, k, n, m)
    ensures Open(s.party, m) ==
            (Open(s.party, Original(h, k, n, m)).0.(peer := m.pub), Some(h.epochs[k].plains[n]))
  {
    hide SideOk, HistoryOk, Retire, Chain.Open, Chain.KeyOf, Entered;
    KeyOfNewEpoch(h, role, s, k);
    NewGoesToKem(h, role, s, k, n, m.pn);
    FreshKeepsTheKey(s.party, Pub(h.epochs[k].id), m.pub.value, m.ct, m.pn, m.body);
  }

  /** A header that still says where the body belongs opens it as the honest one does. */
  lemma {:induction false} SaidOpen(h: History, role: Role, s: Side, k: nat, n: nat, m: Msg)
    requires HistoryOk(h) && SideOk(h, role, s) && InHistory(h, k, n) && Carries(m, MsgAt(h, k, n))
    requires Maker(k) != role && Says(h, role, s.party, k, n, m)
    ensures Open(s.party, m) == Open(s.party, Original(h, k, n, m))
  {
    hide HistoryOk, Chain.KeyOf, RecvOk, ReceiptsOk, OpenFresh, OpenCurrent, OpenPast;
    var p, q, heard := s.party, Pub(h.epochs[k].id), Heard(h, role, s.party);
    assert q == Pub(IdAt(h, k + 1));
    if k > heard {
      KeyOfNewEpoch(h, role, s, k);
      UnknownIsRefused(p, q, n, m.body);
    } else if k == heard {
      assert p.peer == Some(q);
    } else {
      LateGoesToPast(h, role, s, k, n, PnOf(m));
      LateSaid(h, role, s, k, n, m);
    }
  }

  lemma {:induction false} UnknownIsRefused(p: Party, q: Pub, n: nat, body: Body)
    ensures q !in p.past ==> OpenPast(p, q, n, body) == (p, None)
  {
    hide Chain.OpenSkipped;
  }

  lemma {:induction false} LateSaid(h: History, role: Role, s: Side, k: nat, n: nat, m: Msg)
    requires HistoryOk(h) && SideOk(h, role, s) && InHistory(h, k, n) && Carries(m, MsgAt(h, k, n))
    requires Maker(k) != role && Says(h, role, s.party, k, n, m) && k < Heard(h, role, s.party)
    ensures Open(s.party, m) == OpenPast(s.party, Pub(h.epochs[k].id), n, m.body)
  {
    hide Chain.KeyOf, RecvOk, ReceiptsOk, Chain.Open, Chain.OpenSkipped, PastOk, OpenCurrent;
    var p, q := s.party, Pub(h.epochs[k].id);
    assert q == Pub(IdAt(h, k + 1));
    IdsDiffer(h, Heard(h, role, p) + 1, k + 1);
    assert p.peer != Some(q);
    if m.RatchetMsg? && q !in p.past && n == 0 {
      if OpenFresh(p, q, m.ct, m.pn, m.body).1.Some? { WrongForFresh(h, role, s, k, n, q, m.ct, m.pn); }
      FreshRefusal(p, q, m.ct, m.pn, m.body);
    }
  }

  lemma {:induction false} FreshRefusal(p: Party, pub: Pub, ct: KemText, pn: nat, body: Body)
    ensures OpenFresh(p, pub, ct, pn, body).1.None? ==> OpenFresh(p, pub, ct, pn, body) == (p, None)
  {
    hide Chain.Open, Retire;
  }

  /** Under any other header, and for the party's own bodies under any, nothing opens. */
  lemma {:induction false} OtherwiseRefused(h: History, role: Role, s: Side, k: nat, n: nat, m: Msg)
    requires HistoryOk(h) && SideOk(h, role, s) && InHistory(h, k, n) && Carries(m, MsgAt(h, k, n))
    requires !Swaps(h, role, s.party, k, n, m) && (Maker(k) == role || !Says(h, role, s.party, k, n, m))
    ensures Open(s.party, m) == (s.party, None)
  {
    hide HistoryOk, Chain.KeyOf, RecvOk, PastOk, ReceiptsOk, OpenFresh, OpenCurrent, OpenPast, Chain.Tied;
    var p, q, heard := s.party, Pub(h.epochs[k].id), Heard(h, role, s.party);
    assert q == Pub(IdAt(h, k + 1));
    if k > heard || Maker(k) == role { KeyOfNewEpoch(h, role, s, k); }
    if HeaderKey(m).Some? {
      var named := HeaderKey(m).value;
      if p.peer == Some(named) {
        NotHeard(h, role, s, k, n, m);
        WrongForCurrent(h, role, s, k, n, m.n);
      } else if m.InChainMsg? || named in p.past {
        NotRetired(h, role, s, k, n, m);
        UnknownIsRefused(p, named, m.n, m.body);
        if named in p.past { WrongForPast(h, role, s, k, n, named, m.n); }
      } else if m.n == 0 {
        FreshRefusal(p, named, m.ct, m.pn, m.body);
        if OpenFresh(p, named, m.ct, m.pn, m.body).1.Some? { WrongForFresh(h, role, s, k, n, named, m.ct, m.pn); }
      }
    }
  }

  lemma {:induction false} NotHeard(h: History, role: Role, s: Side, k: nat, n: nat, m: Msg)
    requires HistoryOk(h) && SideOk(h, role, s) && InHistory(h, k, n) && Carries(m, MsgAt(h, k, n))
    requires (Maker(k) == role || !Says(h, role, s.party, k, n, m)) && HeaderKey(m).Some? && HeaderKey(m) == s.party.peer
    ensures k != Heard(h, role, s.party) || m.n != n
  {
    hide RecvOk, PastOk, ReceiptsOk, MsgAt;
    var heard := Heard(h, role, s.party);
    if k == heard { assert s.party.peer == Some(Pub(IdAt(h, k + 1))); }
  }

  lemma {:induction false} NotRetired(h: History, role: Role, s: Side, k: nat, n: nat, m: Msg)
    requires HistoryOk(h) && SideOk(h, role, s) && InHistory(h, k, n) && Carries(m, MsgAt(h, k, n))
    requires (Maker(k) == role || !Says(h, role, s.party, k, n, m)) && HeaderKey(m).Some? && HeaderKey(m) != s.party.peer
    requires m.InChainMsg? || HeaderKey(m).value in s.party.past
    ensures HeaderKey(m).value != Pub(h.epochs[k].id) || m.n != n || HeaderKey(m).value !in s.party.past
  {
    hide RecvOk, ReceiptsOk, MsgAt, Chain.Tied, Got;
  }

  // ----- The theorems -----

  /**
   One delivery of an honest body under any header whatever: when it opens, to what, and what state it leaves.  It
   opens, to exactly what was sealed, if and only if the header still says where it belongs and the honest message
   would open, or the header swaps the key of a new epoch; and it is then as the honest message, but for that key.
   */
  lemma {:induction false} AnyHeader(h: History, role: Role, s: Side, k: nat, n: nat, m: Msg)
    requires HistoryOk(h) && SideOk(h, role, s) && InHistory(h, k, n) && Carries(m, MsgAt(h, k, n))
    ensures var p, honest := s.party, Open(s.party, Original(h, k, n, m));
            Open(p, m) ==
            if Swaps(h, role, p, k, n, m) then (honest.0.(peer := m.pub), Some(h.epochs[k].plains[n]))
            else if Maker(k) != role && Says(h, role, p, k, n, m) then honest
            else (p, None)
  {
    hide HistoryOk, SideOk, Open, MsgAt, Says, Swaps;
    if Swaps(h, role, s.party, k, n, m) {
      SwappedOpen(h, role, s, k, n, m);
    } else if Maker(k) != role && Says(h, role, s.party, k, n, m) {
      SaidOpen(h, role, s, k, n, m);
    } else {
      OtherwiseRefused(h, role, s, k, n, m);
    }
  }

  /** The honest message, with any `pn`: it opens exactly when `Opens` says, and leaves the side sound. */
  lemma {:induction false} HonestDelivery(h: History, role: Role, s: Side, k: nat, n: nat, pn: nat)
    requires HistoryOk(h) && SideOk(h, role, s) && InHistory(h, k, n)
    ensures Open(s.party, WithPn(MsgAt(h, k, n), pn)).1 == if Opens(h, role, s.party, k, n) then Some(h.epochs[k].plains[n]) else None
    ensures SideOk(h, role, AfterOpen(s, k, n, WithPn(MsgAt(h, k, n), pn)))
  {
    hide MsgAt, Open, SideOk, HistoryOk;
    if Maker(k) == role {
      ReflectionIsRefused(h, role, s, k, n, pn);
      assert AfterOpen(s, k, n, WithPn(MsgAt(h, k, n), pn)) == s;
    } else if k == Heard(h, role, s.party) {
      CurrentIsSound(h, role, s, k, n, pn);
    } else if k < Heard(h, role, s.party) {
      LateIsSound(h, role, s, k, n, pn);
    } else {
      NewIsSound(h, role, s, k, n, pn);
    }
  }

  /**
   One delivery of an honest body under any header, in any reachable state: whether it opens, and to exactly what was
   sealed; and the invariant survives it if and only if the header does not swap the key of a new epoch.
   */
  lemma {:induction false} DeliveryIsExact(w: World, role: Role, x: Packet, m: Msg)
    requires Sound(w) && x in w.wire && Carries(m, x.msg)
    ensures InHistory(w.h, x.epoch, x.n)
    ensures var p := SideOf(w, role).party;
            Open(p, m).1 ==
            if Swaps(w.h, role, p, x.epoch, x.n, m)
               || (Says(w.h, role, p, x.epoch, x.n, m) && Opens(w.h, role, p, x.epoch, x.n))
            then Some(w.h.epochs[x.epoch].plains[x.n]) else None
    ensures Sound(Step(w, Delivery(role, x, m))) <==> !Swaps(w.h, role, SideOf(w, role).party, x.epoch, x.n, m)
  {
    hide MsgAt, Open, SideOk, HistoryOk, Says, Swaps, AfterOpen;
    var s, k, n := SideOf(w, role), x.epoch, x.n;
    assert x.msg == MsgAt(w.h, k, n);
    HonestDelivery(w.h, role, s, k, n, PnOf(m));
    AnyHeader(w.h, role, s, k, n, m);
    SidesAgree(w.h, role, s, k, n, m);
    if Swaps(w.h, role, s.party, k, n, m) {
      SwapIsUnsound(w.h, role, s, k, n, m);
    } else if Maker(k) == role {
      OwnNeverOpens(w.h, role, s.party, k, n);
    }
  }

  lemma {:induction false} OwnNeverOpens(h: History, role: Role, p: Party, k: nat, n: nat)
    requires InHistory(h, k, n) && Maker(k) == role
    ensures !Opens(h, role, p, k, n)
  {
  }

  lemma {:induction false} SidesAgree(h: History, role: Role, s: Side, k: nat, n: nat, m: Msg)
    requires InHistory(h, k, n)
    ensures Open(s.party, m) == Open(s.party, Original(h, k, n, m)) ==>
            AfterOpen(s, k, n, m) == AfterOpen(s, k, n, Original(h, k, n, m))
    ensures Open(s.party, m) == (s.party, None) ==> AfterOpen(s, k, n, m) == s
  {
    hide Open;
  }

  /** A swap leaves a party that waits for a key its peer does not have. */
  lemma {:induction false} SwapIsUnsound(h: History, role: Role, s: Side, k: nat, n: nat, m: Msg)
    requires HistoryOk(h) && SideOk(h, role, s) && InHistory(h, k, n) && Carries(m, MsgAt(h, k, n))
    requires Swaps(h, role, s.party, k, n, m)
    ensures !SideOk(h, role, AfterOpen(s, k, n, m))
    ensures var p := Open(s.party, m).0;
            p.peer == m.pub && p.mustRatchet && p.root == RootAt(h, |h.epochs|) && !MadeLast(h, role) && k == |h.epochs| - 1
            && p.past == Retire(s.party, m.pn)
  {
    hide HistoryOk, RecvOk, PastOk, ReceiptsOk, Retire, Entered, Open, MsgAt;
    NewGoesToKem(h, role, s, k, n, m.pn);
    SwappedOpen(h, role, s, k, n, m);
    var p := Open(s.party, m).0;
    assert Heard(h, role, p) == |h.epochs| - 1;
    assert IdAt(h, |h.epochs|) == h.epochs[k].id;
  }

  lemma {:induction false} GenesisIsSound(orderA: Pub -> nat, orderB: Pub -> nat, id: nat, coin: nat)
    ensures Sound(Genesis(orderA, orderB, id, coin))
  {}

  lemma {:induction false} StepIsSound(w: World, e: Event)
    requires Sound(w) && Enabled(w, e)
    ensures Sound(Step(w, e))
  {
    match e
    case Sealing(role, plain) =>
      if SideOf(w, role).party.mustRatchet { RatchetIsSound(w, role, plain); } else { InChainIsSound(w, role, plain); }
    case Delivery(role, x, m) => DeliveryIsExact(w, role, x, m);
    case Forgery(role, m) =>
      ForgeryIsRefused(SideOf(w, role).party, m);
      assert Step(w, e) == w;
  }

  /** The invariant holds after every feasible run. */
  lemma {:induction false} RunIsSound(w: World, run: seq<Event>)
    requires Sound(w) && Feasible(w, run)
    ensures Sound(After(w, run))
    decreases |run|
  {
    hide Step, Sound, Enabled;
    if run != [] {
      var k := |run| - 1;
      forall i | 0 <= i < k
        ensures Enabled(After(w, run[..k][..i]), run[..k][i])
      {
        assert run[..k][..i] == run[..i];
      }
      RunIsSound(w, run[..k]);
      StepIsSound(After(w, run[..k]), run[k]);
    }
  }

  /**
   Root agreement, over every run: both roots lie on the one root sequence, at most one step apart, with
   at least one of them at its end; and a party owes a ratchet exactly when the roots are equal and the
   next epoch is its to make.
   */
  lemma {:induction false} RootsAgree(w: World)
    requires Sound(w)
    ensures var K, i, j := |w.h.epochs|, Pos(w.h, Initiator, w.a.party), Pos(w.h, Responder, w.b.party);
            && K - 1 <= i <= K && K - 1 <= j <= K && (i == K || j == K) && 0 <= i && 0 <= j
            && w.a.party.root == RootAt(w.h, i) && w.b.party.root == RootAt(w.h, j)
            && (w.a.party.mustRatchet <==> w.a.party.root == w.b.party.root && Maker(K) == Initiator)
            && (w.b.party.mustRatchet <==> w.a.party.root == w.b.party.root && Maker(K) == Responder)
  {
    hide RecvOk, PastOk, ReceiptsOk, WireOk;
    var K := |w.h.epochs|;
    if K > 0 { RootsDiffer(w.h, K - 1, K); }
  }

  /**
   Alternation: an epoch is only ever made by the party whose turn it is, on equal roots, and it is the
   KDF of the last; every other event leaves the root sequence as it was.
   */
  lemma {:induction false} StepsAlternate(w: World, e: Event)
    requires Sound(w) && Enabled(w, e)
    ensures var w', K := Step(w, e), |w.h.epochs|;
            && Extends(w.h, w'.h)
            && (if e.Sealing? && SideOf(w, e.role).party.mustRatchet then
                  && |w'.h.epochs| == K + 1
                  && e.role == Maker(K)
                  && w.a.party.root == w.b.party.root == RootAt(w.h, K)
                  && EpochOk(w'.h, K)
                else |w'.h.epochs| == K)
  {
    hide HistoryOk, SideOk, WireOk, Extends, EpochOk, Seal, MsgAt;
    assert Extends(w.h, w.h) by { ExtendsItself(w.h); }
    if e.Sealing? {
      if SideOf(w, e.role).party.mustRatchet {
        RatchetTakesTurn(w, e.role, e.plain);
      } else {
        OwnSideSends(w.h, e.role, SideOf(w, e.role), e.plain);
        if 0 <= Mine(w.h, e.role) { AppendExtends(w.h, Mine(w.h, e.role), e.plain); }
      }
    }
  }

  lemma {:induction false} ExtendsItself(h: History)
    ensures Extends(h, h)
  {}

  lemma {:induction false} RatchetTakesTurn(w: World, role: Role, plain: Plain)
    requires Sound(w) && SideOf(w, role).party.mustRatchet
    ensures var h', K := AfterSeal(w, role, plain).h, |w.h.epochs|;
            && Extends(w.h, h')
            && |h'.epochs| == K + 1
            && role == Maker(K)
            && w.a.party.root == w.b.party.root == RootAt(w.h, K)
            && EpochOk(h', K)
  {
    hide RecvOk, PastOk, ReceiptsOk, WireOk, Extends, Seal, MsgAt, NewEpoch, HeaderOk;
    RootsAgree(w);
    OwnSideRatchets(w.h, role, SideOf(w, role), plain);
    RatchetExtends(w.h, plain);
    RatchetKeepsHistory(w.h, plain);
  }

  /**
   Over every run from the handshake: each (epoch, number) is opened at most once by each party, and to
   exactly the plaintext its peer sealed there.
   */
  lemma {:induction false} OpensAtMostOnce(
    orderA: Pub -> nat, orderB: Pub -> nat, id: nat, coin: nat, run: seq<Event>, role: Role, i: nat, j: nat)
    requires Feasible(Genesis(orderA, orderB, id, coin), run)
    ensures var w := After(Genesis(orderA, orderB, id, coin), run);
            var got := SideOf(w, role).got;
            && (i < |got| ==> InHistory(w.h, got[i].epoch, got[i].n)
                              && Maker(got[i].epoch) != role
                              && got[i].plain == w.h.epochs[got[i].epoch].plains[got[i].n])
            && (i < j < |got| ==> (got[i].epoch, got[i].n) != (got[j].epoch, got[j].n))
  {
    hide RecvOk, PastOk, After, Feasible, Genesis;
    GenesisIsSound(orderA, orderB, id, coin);
    RunIsSound(Genesis(orderA, orderB, id, coin), run);
    var s := SideOf(After(Genesis(orderA, orderB, id, coin), run), role);
    if i < |s.got| { assert ReceiptOk(After(Genesis(orderA, orderB, id, coin), run).h, role, s.party, s.got[i]); }
  }

  /**
   What a delayed message needs to survive the ratchet that leaves its epoch, for every `pn` the header may carry and with
   room in the stores: it opens to its own plaintext if and only if its key was banked already or it lies in a gap that the
   header declares and that is within the skip bound.
   */
  lemma {:induction false} OwedKeysAreBanked(h: History, role: Role, s: Side, pn: nat, n: nat)
    requires HistoryOk(h) && SideOk(h, role, s)
    requires !MadeLast(h, role) && !s.party.mustRatchet && 0 <= Heard(h, role, s.party)
    requires var k := Heard(h, role, s.party);
             && Chain.HasRoom(s.party.recv.value, pn) && |s.party.past| < MAX_PAST_EPOCHS
             && InHistory(h, k, n) && InHistory(h, k + 2, 0)
    ensures var k, c := Heard(h, role, s.party), s.party.recv.value;
            var p' := Open(s.party, WithPn(MsgAt(h, k + 2, 0), pn)).0;
            Open(p', MsgAt(h, k, n)).1
            == if n in c.skipped || c.n <= n < pn <= c.n + Chain.MAX_SKIP_PER_MESSAGE
               then Some(h.epochs[k].plains[n]) else None
  {
    hide SideOk, HistoryOk, Retire, Open, MsgAt, Chain.HasRoom, Chain.KeyOf, Entered;
    var k := Heard(h, role, s.party);
    var m := WithPn(MsgAt(h, k + 2, 0), pn);
    NewGoesToKem(h, role, s, k + 2, 0, pn);
    HonestDelivery(h, role, s, k + 2, 0, pn);
    var s' := AfterOpen(s, k + 2, 0, m);
    SameMessage(MsgAt(h, k, n));
    HonestDelivery(h, role, s', k, n, PnOf(MsgAt(h, k, n)));
    LeftBehind(h, role, s, pn, n);
  }

  lemma {:induction false} SameMessage(m: Msg)
    ensures WithPn(m, PnOf(m)) == m
  {
  }

  lemma {:induction false} LeftBehind(h: History, role: Role, s: Side, pn: nat, n: nat)
    requires HistoryOk(h) && SideOk(h, role, s) && !MadeLast(h, role) && !s.party.mustRatchet && 0 <= Heard(h, role, s.party)
    requires Chain.HasRoom(s.party.recv.value, pn) && |s.party.past| < MAX_PAST_EPOCHS
    ensures var k, c, past := Heard(h, role, s.party), s.party.recv.value, Retire(s.party, pn);
            var q := Pub(h.epochs[k].id);
            (q in past && n in past[q].skipped) <==>
            (n in c.skipped || c.n <= n < pn <= c.n + Chain.MAX_SKIP_PER_MESSAGE)
  {
    hide Chain.Tied, Chain.KeyOf, Chain.Banked, Chain.BankThrough, ReceiptsOk, HistoryOk, Got, Chain.HasRoom;
    var k, c := Heard(h, role, s.party), s.party.recv.value;
    var q := Pub(h.epochs[k].id);
    assert s.party.peer == Some(Pub(IdAt(h, k + 1)));
    assert q !in s.party.past;
    Chain.BankedIff(c, h.epochs[k].chain, Got(s.got, k), pn, n);
    var all := s.party.past[q := Chain.BankThrough(c, pn)];
    assert all.Keys == s.party.past.Keys + {q};
    assert |all| <= MAX_PAST_EPOCHS;
  }

  // ----- A swapped key loses the session -----

  lemma {:induction false} RetiredKeys(p: Party, pn: nat, q: Pub)
    requires q in Retire(p, pn)
    ensures q in p.past || p.peer == Some(q)
  {
    hide Chain.BankThrough;
  }

  /** With the root moved past every epoch, no KEM step opens a body of any of them again, under any header. */
  lemma {:induction false} NoWayBack(h: History, p: Party, k: nat, n: nat, pub: Pub, ct: KemText, pn: nat)
    requires HistoryOk(h) && InHistory(h, k, n) && Size(RootAt(h, |h.epochs|)) <= Size(p.root)
    ensures OpenFresh(p, pub, ct, pn, MsgAt(h, k, n).body) == (p, None)
  {
    hide Chain.Open, Retire, HistoryOk, Chain.KeyOf;
    EpochIsOk(h, k);
    FreshRefusal(p, pub, ct, pn, MsgAt(h, k, n).body);
    if p.self.Some? && Decapsulate(p.self.value, ct).Some? {
      var root := ChainKey(p.root, Decapsulate(p.self.value, ct).value);
      assert Chain.Tied(Chain.NewRecv(root), root, {});
      Chain.OpenIsSound(Chain.NewRecv(root), root, {}, 0, MsgAt(h, k, n).body);
      if OpenFresh(p, pub, ct, pn, MsgAt(h, k, n).body).1.Some? {
        ChainIsChain(h, k);
        KeyIsForOne(root, 0, h.epochs[k].chain, n);
        RootsDiffer(h, k, |h.epochs|);
      }
    }
  }

  /** What a party may do next: seal, or be sent a message. */
  datatype Turn = Seals(coin: nat, newKey: nat, plain: Plain) | IsSent(msg: Msg)

  /** Any header at all, around a body sealed by an honest party or a forged one. */
  ghost predicate Known(h: History, m: Msg) {
    m.MalformedMsg? || m.body.Forged? || exists k, n :: InHistory(h, k, n) && m.body == MsgAt(h, k, n).body
  }

  ghost predicate KnownTurns(h: History, turns: seq<Turn>) {
    forall i :: 0 <= i < |turns| ==> turns[i].IsSent? ==> Known(h, turns[i].msg)
  }

  ghost function Continue(p: Party, turns: seq<Turn>): Party {
    if turns == [] then p
    else
      var before := Continue(p, turns[..|turns| - 1]);
      match turns[|turns| - 1]
      case Seals(coin, newKey, plain) => Seal(before, coin, newKey, plain).0
      case IsSent(m) => Open(before, m).0
  }

  /** The root is past every epoch, and the key of epoch `k` is neither the current one nor retired. */
  ghost predicate Lost(h: History, p: Party, k: nat)
    requires k < |h.epochs|
  {
    && Size(RootAt(h, |h.epochs|)) <= Size(p.root)
    && p.peer != Some(Pub(h.epochs[k].id))
    && Pub(h.epochs[k].id) !in p.past
  }

  lemma {:induction false} SealStaysLost(h: History, p: Party, k: nat, coin: nat, newKey: nat, plain: Plain)
    requires k < |h.epochs| && Lost(h, p, k)
    ensures Lost(h, Seal(p, coin, newKey, plain).0, k)
  {
    hide RootAt, NextRoot;
    if p.peer.Some? && Encapsulate(p.peer.value, coin).Some? {
      NextRootIsLarger(p.root, Encapsulate(p.peer.value, coin).value.1);
    }
  }

  lemma {:induction false} NextRootIsLarger(root: Key, shared: Key)
    ensures Size(root) < Size(NextRoot(root, shared))
  {
    assert Size(Hash(MixLabel, Pair(root, shared))) > Size(root);
  }

  lemma {:induction false} FreshStaysPut(h: History, p: Party, m: Msg, pub: Pub, ct: KemText, pn: nat)
    requires HistoryOk(h) && Size(RootAt(h, |h.epochs|)) <= Size(p.root) && !m.MalformedMsg? && Known(h, m)
    ensures OpenFresh(p, pub, ct, pn, m.body) == (p, None)
  {
    hide Retire, HistoryOk, RootAt, Chain.KeyOf;
    if !m.body.Forged? {
      var k, n :| InHistory(h, k, n) && m.body == MsgAt(h, k, n).body;
      NoWayBack(h, p, k, n, pub, ct, pn);
    }
  }

  lemma {:induction false} OpenStaysLost(h: History, p: Party, k: nat, m: Msg)
    requires HistoryOk(h) && k < |h.epochs| && Lost(h, p, k) && Known(h, m)
    ensures Lost(h, Open(p, m).0, k)
  {
    hide HistoryOk, RootAt, OpenFresh, Chain.Open, Chain.OpenSkipped, Known;
    if m.RatchetMsg? && m.pub.Some? { FreshStaysPut(h, p, m, m.pub.value, m.ct, m.pn); }
  }

  lemma {:induction false} StaysLost(h: History, p: Party, k: nat, turns: seq<Turn>)
    requires HistoryOk(h) && k < |h.epochs| && Lost(h, p, k) && KnownTurns(h, turns)
    ensures Lost(h, Continue(p, turns), k)
    decreases |turns|
  {
    hide HistoryOk, Lost, Known, Open, Seal;
    if turns != [] {
      var i := |turns| - 1;
      StaysLost(h, p, k, turns[..i]);
      var before := Continue(p, turns[..i]);
      match turns[i]
      case Seals(coin, newKey, plain) => SealStaysLost(h, before, k, coin, newKey, plain);
      case IsSent(m) => OpenStaysLost(h, before, k, m);
    }
  }

  lemma {:induction false} LostIsDeaf(h: History, p: Party, k: nat, n: nat)
    requires HistoryOk(h) && InHistory(h, k, n) && Lost(h, p, k)
    ensures Open(p, MsgAt(h, k, n)) == (p, None)
  {
    hide HistoryOk, OpenFresh, Chain.KeyOf, RootAt, Retire;
    var q := Pub(h.epochs[k].id);
    UnknownIsRefused(p, q, n, MsgAt(h, k, n).body);
    if n == 0 { NoWayBack(h, p, k, n, q, MsgAt(h, k, 0).ct, MsgAt(h, k, 0).pn); }
  }

  lemma {:induction false} SwappedPartyIsLost(h: History, role: Role, s: Side, k: nat, m: Msg)
    requires HistoryOk(h) && SideOk(h, role, s) && InHistory(h, k, 0) && Carries(m, MsgAt(h, k, 0))
    requires Swaps(h, role, s.party, k, 0, m)
    ensures Lost(h, Open(s.party, m).0, k)
  {
    hide SideOk, HistoryOk, Retire, OpenFresh, Chain.KeyOf, Open, MsgAt;
    SwapIsUnsound(h, role, s, k, 0, m);
    KeyOfNewEpoch(h, role, s, k);
    var p, q := Open(s.party, m).0, Pub(h.epochs[k].id);
    if q in p.past { RetiredKeys(s.party, m.pn, q); }
  }

  /**
   After a swap the party refuses every message of that epoch under its own header, and for good: whatever more its
   peer seals there, whatever the party itself seals, and whatever it is sent meanwhile.  No epoch follows: its peer
   made this one, and waits for an answer before it makes another.
   */
  lemma {:induction false} SwappedPartyIsDeaf(h: History, role: Role, s: Side, k: nat, m: Msg, h': History, turns: seq<Turn>, n: nat)
    requires HistoryOk(h) && SideOk(h, role, s) && InHistory(h, k, 0) && Carries(m, MsgAt(h, k, 0))
    requires Swaps(h, role, s.party, k, 0, m)
    requires HistoryOk(h') && Extends(h, h') && |h'.epochs| == |h.epochs| && KnownTurns(h', turns) && InHistory(h', k, n)
    ensures var p := Continue(Open(s.party, m).0, turns); Open(p, MsgAt(h', k, n)) == (p, None)
  {
    hide SideOk, HistoryOk, Open, MsgAt, Continue, Extends, KnownTurns, Swaps, RootAt, IdAt;
    SwappedPartyIsLost(h, role, s, k, m);
    StableIds(h, h', |h.epochs|);
    StableIds(h, h', k + 1);
    assert IdAt(h, k + 1) == h.epochs[k].id && IdAt(h', k + 1) == h'.epochs[k].id by { SameIds(h, h', k); }
    StaysLost(h', Open(s.party, m).0, k, turns);
    LostIsDeaf(h', Continue(Open(s.party, m).0, turns), k, n);
  }

  lemma {:induction false} SameIds(h: History, h': History, k: nat)
    requires k < |h.epochs| && k < |h'.epochs|
    ensures IdAt(h, k + 1) == h.epochs[k].id && IdAt(h', k + 1) == h'.epochs[k].id
  {
  }

  /** The roots agree right after the swap, and part at the swapped party's next message. */
  lemma {:induction false} SwappedRootsPart(w: World, role: Role, k: nat, m: Msg, coin: nat, newKey: nat, plain: Plain)
    requires Sound(w) && InHistory(w.h, k, 0) && Carries(m, MsgAt(w.h, k, 0))
    requires Swaps(w.h, role, SideOf(w, role).party, k, 0, m)
    ensures var p, o := Open(SideOf(w, role).party, m).0, SideOf(w, Other(role)).party;
            var (p', answer) := Seal(p, coin, newKey, plain);
            p.root == o.root && (answer.Some? ==> p'.root != o.root)
  {
    hide HistoryOk, RecvOk, ReceiptsOk, PastOk, Retire, Open, MsgAt, Chain.KeyOf, NextRoot;
    SwapIsUnsound(w.h, role, SideOf(w, role), k, 0, m);
    var p := Open(SideOf(w, role).party, m).0;
    if Encapsulate(p.peer.value, coin).Some? { NextRootIsLarger(p.root, Encapsulate(p.peer.value, coin).value.1); }
  }

  /** And what it seals next is encapsulated to the swapped key, so that its peer refuses it. */
  lemma {:induction false} SwappedPartyIsMute(w: World, role: Role, k: nat, m: Msg, plain: Plain)
    requires Sound(w) && InHistory(w.h, k, 0) && Carries(m, MsgAt(w.h, k, 0))
    requires Swaps(w.h, role, SideOf(w, role).party, k, 0, m)
    ensures var p, o := Open(SideOf(w, role).party, m).0, SideOf(w, Other(role)).party;
            var answer := Seal(p, w.h.next, w.h.next + 1, plain).1;
            answer.Some? ==> Open(o, answer.value) == (o, None)
  {
    hide HistoryOk, RecvOk, ReceiptsOk, Retire, Open, MsgAt, Chain.KeyOf;
    var h, p := w.h, Open(SideOf(w, role).party, m).0;
    SwapIsUnsound(h, role, SideOf(w, role), k, 0, m);
    if m.pub.value.Pub? { WrongKeyIsRefused(h, Other(role), SideOf(w, Other(role)), m.pub.value.id, plain, p); }
  }

  lemma {:induction false} WrongKeyIsRefused(h: History, role: Role, s: Side, evil: nat, plain: Plain, p: Party)
    requires HistoryOk(h) && SideOk(h, role, s) && MadeLast(h, role) && |h.epochs| > 0 && evil != h.epochs[|h.epochs| - 1].id
    requires p.mustRatchet && p.peer == Some(Pub(evil))
    ensures var answer := Seal(p, h.next, h.next + 1, plain).1;
            answer.Some? && Open(s.party, answer.value) == (s.party, None)
  {
    hide RecvOk, ReceiptsOk, Chain.KeyOf, Retire, Chain.Tied, Got, Chain.Open;
    var o, q, shared := s.party, Pub(h.next + 1), Shared(evil, h.next);
    var pn := if p.send.Some? then p.send.value.n else 0;
    var body := Sealed(Chain.MessageKey(ChainKey(p.root, shared)), 0, plain);
    assert Seal(p, h.next, h.next + 1, plain).1 == Some(RatchetMsg(Some(q), Encap(evil, h.next), pn, 0, body));
    if Heard(h, role, o) >= -1 { IdBelowNext(h, Heard(h, role, o) + 1); }
    assert o.peer != Some(q) && q !in o.past;
    assert o.self == Some(IdAt(h, |h.epochs|)) && IdAt(h, |h.epochs|) != evil;
    RejectedNeverOpens(o, q, evil, h.next, pn, p.root, plain);
  }

  lemma {:induction false} RejectedNeverOpens(o: Party, q: Pub, evil: nat, coin: nat, pn: nat, root: Key, plain: Plain)
    requires o.self.Some? && o.self.value != evil
    ensures OpenFresh(o, q, Encap(evil, coin), pn, Sealed(Chain.MessageKey(ChainKey(root, Shared(evil, coin))), 0, plain)) == (o, None)
  {
    hide Retire;
    var shared := Rejected(o.self.value, evil, coin);
    var c := Chain.NewRecv(ChainKey(o.root, shared));
    assert Chain.LiveKey(c, 0) == Chain.MessageKey(ChainKey(o.root, shared));
  }

  /** The initiator's first message with any other key in its header. */
  function SwappedGreeting(w: World, plain: Plain, evil: Pub): Msg {
    var m := Seal(w.a.party, w.h.next, w.h.next + 1, plain).1;
    if m.Some? && m.value.RatchetMsg? then m.value.(pub := Some(evil)) else MalformedMsg
  }

  /**
   The smallest case, from the handshake: the responder opens the greeting under the swapped key to its own
   plaintext, refuses the genuine one after it, and its answer is refused.
   */
  lemma {:induction false} ASwappedGreetingLosesTheSession(
    orderA: Pub -> nat, orderB: Pub -> nat, id: nat, coin: nat, plain: Plain, answer: Plain, evil: Pub)
    requires evil != Pub(id + 2)
    ensures var w := Genesis(orderA, orderB, id, coin);
            var w1, m := Step(w, Sealing(Initiator, plain)), SwappedGreeting(w, plain, evil);
            var (b, r) := Open(w1.b.party, m);
            && r == Some(plain)
            && InHistory(w1.h, 0, 0) && Open(b, MsgAt(w1.h, 0, 0)) == (b, None)
            && var (_, reply) := Seal(b, w1.h.next, w1.h.next + 1, answer);
               reply.Some? ==> Open(w1.a.party, reply.value) == (w1.a.party, None)
  {
    hide Sound, Open, HistoryOk, SideOk;
    var w := Genesis(orderA, orderB, id, coin);
    GenesisIsSound(orderA, orderB, id, coin);
    var w1, m := Step(w, Sealing(Initiator, plain)), SwappedGreeting(w, plain, evil);
    StepIsSound(w, Sealing(Initiator, plain));
    GreetingIs(orderA, orderB, id, coin, plain, evil);
    SoundParts(w1);
    SwappedOpen(w1.h, Responder, w1.b, 0, 0, m);
    SwappedPartyIsDeaf(w1.h, Responder, w1.b, 0, m, w1.h, [], 0);
    SwappedPartyIsMute(w1, Responder, 0, m, answer);
  }

  lemma {:induction false} SoundParts(w: World)
    requires Sound(w)
    ensures HistoryOk(w.h) && SideOk(w.h, Responder, w.b)
  {
    hide HistoryOk, SideOk, WireOk;
  }

  lemma {:induction false} GreetingIs(orderA: Pub -> nat, orderB: Pub -> nat, id: nat, coin: nat, plain: Plain, evil: Pub)
    requires evil != Pub(id + 2)
    ensures var w := Genesis(orderA, orderB, id, coin);
            var w1, m := Step(w, Sealing(Initiator, plain)), SwappedGreeting(w, plain, evil);
            && InHistory(w1.h, 0, 0) && w1.h.epochs[0].plains[0] == plain
            && Carries(m, MsgAt(w1.h, 0, 0)) && Swaps(w1.h, Responder, w1.b.party, 0, 0, m)
  {
  }
}
