/**
 Bounded memory over every run: the gather table with its attribution ring and the queues with the replay tags stay
 within their shares, and exactly on which planes they do.
 */
module MemoryRuns {
  import opened Symbolic
  import opened PeelSearch
  import opened Budget
  import opened Router
  import opened GatherRuns
  import opened EmissionRuns
  import ReplayRuns
  import LeastNumber
  import Octets

  predicate EntryFits(c: Config, p: Pending) {
    && |p.onion| == OnionLen(c.lineSize)
    && |p.shares| <= MAX_CANDIDATES
    && (forall i :: 0 <= i < |p.shares| ==> 1 + |p.shares[i].y| == SHARE_LEN)
  }

  ghost predicate TableFits(c: Config, s: State) {
    && (forall id :: id in s.pending ==> EntryFits(c, s.pending[id]))
    && |s.pending| <= AtLeastOne(MaxPending(c.lineSize))
    && |s.resolved| <= AtLeastOne(MaxPending(c.lineSize))
  }

  lemma {:induction false} RemovingFits(c: Config, s: State, t: State, id: nat)
    requires TableFits(c, s) && id in s.pending
    requires t.pending == s.pending - {id} && |t.resolved| <= AtLeastOne(MaxPending(c.lineSize))
    ensures TableFits(c, t) && |t.pending| == |s.pending| - 1
  {
    hide EntryFits, MaxPending;
    assert t.pending.Keys == s.pending.Keys - {id};
    assert |t.pending| == |t.pending.Keys| && |s.pending| == |s.pending.Keys|;
  }

  lemma {:induction false} PuttingFits(c: Config, s: State, id: nat, p: Pending)
    requires TableFits(c, s) && EntryFits(c, p)
    requires id in s.pending || |s.pending| < AtLeastOne(MaxPending(c.lineSize))
    ensures TableFits(c, s.(pending := s.pending[id := p]))
  {
    hide EntryFits, MaxPending;
    PutSize(s.pending, id, p);
  }

  lemma {:induction false} PutSize(pending: map<nat, Pending>, id: nat, p: Pending)
    ensures |pending[id := p]| == if id in pending then |pending| else |pending| + 1
  {
    var more := pending[id := p];
    assert more.Keys == pending.Keys + {id};
    assert |more| == |more.Keys| && |pending| == |pending.Keys|;
    assert id in pending ==> more.Keys == pending.Keys;
  }

  lemma {:induction false} PeelFits(c: Config, s: State, id: nat)
    requires TableFits(c, s) && id in s.pending
    ensures TableFits(c, TryPeel(c, s, id).0)
  {
    hide TryPeel, Peels, EntryFits, MaxPending;
    PeelAttempt(c, s, id);
    match Peels(c, s.pending[id])
    case None =>
    case Some(peeled) => RemovingFits(c, s, Complete(c, s, id, peeled), id);
  }

  lemma {:induction false} RoomFits(c: Config, s: State)
    requires TableFits(c, s)
    ensures TableFits(c, MakeRoom(c, s)) && |MakeRoom(c, s).pending| < AtLeastOne(MaxPending(c.lineSize))
    ensures MakeRoom(c, s).nextId == s.nextId
  {
    hide EntryFits, MaxPending;
    var t := MakeRoom(c, s);
    if t != s { RemovingFits(c, s, t, LeastNumber.Least(s.pending.Keys)); }
  }

  lemma {:induction false} OnionFits(c: Config, s: State, line: Coord, onion: Bytes)
    requires ValidConfig(c) && TableFits(c, s) && |onion| == OnionLen(c.lineSize)
    ensures TableFits(c, OnOnion(c, s, line, onion).0)
  {
    hide TryPeel, MakeRoom, MaxPending, Requests;
    var (s1, isNew) := Admit(s, c.tag(onion));
    if isNew {
      RoomFits(c, s1);
      var roomy, s2 := MakeRoom(c, s1), OpenGather(c, s1, line, onion);
      var p := s2.pending[s1.nextId];
      assert EntryFits(c, p);
      PuttingFits(c, roomy, s1.nextId, p);
      PeelFits(c, s2, s1.nextId);
    }
  }

  lemma {:induction false} ReplyFits(c: Config, s: State, id: nat, share: Share)
    requires TableFits(c, s) && 1 + |share.y| == SHARE_LEN
    ensures TableFits(c, OnReply(c, s, id, share).0)
  {
    hide TryPeel, MaxPending;
    if id in s.pending && Takes(s.pending[id], share) {
      var p := s.pending[id].(shares := s.pending[id].shares + [share]);
      PuttingFits(c, s, id, p);
      PeelFits(c, s.(pending := s.pending[id := p]), id);
    }
  }

  lemma {:induction false} DeadlineFits(c: Config, s: State, id: nat)
    requires TableFits(c, s)
    ensures TableFits(c, OnDeadline(c, s, id))
  {
    hide EntryFits, MaxPending;
    if id in s.pending { RemovingFits(c, s, OnDeadline(c, s, id), id); }
  }

  lemma {:induction false} TableIsBounded(c: Config, run: seq<Input>)
    requires ValidConfig(c)
    ensures TableFits(c, After(c, run))
  {
    hide ValidConfig, EntryFits, MaxPending, OnOnion, OnReply, OnDeadline, EmitCover, StartCover, OnRequest;
    if run != [] {
      var s := After(c, run[..|run| - 1]);
      TableIsBounded(c, run[..|run| - 1]);
      CoverKeepsGathers(c, s);
      match run[|run| - 1]
      case OnionFrame(line, onion) => if |onion| == OnionLen(c.lineSize) { OnionFits(c, s, line, onion); }
      case ReplyFrame(id, share) => if 1 + |share.y| == SHARE_LEN { ReplyFits(c, s, id, share); }
      case Timer(GatherToken(id)) => DeadlineFits(c, s, id);
      case Timer(CoverToken) =>
      case Timer(MixToken(_)) =>
      case RequestFrame(_, _, _, _) =>
      case DropFrame(_, _, _) =>
      case Undecodable =>
      case Launch(_, _) =>
      case StartHeartbeat =>
      case AdvanceEpoch =>
      case OtherCommand =>
    }
  }

  function ShareBytes(shares: seq<Share>): nat {
    if shares == [] then 0 else ShareBytes(shares[..|shares| - 1]) + 1 + |shares[|shares| - 1].y|
  }

  function EntryBytes(p: Pending): nat { |p.onion| + ShareBytes(p.shares) }

  /** The bytes the pending gathers hold. */
  ghost function PendingBytes(pending: map<nat, Pending>): nat
    decreases |pending|
  {
    if pending == map[] then 0
    else
      var id := LeastNumber.Least(pending.Keys);
      assert (pending - {id}).Keys == pending.Keys - {id};
      assert |pending - {id}| == |(pending - {id}).Keys| < |pending.Keys| == |pending|;
      EntryBytes(pending[id]) + PendingBytes(pending - {id})
  }

  /** The bytes a queue of cells holds, each with its destination. */
  function CellBytes(c: Config, queue: seq<Queued>): nat {
    if queue == [] then 0
    else CellBytes(c, queue[..|queue| - 1]) + FrameWidth(c, queue[|queue| - 1].cell) + TRIPLE_BYTES
  }

  ghost function MixBytes(c: Config, mix: map<nat, Queued>): nat
    decreases |mix|
  {
    if mix == map[] then 0
    else
      var id := LeastNumber.Least(mix.Keys);
      assert (mix - {id}).Keys == mix.Keys - {id};
      assert |mix - {id}| == |(mix - {id}).Keys| < |mix.Keys| == |mix|;
      FrameWidth(c, mix[id].cell) + TRIPLE_BYTES + MixBytes(c, mix - {id})
  }

  lemma {:induction false} ShareBytesFit(shares: seq<Share>)
    requires forall i :: 0 <= i < |shares| ==> 1 + |shares[i].y| == SHARE_LEN
    ensures ShareBytes(shares) == |shares| * SHARE_LEN
  {
    if shares != [] { ShareBytesFit(shares[..|shares| - 1]); }
  }

  lemma {:induction false} PendingBytesFit(c: Config, pending: map<nat, Pending>)
    requires forall id :: id in pending ==> EntryFits(c, pending[id])
    ensures PendingBytes(pending) <= |pending| * PendingEntryBytes(c.lineSize)
    decreases |pending|
  {
    if pending != map[] {
      var id := LeastNumber.Least(pending.Keys);
      var rest := pending - {id};
      assert rest.Keys == pending.Keys - {id};
      assert |rest| == |rest.Keys| == |pending.Keys| - 1 == |pending| - 1;
      PendingBytesFit(c, rest);
      ShareBytesFit(pending[id].shares);
      Times(|pending|, PendingEntryBytes(c.lineSize));
    }
  }

  lemma {:induction false} Times(n: nat, cost: nat)
    requires n > 0
    ensures n * cost == (n - 1) * cost + cost
  {
  }

  lemma {:induction false} TimesGrows(m: nat, n: nat, cost: nat)
    requires m <= n
    ensures m * cost <= n * cost
  {
  }

  lemma {:induction false} CellBytesFit(c: Config, queue: seq<Queued>)
    requires forall i :: 0 <= i < |queue| ==> Sized(c, queue[i].cell)
    ensures CellBytes(c, queue) == |queue| * QueuedCellBytes(c.lineSize)
  {
    if queue != [] {
      CellBytesFit(c, queue[..|queue| - 1]);
      Times(|queue|, QueuedCellBytes(c.lineSize));
    }
  }

  lemma {:induction false} MixBytesFit(c: Config, mix: map<nat, Queued>)
    requires forall id :: id in mix ==> Sized(c, mix[id].cell)
    ensures MixBytes(c, mix) == |mix| * QueuedCellBytes(c.lineSize)
    decreases |mix|
  {
    if mix != map[] {
      var id := LeastNumber.Least(mix.Keys);
      var rest := mix - {id};
      assert rest.Keys == mix.Keys - {id};
      assert |rest| == |rest.Keys| == |mix.Keys| - 1 == |mix| - 1;
      MixBytesFit(c, rest);
      Times(|mix|, QueuedCellBytes(c.lineSize));
    }
  }

  /** The bytes of the pending gathers and of the attribution ring. */
  ghost function GatherBytes(s: State): nat { PendingBytes(s.pending) + |s.resolved| * RESOLVED_ENTRY_BYTES }

  /** In every reachable state the gathers and the attribution ring fit the gather share, while it buys one gather. */
  lemma {:induction false} GathersFitTheirShare(c: Config, run: seq<Input>)
    requires ValidConfig(c) && MaxPending(c.lineSize) >= 1
    ensures var s := After(c, run);
            && |s.pending| <= MaxPending(c.lineSize)
            && GatherBytes(s) <= GATHER_SHARE
  {
    hide ValidConfig, After, PendingBytes, EntryFits, MaxPending, PendingEntryBytes;
    TableIsBounded(c, run);
    var s, n, entry := After(c, run), MaxPending(c.lineSize), PendingEntryBytes(c.lineSize);
    PendingBytesFit(c, s.pending);
    TimesGrows(|s.pending|, n, entry);
    TimesGrows(|s.resolved|, n, RESOLVED_ENTRY_BYTES);
    CountsAreDerived(c.lineSize);
    assert n * (entry + RESOLVED_ENTRY_BYTES) == n * entry + n * RESOLVED_ENTRY_BYTES;
  }

  /** The bytes of both queues and of the replay tags. */
  ghost function QueueBytes(c: Config, s: State): nat {
    CellBytes(c, s.outbox) + MixBytes(c, s.mix) + |s.replayOrder| * REPLAY_TAG_LEN
  }

  /**
   In every reachable state the queue in use and the replay tags fit the router's share: always with cover off, and
   with cover on while the share buys one cell.
   */
  lemma {:induction false} QueuesFitTheirShare(c: Config, run: seq<Input>)
    requires ValidConfig(c) && (c.coverInterval == 0 || MaxQueue(c.lineSize) >= 1)
    ensures QueueBytes(c, After(c, run)) <= ROUTER_SHARE
    ensures |After(c, run).outbox| <= MaxQueue(c.lineSize) && |After(c, run).mix| <= MaxQueue(c.lineSize)
  {
    hide ValidConfig, After, CellBytes, MixBytes, MaxQueue, Sized, QueuedCellBytes;
    QueuesAreConserved(c, run);
    ReplayRuns.FilterIsTheLastTags(c, run);
    var s, n, cell := After(c, run), MaxQueue(c.lineSize), QueuedCellBytes(c.lineSize);
    CellBytesFit(c, s.outbox);
    MixBytesFit(c, s.mix);
    TimesGrows(|s.outbox|, n, cell);
    TimesGrows(|s.mix|, n, cell);
    CountsAreDerived(c.lineSize);
    assert |s.outbox| == 0 || |s.mix| == 0;
  }

  /** The shares buy at least one gather and one cell exactly on lines of up to these many points. */
  lemma {:induction false} WhenTheSharesBuyOne(lineSize: nat)
    ensures MaxPending(lineSize) >= 1 <==> lineSize <= 14351
    ensures MaxQueue(lineSize) >= 1 <==> lineSize <= 8913
  {
    hide Buys;
    BuysOne(GATHER_SHARE, PendingEntryBytes(lineSize) + RESOLVED_ENTRY_BYTES);
    BuysOne(ROUTER_SHARE - REPLAY_CACHE_BYTES, QueuedCellBytes(lineSize));
  }

  lemma {:induction false} BuysOne(share: nat, cost: nat)
    requires cost > 0
    ensures Buys(share, cost) >= 1 <==> cost <= share
  {
    DivisionBounds(share, cost);
    if cost <= share { QuotientAtLeast(share, cost, 1); }
  }

  // ----- Where the shares buy none -----

  /** One gather that is not peeled at once is over a cap of zero, and its onion alone is over the share. */
  lemma {:induction false} AZeroCapIsExceeded(c: Config, line: Coord, onion: Bytes)
    requires MaxPending(c.lineSize) == 0 && |onion| == OnionLen(c.lineSize)
    requires Peels(c, Pending(onion, OwnShares(c, 0, line, onion), |c.members(line)|, line)).None?
    ensures var s := After(c, [OnionFrame(line, onion)]);
            |s.pending| > MaxPending(c.lineSize) && GatherBytes(s) > GATHER_SHARE
  {
    hide Peels, OwnShares, Requests, MaxPending, OnionLen;
    var run := [OnionFrame(line, onion)];
    assert run[..0] == [];
    assert After(c, run) == Step(c, INITIAL, run[0]).0;
    var s1 := Admit(INITIAL, c.tag(onion)).0;
    assert MakeRoom(c, s1) == s1;
    var s2 := OpenGather(c, s1, line, onion);
    var p := Pending(onion, OwnShares(c, 0, line, onion), |c.members(line)|, line);
    assert s2.pending == map[0 := p];
    PeelAttempt(c, s2, 0);
    WhenTheSharesBuyOne(c.lineSize);
    OneOnionIsTooMuch(c.lineSize);
    OneEntry(p);
  }

  lemma {:induction false} OneOnionIsTooMuch(lineSize: nat)
    ensures lineSize > 14351 ==> OnionLen(lineSize) > GATHER_SHARE
  {
  }

  lemma {:induction false} OneEntry(p: Pending)
    ensures PendingBytes(map[0 := p]) >= |p.onion|
  {
    var one: map<nat, Pending> := map[0 := p];
    assert 0 in one && one.Keys == {0};
    assert LeastNumber.Least(one.Keys) == 0;
  }

  /** Every run of every router on this plane keeps its gathers within their count, or within their share. */
  ghost predicate GatherCountHolds(lineSize: nat) {
    forall c: Config, run: seq<Input> :: ValidConfig(c) && c.lineSize == lineSize ==>
      |After(c, run).pending| <= MaxPending(lineSize)
  }

  ghost predicate GatherShareHolds(lineSize: nat) {
    forall c: Config, run: seq<Input> :: ValidConfig(c) && c.lineSize == lineSize ==>
      GatherBytes(After(c, run)) <= GATHER_SHARE
  }

  /** The gather table keeps its count, and its share, exactly on lines of up to 14351 points. */
  lemma {:induction false} GathersHoldIff(lineSize: nat)
    ensures GatherCountHolds(lineSize) <==> lineSize <= 14351
    ensures GatherShareHolds(lineSize) <==> lineSize <= 14351
  {
    hide MaxPending, After, GatherBytes, ValidConfig, OnionLen;
    WhenTheSharesBuyOne(lineSize);
    if lineSize <= 14351 {
      forall c: Config, run: seq<Input> | ValidConfig(c) && c.lineSize == lineSize
        ensures |After(c, run).pending| <= MaxPending(lineSize) && GatherBytes(After(c, run)) <= GATHER_SHARE
      {
        GathersFitTheirShare(c, run);
      }
    } else {
      var c := ValidConfigsExist(lineSize);
      var onion := Octets.Zeros(OnionLen(lineSize));
      NothingToPeel(c, onion);
      AZeroCapIsExceeded(c, 0, onion);
    }
  }

  lemma {:induction false} NothingToPeel(c: Config, onion: Bytes)
    requires c.threshold == 1 && c.partial(0, onion, 0).None? && c.members(0) == [c.me]
    ensures Peels(c, Pending(onion, OwnShares(c, 0, 0, onion), |c.members(0)|, 0)).None?
  {
    assert IndexOf([c.me], c.me) == Some(0);
  }

  // ----- A full replay filter and one queued cell -----

  /** A router that peels every onion at once, from its own share, and forwards it. */
  ghost predicate ForwardsAtOnce(c: Config) {
    && ValidConfig(c) && c.coverInterval != 0 && c.threshold == 1 && c.members(0) == [c.me]
    && (forall epoch, onion :: c.partial(epoch, onion, 0).Some?)
    && (forall onion, shares :: c.peel(onion, shares).Some? && c.peel(onion, shares).value.Forward?
                                && c.peel(onion, shares).value.next == 0)
    && (forall onion :: c.tag(onion) == Octets.FromBe(Octets.First(onion, 4)))
  }

  lemma {:induction false} ForwardersExist(lineSize: nat) returns (c: Config)
    ensures ForwardsAtOnce(c) && c.lineSize == lineSize
  {
    var width := OnionLen(lineSize);
    var share := Share(1, Octets.Zeros(32));
    c := Config(0, 1, lineSize, 1, 0, [], line => [0], (epoch, onion, i) => Some(share), (i, id, line) => share,
                (onion, shares) => Some(Forward(0, [])), onion => Octets.FromBe(Octets.First(onion, 4)),
                (line, salt) => 0, tag => true, payload => None, (onion, n: nat) => Octets.Zeros(n), (counter, n) => 0,
                counter => Octets.Zeros(width));
  }

  /** Onion number `k` of a plane: its number, then zeros. */
  function OnionNo(lineSize: nat, k: nat): (onion: Bytes)
    ensures |onion| == OnionLen(lineSize)
  {
    Octets.Be(k, 4) + Octets.Zeros(OnionLen(lineSize) - 4)
  }

  lemma {:induction false} TagOfNo(lineSize: nat, k: nat)
    requires k < MAX_REPLAY_TAGS
    ensures Octets.FromBe(Octets.First(OnionNo(lineSize, k), 4)) == k
  {
    hide Octets.Be, Octets.FromBe, OnionLen;
    Octets.FieldWidths();
    Octets.BeRoundTrip(k, 4);
    assert Octets.First(OnionNo(lineSize, k), 4) == Octets.Be(k, 4);
  }

  /** The first `k` of these onions, in order. */
  function Flood(lineSize: nat, k: nat): (run: seq<Input>)
    ensures |run| == k
  {
    if k == 0 then [] else Flood(lineSize, k - 1) + [OnionFrame(0, OnionNo(lineSize, k - 1))]
  }

  lemma {:induction false} FloodIsAdmitted(c: Config, k: nat)
    requires ForwardsAtOnce(c) && k <= MAX_REPLAY_TAGS
    ensures var tags := ReplayRuns.Admitted(c, Flood(c.lineSize, k));
            |tags| == k && forall i :: 0 <= i < k ==> tags[i] < k
  {
    hide ForwardsAtOnce, OnionNo, Flood;
    NoFlood(c);
    if k > 0 {
      FloodIsAdmitted(c, k - 1);
      OneMoreAdmitted(c, k);
    }
  }

  lemma {:induction false} NoFlood(c: Config)
    ensures ReplayRuns.Admitted(c, Flood(c.lineSize, 0)) == []
  {
  }

  lemma {:induction false} OneMoreAdmitted(c: Config, k: nat)
    requires ForwardsAtOnce(c) && 0 < k <= MAX_REPLAY_TAGS
    requires var tags := ReplayRuns.Admitted(c, Flood(c.lineSize, k - 1));
             |tags| == k - 1 && forall i :: 0 <= i < k - 1 ==> tags[i] < k - 1
    ensures ReplayRuns.Admitted(c, Flood(c.lineSize, k)) == ReplayRuns.Admitted(c, Flood(c.lineSize, k - 1)) + [k - 1]
  {
    hide ValidConfig, OnionNo, Octets.FromBe;
    var run, onion := Flood(c.lineSize, k), OnionNo(c.lineSize, k - 1);
    var tags := ReplayRuns.Admitted(c, Flood(c.lineSize, k - 1));
    assert run[..k - 1] == Flood(c.lineSize, k - 1) && run[k - 1] == OnionFrame(0, onion);
    TagOfNo(c.lineSize, k - 1);
    assert c.tag(onion) == k - 1;
    assert k - 1 !in tags;
  }

  lemma {:induction false} OneShareSearch(peel: seq<Share> -> Option<Peeled>, share: Share)
    ensures BestSubset(peel, [share], 1) == peel([share])
  {
    var shares := [share];
    assert Pick(shares, [0]) == [share] by { assert [0][..0] == []; }
    assert Search(peel, shares, 1, 1, [0], 0) == (peel([share]), 1);
    assert Search(peel, shares, 1, 1, [], 1) == (None, 1);
    assert [] + [0] == [0];
  }

  /** Such an onion, when it is new, leaves a cell in the outbox. */
  lemma {:induction false} ForwardingQueues(c: Config, s: State, onion: Bytes)
    requires ForwardsAtOnce(c) && Admit(s, c.tag(onion)).1
    ensures OnOnion(c, s, 0, onion).0.outbox != []
  {
    hide MakeRoom, Requests, Padded, MaxQueue, Admit, ValidConfig, BestSubset, Remember, StartCover;
    var s1 := Admit(s, c.tag(onion)).0;
    var s2 := OpenGather(c, s1, 0, onion);
    var share := c.partial(s1.epoch, onion, 0).value;
    assert IndexOf([c.me], c.me) == Some(0);
    var p := s2.pending[s1.nextId];
    assert p == Pending(onion, [share], 1, 0);
    OneShareSearch(PeelWith(c, onion), share);
    assert Peels(c, p) == c.peel(onion, [share]);
    var peeled := c.peel(onion, [share]).value;
    ActQueues(c, Complete(c, s2, s1.nextId, peeled), 0, peeled);
  }

  lemma {:induction false} ActQueues(c: Config, s: State, line: Coord, peeled: Peeled)
    requires c.coverInterval != 0 && peeled.Forward? && peeled.next == 0 && c.members(0) != []
    ensures ActOn(c, s, line, peeled).0.outbox != []
  {
    hide Padded, MaxQueue;
  }

  /** The flood leaves a full replay filter and a cell in the outbox. */
  lemma {:induction false} FloodFills(c: Config)
    requires ForwardsAtOnce(c)
    ensures var s := After(c, Flood(c.lineSize, MAX_REPLAY_TAGS));
            |s.replayOrder| == MAX_REPLAY_TAGS && s.outbox != []
  {
    hide Step, ReplayRuns.Admitted, OnionNo, ForwardsAtOnce, Flood, After;
    var k := MAX_REPLAY_TAGS;
    var run := Flood(c.lineSize, k);
    FloodIsAdmitted(c, k);
    FloodIsAdmitted(c, k - 1);
    ReplayRuns.FilterIsTheLastTags(c, run);
    LastOfFlood(c, k);
  }

  lemma {:induction false} LastOfFlood(c: Config, k: nat)
    requires ForwardsAtOnce(c) && 0 < k <= MAX_REPLAY_TAGS
    ensures After(c, Flood(c.lineSize, k)).outbox != []
  {
    hide OnOnion, ReplayRuns.Admitted, OnionNo, ValidConfig, Admit, EmitCover, StartCover, OnReply, OnDeadline, OnRequest;
    var run, onion := Flood(c.lineSize, k), OnionNo(c.lineSize, k - 1);
    var before := Flood(c.lineSize, k - 1);
    assert run[..k - 1] == before && run[k - 1] == OnionFrame(0, onion);
    var s := After(c, before);
    FloodIsAdmitted(c, k - 1);
    TagOfNo(c.lineSize, k - 1);
    ReplayRuns.FilterIsTheLastTags(c, before);
    ReplayRuns.AdmitSlides(s, c.tag(onion), ReplayRuns.Admitted(c, before));
    ForwardingQueues(c, s, onion);
  }

  /** Every run of every covering router on this plane keeps its outbox within its count, or within the share. */
  ghost predicate OutboxCountHolds(lineSize: nat) {
    forall c: Config, run: seq<Input> :: ValidConfig(c) && c.lineSize == lineSize && c.coverInterval != 0 ==>
      |After(c, run).outbox| <= MaxQueue(lineSize)
  }

  ghost predicate OutboxShareHolds(lineSize: nat) {
    forall c: Config, run: seq<Input> :: ValidConfig(c) && c.lineSize == lineSize && c.coverInterval != 0 ==>
      QueueBytes(c, After(c, run)) <= ROUTER_SHARE
  }

  /**
   The outbox keeps its count, and with the replay tags its share, exactly on lines of up to 8913 points; the mixing
   queue, which refuses instead of making room, keeps both on every plane (`QueuesFitTheirShare`).
   */
  lemma {:induction false} OutboxHoldsIff(lineSize: nat)
    ensures OutboxCountHolds(lineSize) <==> lineSize <= 8913
    ensures OutboxShareHolds(lineSize) <==> lineSize <= 8913
  {
    hide MaxQueue, After, QueueBytes, ValidConfig, Flood;
    WhenTheSharesBuyOne(lineSize);
    if lineSize <= 8913 {
      forall c: Config, run: seq<Input> | ValidConfig(c) && c.lineSize == lineSize && c.coverInterval != 0
        ensures |After(c, run).outbox| <= MaxQueue(lineSize) && QueueBytes(c, After(c, run)) <= ROUTER_SHARE
      {
        QueuesFitTheirShare(c, run);
      }
    } else {
      var c := ForwardersExist(lineSize);
      FloodFills(c);
      FullIsTooMuch(c, Flood(lineSize, MAX_REPLAY_TAGS));
    }
  }

  /** A full filter and one cell are over the share where it buys no cell. */
  lemma {:induction false} FullIsTooMuch(c: Config, run: seq<Input>)
    requires ValidConfig(c) && MaxQueue(c.lineSize) == 0
    requires |After(c, run).replayOrder| == MAX_REPLAY_TAGS && After(c, run).outbox != []
    ensures QueueBytes(c, After(c, run)) > ROUTER_SHARE
  {
    hide ValidConfig, After, CellBytes, MixBytes, MaxQueue, Sized, QueuedCellBytes;
    var s := After(c, run);
    QueuesAreConserved(c, run);
    CellBytesFit(c, s.outbox);
    TimesGrows(1, |s.outbox|, QueuedCellBytes(c.lineSize));
    CountsAreDerived(c.lineSize);
  }
}
