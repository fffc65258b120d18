/**
 The threshold router: a sans-I/O engine that gathers shares for the hops it combines, forwards what it
 peels through a constant-rate outbox or a mixing queue, and drops replays.

 `State` is the value of a router and the functions on it say what each handler does and emits; the class
 `ThresholdRouter` runs the handlers step by step and is proved against them.  What the router cannot see
 (geometry, cryptography, the PRF draws) is a function in `Config`.
 */
module Router {
  import opened Symbolic
  import opened PeelSearch
  import opened Budget
  import LeastNumber

  type Coord = nat
  type Bytes = seq<bv8>

  datatype Peeled = Deliver(payload: Bytes, holonomy: Bytes) | Forward(next: Coord, onion: Bytes)

  /**
   `members` gives a line's points in seal order; `partial` this node's share of an onion in an epoch;
   `peel` the outcome of peeling with a set of shares; `tag` the replay tag of a packet; `draw` the salted
   choice of a gatherer; `verified` the endpoint's path check; `deaddrop` the body of a dead-drop envelope;
   `pad`, `prf` and `keystream` the padding, the schedule PRF and the cover bytes.
   */
  datatype Config = Config(
    me: Coord,
    threshold: nat,
    lineSize: nat,
    coverInterval: nat,
    meanDelay: nat,
    lines: seq<Coord>,
    members: Coord -> seq<Coord>,
    partial: (nat, Bytes, nat) -> Option<Share>,
    decoy: (nat, nat, Coord) -> Share,
    peel: (Bytes, seq<Share>) -> Option<Peeled>,
    tag: Bytes -> nat,
    draw: (Coord, Bytes) -> nat,
    verified: Bytes -> bool,
    deaddrop: Bytes -> Option<Bytes>,
    pad: (Bytes, nat) -> Bytes,
    prf: (nat, nat) -> nat,
    keystream: nat -> Bytes)

  /** A hop being gathered. */
  datatype Pending = Pending(onion: Bytes, shares: seq<Share>, memberCount: nat, line: Coord)

  datatype Outcome = ByPeel | ByDeadline

  /** A frame of constant width: a forwarded onion, or a dead-drop cell padded to the same bucket. */
  datatype Cell = OnionCell(line: Coord, onion: Bytes) | DropCell(line: Coord, body: Bytes)
  datatype Queued = Queued(to: Coord, cell: Cell)

  /** How a gather ended. */
  datatype Closing = Completed(outcome: Peeled) | Expired | Unpeelable | Evicted

  /** The log of ended gathers, and the cells that were to be forwarded, left, or were shed or refused. */
  datatype Books = Books(closed: seq<(nat, Closing)>, forwarded: nat, released: nat, shed: nat)

  datatype State = State(
    pending: map<nat, Pending>,
    resolved: seq<(nat, Outcome)>,
    nextId: nat,
    mix: map<nat, Queued>,
    mixSeq: nat,
    replaySeen: set<nat>,
    replayOrder: seq<nat>,
    covering: bool,
    coverSeq: nat,
    outbox: seq<Queued>,
    epoch: nat,
    books: Books)

  datatype Token = GatherToken(id: nat) | MixToken(id: nat) | CoverToken

  datatype Effect =
    | SendCell(to: Coord, cell: Cell)
    | SendRequest(to: Coord, id: nat, line: Coord, onion: Bytes)
    | SendReply(to: Coord, id: nat, share: Share)
    | SendRaw(to: Coord, frame: Bytes)
    | Arm(token: Token)
    | Notify(payload: Bytes)

  /** The fields of a received frame, a timer, or a command. */
  datatype Input =
    | OnionFrame(line: Coord, onion: Bytes)
    | RequestFrame(id: nat, combiner: Coord, line: Coord, onion: Bytes)
    | ReplyFrame(id: nat, share: Share)
    | DropFrame(line: Coord, region: Bytes, body: Option<Bytes>)
    | Undecodable
    | Timer(token: Token)
    | Launch(to: Coord, frame: Bytes)
    | StartHeartbeat
    | AdvanceEpoch
    | OtherCommand

  const NO_BOOKS: Books := Books([], 0, 0, 0)

  const INITIAL: State := State(map[], [], 0, map[], 0, {}, [], false, 0, [], 0, NO_BOOKS)

  function IndexOf(members: seq<Coord>, me: Coord): (r: Option<nat>)
    ensures r.None? <==> me !in members
    ensures r.Some? ==> r.value < |members| && members[r.value] == me
  {
    if members == [] then None
    else if members[0] == me then Some(0)
    else
      match IndexOf(members[1..], me)
      case None => None
      case Some(i) => Some(i + 1)
  }

  /** The member of `line` drawn to gather an onion. */
  function Gatherer(c: Config, line: Coord, salt: Bytes): Option<Coord> {
    var members := c.members(line);
    if members == [] then None else Some(members[c.draw(line, salt) % |members|])
  }

  /** Pad to the bucket; an onion already past it is left as it is. */
  function Padded(c: Config, onion: Bytes): Bytes {
    if |onion| > OnionLen(c.lineSize) then onion else onion + c.pad(onion, OnionLen(c.lineSize) - |onion|)
  }

  // ----- Emission: cover slots, outbox, mixing -----

  function ArmCover(s: State): (State, seq<Effect>) {
    (s.(coverSeq := s.coverSeq + 1), [Arm(CoverToken)])
  }

  function StartCover(c: Config, s: State): (State, seq<Effect>) {
    if c.coverInterval == 0 || s.covering then (s, []) else ArmCover(s.(covering := true))
  }

  /** A draw below `n`. */
  function Draw(c: Config, counter: nat, n: nat): (i: nat)
    requires n > 0
    ensures i < n
  {
    var u := c.prf(counter, n);
    if u < n then u else n - 1
  }

  /** The slot's cell: cover when nothing waits, otherwise a drawn queued cell in its place. */
  function SlotCell(c: Config, s: State): (State, seq<Effect>) {
    if s.outbox == [] then
      var line := if c.lines == [] then 0 else c.lines[Draw(c, s.coverSeq + 1, |c.lines|)];
      var cell := c.keystream(s.coverSeq + 2);
      (s.(coverSeq := s.coverSeq + 2),
       match Gatherer(c, line, cell) case None => [] case Some(to) => [SendCell(to, OnionCell(line, cell))])
    else
      var i := Draw(c, s.coverSeq + 1, |s.outbox|);
      (s.(coverSeq := s.coverSeq + 1, outbox := s.outbox[..i] + s.outbox[i + 1..],
          books := s.books.(released := s.books.released + 1)),
       [SendCell(s.outbox[i].to, s.outbox[i].cell)])
  }

  function EmitCover(c: Config, s: State): (State, seq<Effect>) {
    var (s1, sent) := SlotCell(c, s);
    if s1.covering && c.coverInterval > 0 then
      var (s2, armed) := ArmCover(s1);
      (s2, sent + armed)
    else (s1, sent)
  }

  function ForwardSend(c: Config, s: State, to: Coord, cell: Cell): (State, seq<Effect>) {
    if c.coverInterval != 0 then Enqueue(c, s, Queued(to, cell))
    else
      var asked := s.books.(forwarded := s.books.forwarded + 1);
      if c.meanDelay == 0 then (s.(books := asked.(released := asked.released + 1)), [SendCell(to, cell)])
      else if |s.mix| >= MaxQueue(c.lineSize) then (s.(books := asked.(shed := asked.shed + 1)), [])
      else
        var id := s.mixSeq + 1;
        (s.(mixSeq := id, mix := s.mix[id := Queued(to, cell)], books := asked), [Arm(MixToken(id))])
  }

  /** Queue for a slot, shedding the oldest cell of a full outbox, and start the schedule if it is not running. */
  function Enqueue(c: Config, s: State, q: Queued): (State, seq<Effect>) {
    var full := |s.outbox| >= MaxQueue(c.lineSize) && s.outbox != [];
    var room := if full then s.outbox[1..] else s.outbox;
    var s1 := s.(outbox := room + [q],
                 books := s.books.(forwarded := s.books.forwarded + 1, shed := s.books.shed + if full then 1 else 0));
    StartCover(c, s1)
  }

  /** Multicast a dead-drop body to the members of `line`, one forward each; our own copy stays here. */
  function DeadDrop(c: Config, s: State, line: Coord, body: Bytes, members: seq<Coord>): (State, seq<Effect>) {
    if members == [] then (s, [])
    else
      var k := |members| - 1;
      var (s1, before) := DeadDrop(c, s, line, body, members[..k]);
      if members[k] == c.me then (s1, before + [Notify(body)])
      else if |body| + 4 > OnionLen(c.lineSize) then (s1, before)
      else
        var (s2, now) := ForwardSend(c, s1, members[k], DropCell(line, body));
        (s2, before + now)
  }

  // ----- Gathers -----

  /** Whether a packet is new, and the replay set once it is remembered. */
  function Admit(s: State, tag: nat): (State, bool) {
    if tag in s.replaySeen then (s, false)
    else
      var order := s.replayOrder + [tag];
      var seen := s.replaySeen + {tag};
      if |order| > MAX_REPLAY_TAGS then (s.(replayOrder := order[1..], replaySeen := seen - {order[0]}), true)
      else (s.(replayOrder := order, replaySeen := seen), true)
  }

  function Remember(c: Config, resolved: seq<(nat, Outcome)>, id: nat, how: Outcome): seq<(nat, Outcome)> {
    (if |resolved| >= MaxPending(c.lineSize) && resolved != [] then resolved[1..] else resolved) + [(id, how)]
  }

  function PeelWith(c: Config, onion: Bytes): seq<Share> -> Option<Peeled> {
    (shares: seq<Share>) => c.peel(onion, shares)
  }

  /** The outcome of a pending gather's shares, if some candidate peels. */
  function Peels(c: Config, p: Pending): Option<Peeled> {
    if |p.shares| < c.threshold then None else BestSubset(PeelWith(c, p.onion), p.shares, c.threshold)
  }

  /** Act on a peeled hop. */
  function ActOn(c: Config, s: State, line: Coord, peeled: Peeled): (State, seq<Effect>) {
    match peeled
    case Deliver(payload, holonomy) =>
      if !c.verified(holonomy) then (s, [])
      else
        (match c.deaddrop(payload)
         case Some(body) => DeadDrop(c, s, line, body, c.members(line))
         case None => (s, [Notify(payload)]))
    case Forward(next, onion) =>
      var padded := Padded(c, onion);
      match Gatherer(c, next, padded)
      case None => (s, [])
      case Some(to) => ForwardSend(c, s, to, OnionCell(next, padded))
  }

  /** Resolve gather `id` as peeled. */
  function Complete(c: Config, s: State, id: nat, peeled: Peeled): State {
    s.(pending := s.pending - {id}, resolved := Remember(c, s.resolved, id, ByPeel),
       books := s.books.(closed := s.books.closed + [(id, Completed(peeled))]))
  }

  function TryPeel(c: Config, s: State, id: nat): (State, Option<seq<Effect>>) {
    if id !in s.pending then (s, None)
    else
      match Peels(c, s.pending[id])
      case None => (s, None)
      case Some(peeled) =>
        var (s', effects) := ActOn(c, Complete(c, s, id, peeled), s.pending[id].line, peeled);
        (s', Some(effects))
  }

  /** Ask every other member of the line for its share. */
  function Requests(c: Config, id: nat, line: Coord, onion: Bytes, members: seq<Coord>): seq<Effect> {
    if members == [] then []
    else
      var k := |members| - 1;
      Requests(c, id, line, onion, members[..k]) + if members[k] == c.me then [] else [SendRequest(members[k], id, line, onion)]
  }

  function OwnShares(c: Config, epoch: nat, line: Coord, onion: Bytes): seq<Share> {
    match IndexOf(c.members(line), c.me)
    case None => []
    case Some(i) => match c.partial(epoch, onion, i) case None => [] case Some(share) => [share]
  }

  /** Drop the oldest gather when the table is full. */
  ghost function MakeRoom(c: Config, s: State): State {
    if |s.pending| >= MaxPending(c.lineSize) && s.pending != map[] then
      var oldest := LeastNumber.Least(s.pending.Keys);
      s.(pending := s.pending - {oldest}, books := s.books.(closed := s.books.closed + [(oldest, Evicted)]))
    else s
  }

  /** Open a gather for an admitted onion. */
  ghost function OpenGather(c: Config, s: State, line: Coord, onion: Bytes): State {
    var p := Pending(onion, OwnShares(c, s.epoch, line, onion), |c.members(line)|, line);
    var roomy := MakeRoom(c, s);
    roomy.(pending := roomy.pending[s.nextId := p], nextId := s.nextId + 1)
  }

  ghost function OnOnion(c: Config, s: State, line: Coord, onion: Bytes): (State, seq<Effect>) {
    var (s1, isNew) := Admit(s, c.tag(onion));
    if !isNew then (s1, [])
    else
      var id := s1.nextId;
      var s2 := OpenGather(c, s1, line, onion);
      var requests := Requests(c, id, line, onion, c.members(line));
      var (s3, done) := TryPeel(c, s2, id);
      (s3, requests + if done.Some? then done.value else [Arm(GatherToken(id))])
  }

  function OnRequest(c: Config, s: State, id: nat, combiner: Coord, line: Coord, onion: Bytes): seq<Effect> {
    match IndexOf(c.members(line), c.me)
    case None => []
    case Some(i) =>
      match c.partial(s.epoch, onion, i)
      case None => [SendReply(combiner, id, c.decoy(i, id, line))]
      case Some(share) => [SendReply(combiner, id, share)]
  }

  /** Whether a pending gather takes a share as a further candidate. */
  predicate Takes(p: Pending, share: Share) {
    && 0 < share.x <= p.memberCount
    && share !in p.shares
    && |p.shares| < MAX_CANDIDATES
  }

  function OnReply(c: Config, s: State, id: nat, share: Share): (State, seq<Effect>) {
    if id !in s.pending || !Takes(s.pending[id], share) then (s, [])
    else
      var p := s.pending[id];
      var s1 := s.(pending := s.pending[id := p.(shares := p.shares + [share])]);
      var (s2, done) := TryPeel(c, s1, id);
      (s2, if done.Some? then done.value else [])
  }

  function OnDeadline(c: Config, s: State, id: nat): State {
    if id !in s.pending then s
    else
      s.(pending := s.pending - {id}, resolved := Remember(c, s.resolved, id, ByDeadline),
         books := s.books.(closed := s.books.closed +
           [(id, if |s.pending[id].shares| < c.threshold then Expired else Unpeelable)]))
  }

  ghost function Step(c: Config, s: State, input: Input): (State, seq<Effect>) {
    match input
    case OnionFrame(line, onion) =>
      if |onion| != OnionLen(c.lineSize) then (s, []) else OnOnion(c, s, line, onion)
    case RequestFrame(id, combiner, line, onion) =>
      (s, if |onion| != OnionLen(c.lineSize) then [] else OnRequest(c, s, id, combiner, line, onion))
    case ReplyFrame(id, share) =>
      if 1 + |share.y| != SHARE_LEN then (s, []) else OnReply(c, s, id, share)
    case DropFrame(line, region, body) =>
      (s, if |region| != OnionLen(c.lineSize) || body.None? || c.me !in c.members(line) then [] else [Notify(body.value)])
    case Undecodable => (s, [])
    case Timer(CoverToken) => EmitCover(c, s)
    case Timer(MixToken(id)) =>
      if id !in s.mix then (s, [])
      else
        (s.(mix := s.mix - {id}, books := s.books.(released := s.books.released + 1)),
         [SendCell(s.mix[id].to, s.mix[id].cell)])
    case Timer(GatherToken(id)) => (OnDeadline(c, s, id), [])
    case Launch(to, frame) => (s, [SendRaw(to, frame)])
    case StartHeartbeat => StartCover(c, s)
    case AdvanceEpoch => (s.(epoch := s.epoch + 1), [])
    case OtherCommand => (s, [])
  }

  /** The state after a run of inputs. */
  ghost function After(c: Config, run: seq<Input>): State {
    if run == [] then INITIAL else Step(c, After(c, run[..|run| - 1]), run[|run| - 1]).0
  }

  /** What the `i`-th input of a run made the router emit. */
  ghost function Emitted(c: Config, run: seq<Input>, i: nat): seq<Effect>
    requires i < |run|
  {
    Step(c, After(c, run[..i]), run[i]).1
  }

  // ----- The engine -----

  class ThresholdRouter {
    const c: Config
    var pending: map<nat, Pending>
    var resolved: seq<(nat, Outcome)>
    var nextId: nat
    var mix: map<nat, Queued>
    var mixSeq: nat
    var replaySeen: set<nat>
    var replayOrder: seq<nat>
    var covering: bool
    var coverSeq: nat
    var outbox: seq<Queued>
    var epoch: nat
    ghost var books: Books

    ghost function View(): State
      reads this
    {
      State(pending, resolved, nextId, mix, mixSeq, replaySeen, replayOrder, covering, coverSeq, outbox, epoch, books)
    }

    constructor (c: Config)
      ensures View() == INITIAL && this.c == c
    {
      this.c := c;
      pending, resolved, nextId := map[], [], 0;
      mix, mixSeq := map[], 0;
      replaySeen, replayOrder := {}, [];
      covering, coverSeq, outbox := false, 0, [];
      epoch := 0;
      books := NO_BOOKS;
    }

    method BeginCover() returns (effects: seq<Effect>)
      modifies this
      ensures (View(), effects) == StartCover(c, old(View()))
    {
      if c.coverInterval == 0 || covering { return []; }
      covering := true;
      coverSeq := coverSeq + 1;
      return [Arm(CoverToken)];
    }

    method TakeCell() returns (effects: seq<Effect>)
      modifies this
      ensures (View(), effects) == SlotCell(c, old(View()))
    {
      coverSeq := coverSeq + 1;
      if outbox == [] {
        var line := if c.lines == [] then 0 else c.lines[Draw(c, coverSeq, |c.lines|)];
        coverSeq := coverSeq + 1;
        var cell := c.keystream(coverSeq);
        var to := Gatherer(c, line, cell);
        return if to.Some? then [SendCell(to.value, OnionCell(line, cell))] else [];
      }
      var i := Draw(c, coverSeq, |outbox|);
      effects := [SendCell(outbox[i].to, outbox[i].cell)];
      outbox := outbox[..i] + outbox[i + 1..];
      books := books.(released := books.released + 1);
    }

    method Slot() returns (effects: seq<Effect>)
      modifies this
      ensures (View(), effects) == EmitCover(c, old(View()))
    {
      hide SlotCell;
      effects := TakeCell();
      if covering && c.coverInterval > 0 {
        coverSeq := coverSeq + 1;
        effects := effects + [Arm(CoverToken)];
      }
    }

    method Send(to: Coord, cell: Cell) returns (effects: seq<Effect>)
      modifies this
      ensures (View(), effects) == ForwardSend(c, old(View()), to, cell)
    {
      if c.coverInterval != 0 {
        books := books.(forwarded := books.forwarded + 1);
        if |outbox| >= MaxQueue(c.lineSize) && outbox != [] {
          outbox := outbox[1..];
          books := books.(shed := books.shed + 1);
        }
        outbox := outbox + [Queued(to, cell)];
        effects := BeginCover();
        return;
      }
      books := books.(forwarded := books.forwarded + 1);
      if c.meanDelay == 0 {
        books := books.(released := books.released + 1);
        return [SendCell(to, cell)];
      }
      if |mix| >= MaxQueue(c.lineSize) {
        books := books.(shed := books.shed + 1);
        return [];
      }
      mixSeq := mixSeq + 1;
      mix := mix[mixSeq := Queued(to, cell)];
      return [Arm(MixToken(mixSeq))];
    }

    method Multicast(line: Coord, body: Bytes) returns (effects: seq<Effect>)
      modifies this
      ensures (View(), effects) == DeadDrop(c, old(View()), line, body, c.members(line))
    {
      var members := c.members(line);
      effects := [];
      for k := 0 to |members|
        invariant (View(), effects) == DeadDrop(c, old(View()), line, body, members[..k])
      {
        assert members[..k + 1][..k] == members[..k];
        if members[k] == c.me {
          effects := effects + [Notify(body)];
        } else if |body| + 4 <= OnionLen(c.lineSize) {
          var more := Send(members[k], DropCell(line, body));
          effects := effects + more;
        }
      }
      assert members[..|members|] == members;
    }

    method AdmitOnion(onion: Bytes) returns (isNew: bool)
      modifies this
      ensures (View(), isNew) == Admit(old(View()), c.tag(onion))
    {
      var tag := c.tag(onion);
      if tag in replaySeen { return false; }
      replaySeen := replaySeen + {tag};
      replayOrder := replayOrder + [tag];
      if |replayOrder| > MAX_REPLAY_TAGS {
        var oldest := replayOrder[0];
        replayOrder := replayOrder[1..];
        replaySeen := replaySeen - {oldest};
      }
      return true;
    }

    method PeelNow(id: nat) returns (done: Option<seq<Effect>>)
      modifies this
      ensures (View(), done) == TryPeel(c, old(View()), id)
    {
      if id !in pending { return None; }
      var p := pending[id];
      if |p.shares| < c.threshold { return None; }
      var peeled := PeelBestSubset(PeelWith(c, p.onion), p.shares, c.threshold);
      if peeled.None? { return None; }
      pending := pending - {id};
      resolved := Remember(c, resolved, id, ByPeel);
      books := books.(closed := books.closed + [(id, Completed(peeled.value))]);
      var effects := [];
      match peeled.value {
        case Deliver(payload, holonomy) =>
          if c.verified(holonomy) {
            var body := c.deaddrop(payload);
            if body.Some? { effects := Multicast(p.line, body.value); } else { effects := [Notify(payload)]; }
          }
        case Forward(next, onion) =>
          var padded := Padded(c, onion);
          var to := Gatherer(c, next, padded);
          if to.Some? { effects := Send(to.value, OnionCell(next, padded)); }
      }
      return Some(effects);
    }

    method ReceiveOnion(line: Coord, onion: Bytes) returns (effects: seq<Effect>)
      modifies this
      ensures (View(), effects) == OnOnion(c, old(View()), line, onion)
    {
      hide Admit, MakeRoom, TryPeel, Requests, OwnShares;
      var isNew := AdmitOnion(onion);
      if !isNew { return []; }
      ghost var admitted := View();
      var id := nextId;
      var p := Pending(onion, OwnShares(c, epoch, line, onion), |c.members(line)|, line);
      effects := Requests(c, id, line, onion, c.members(line));
      EvictIfFull();
      pending := pending[id := p];
      nextId := id + 1;
      assert View() == OpenGather(c, admitted, line, onion);
      var done := PeelNow(id);
      effects := effects + if done.Some? then done.value else [Arm(GatherToken(id))];
    }

    method EvictIfFull()
      modifies this
      ensures View() == MakeRoom(c, old(View()))
    {
      if |pending| >= MaxPending(c.lineSize) && pending != map[] {
        var oldest := LeastNumber.FindLeast(pending.Keys);
        pending := pending - {oldest};
        books := books.(closed := books.closed + [(oldest, Evicted)]);
      }
    }

    method ReceiveReply(id: nat, share: Share) returns (effects: seq<Effect>)
      modifies this
      ensures (View(), effects) == OnReply(c, old(View()), id, share)
    {
      if id !in pending || !Takes(pending[id], share) { return []; }
      var p := pending[id];
      pending := pending[id := p.(shares := p.shares + [share])];
      var done := PeelNow(id);
      return if done.Some? then done.value else [];
    }

    method Deadline(id: nat)
      modifies this
      ensures View() == OnDeadline(c, old(View()), id)
    {
      if id !in pending { return; }
      books := books.(closed := books.closed +
        [(id, if |pending[id].shares| < c.threshold then Expired else Unpeelable)]);
      pending := pending - {id};
      resolved := Remember(c, resolved, id, ByDeadline);
    }

    method Handle(input: Input) returns (effects: seq<Effect>)
      modifies this
      ensures (View(), effects) == Step(c, old(View()), input)
    {
      effects := [];
      match input
      case OnionFrame(line, onion) =>
        if |onion| == OnionLen(c.lineSize) { effects := ReceiveOnion(line, onion); }
      case RequestFrame(id, combiner, line, onion) =>
        if |onion| == OnionLen(c.lineSize) { effects := Answer(id, combiner, line, onion); }
      case ReplyFrame(id, share) =>
        if 1 + |share.y| == SHARE_LEN { effects := ReceiveReply(id, share); }
      case DropFrame(line, region, body) =>
        if |region| == OnionLen(c.lineSize) && body.Some? && c.me in c.members(line) { effects := [Notify(body.value)]; }
      case Undecodable =>
      case Timer(CoverToken) => effects := Slot();
      case Timer(MixToken(id)) =>
        if id in mix {
          effects := [SendCell(mix[id].to, mix[id].cell)];
          mix := mix - {id};
          books := books.(released := books.released + 1);
        }
      case Timer(GatherToken(id)) => Deadline(id);
      case Launch(to, frame) => effects := [SendRaw(to, frame)];
      case StartHeartbeat => effects := BeginCover();
      case AdvanceEpoch => epoch := epoch + 1;
      case OtherCommand =>
    }

    /** A share request is answered with the share, or with a decoy of the same width. */
    method Answer(id: nat, combiner: Coord, line: Coord, onion: Bytes) returns (effects: seq<Effect>)
      ensures effects == OnRequest(c, View(), id, combiner, line, onion)
    {
      var i := IndexOf(c.members(line), c.me);
      if i.None? { return []; }
      var share := c.partial(epoch, onion, i.value);
      return [SendReply(combiner, id, if share.Some? then share.value else c.decoy(i.value, id, line))];
    }
  }
}
