/**
 What the router sends over every run: with cover on, its cells leave on the schedule and nothing else does; off it
 there are only launches, requests for a new onion and replies to requests.
 */
module EmissionRuns {
  import opened Symbolic
  import opened PeelSearch
  import opened Budget
  import opened Router
  import opened GatherRuns
  import ReplayRuns
  import Octets

  /** The widths of a peeled packet, a share, padding and a cover cell, and cover lines that have members. */
  ghost predicate ValidConfig(c: Config) {
    && (forall onion, shares, next, peeled ::
          c.peel(onion, shares) == Some(Forward(next, peeled)) ==> |peeled| <= OnionLen(c.lineSize))
    && (forall onion, n :: |c.pad(onion, n)| == n)
    && (forall counter :: |c.keystream(counter)| == OnionLen(c.lineSize))
    && (forall epoch, onion, i :: c.partial(epoch, onion, i).Some? ==> 1 + |c.partial(epoch, onion, i).value.y| == SHARE_LEN)
    && (forall i, id, line :: 1 + |c.decoy(i, id, line).y| == SHARE_LEN)
    && (c.lines == [] ==> c.members(0) != [])
    && (forall i :: 0 <= i < |c.lines| ==> c.members(c.lines[i]) != [])
  }

  /** The laws are consistent, on every plane and with cover on. */
  lemma {:induction false} ValidConfigsExist(lineSize: nat) returns (c: Config)
    ensures ValidConfig(c) && c.lineSize == lineSize && c.coverInterval != 0
    ensures c.threshold == 1 && c.members(0) == [c.me] && forall onion :: c.partial(0, onion, 0).None?
  {
    var width := OnionLen(lineSize);
    c := Config(0, 1, lineSize, 1, 0, [], line => [0], (epoch, onion, i) => None,
                (i, id, line) => Share(1, Octets.Zeros(32)), (onion, shares) => None, onion => 0, (line, salt) => 0,
                tag => true, payload => None, (onion, n: nat) => Octets.Zeros(n), (counter, n) => 0,
                counter => Octets.Zeros(width));
  }

  /** A cell as it is queued: an onion of the bucket's width, or a dead-drop body that its bucket holds. */
  predicate Sized(c: Config, cell: Cell) {
    match cell
    case OnionCell(_, onion) => |onion| == OnionLen(c.lineSize)
    case DropCell(_, body) => |body| + 4 <= OnionLen(c.lineSize)
  }

  /** A cell on its way: of its width, and to a member of the line it is for. */
  predicate Routed(c: Config, q: Queued) { Sized(c, q.cell) && q.to in c.members(q.cell.line) }

  /** Every cell among the effects is routed so. */
  predicate AllRouted(c: Config, effects: seq<Effect>) {
    forall i :: 0 <= i < |effects| && effects[i].SendCell? ==> Routed(c, Queued(effects[i].to, effects[i].cell))
  }

  /** The width of a cell's frame; a dead-drop body is padded to the bucket. */
  function FrameWidth(c: Config, cell: Cell): nat {
    match cell
    case OnionCell(_, onion) => CELL_OVERHEAD + |onion|
    case DropCell(_, _) => CELL_OVERHEAD + OnionLen(c.lineSize)
  }

  /** `tag(1) || id(8) || combiner(12) || line(12)` before a request's onion, and `tag(1) || id(8)` before a share. */
  const REQUEST_OVERHEAD: nat := 33
  const REPLY_OVERHEAD: nat := 9

  /** The frame an effect puts on the wire, by its width. */
  function Wire(c: Config, effect: Effect): seq<nat> {
    match effect
    case SendCell(_, cell) => [FrameWidth(c, cell)]
    case SendRequest(_, _, _, onion) => [REQUEST_OVERHEAD + |onion|]
    case SendReply(_, _, share) => [REPLY_OVERHEAD + 1 + |share.y|]
    case SendRaw(_, frame) => [|frame|]
    case Arm(_) => []
    case Notify(_) => []
  }

  /** The widths of all the frames among the effects, in order. */
  function Widths(c: Config, effects: seq<Effect>): seq<nat> {
    if effects == [] then [] else Widths(c, effects[..|effects| - 1]) + Wire(c, effects[|effects| - 1])
  }

  /** The cover timers armed by the effects. */
  function Armed(effects: seq<Effect>): nat {
    if effects == [] then 0
    else Armed(effects[..|effects| - 1]) + if effects[|effects| - 1] == Arm(CoverToken) then 1 else 0
  }

  lemma {:induction false} WidthsOfSum(c: Config, a: seq<Effect>, b: seq<Effect>)
    ensures Widths(c, a + b) == Widths(c, a) + Widths(c, b)
    ensures Armed(a + b) == Armed(a) + Armed(b)
    decreases |b|
  {
    hide Wire;
    if b == [] {
      assert a + b == a;
    } else {
      assert (a + b)[..|a + b| - 1] == a + b[..|b| - 1];
      WidthsOfSum(c, a, b[..|b| - 1]);
    }
  }

  lemma {:induction false} WidthsOfOne(c: Config, effect: Effect)
    ensures Widths(c, [effect]) == Wire(c, effect)
    ensures Armed([effect]) == if effect == Arm(CoverToken) then 1 else 0
    ensures Widths(c, []) == [] && Armed([]) == 0
  {
    assert [effect][..0] == [];
  }

  // ----- The queues -----

  function AtLeastOne(n: nat): nat { if n == 0 then 1 else n }

  ghost predicate QueuesFit(c: Config, s: State) {
    && (forall i :: 0 <= i < |s.outbox| ==> Routed(c, s.outbox[i]))
    && (forall id :: id in s.mix ==> id <= s.mixSeq && Routed(c, s.mix[id]))
    && |s.outbox| <= AtLeastOne(MaxQueue(c.lineSize))
    && |s.mix| <= MaxQueue(c.lineSize)
    && (c.coverInterval == 0 ==> s.outbox == [])
    && (c.coverInterval != 0 ==> s.mix == map[])
    && s.books.forwarded == s.books.released + |s.outbox| + |s.mix| + s.books.shed
  }

  function Timers(s: State): (n: nat)
    ensures n <= 1
  {
    if s.covering then 1 else 0
  }

  /**
   A change that keeps the queues in order, sends cells only to their lines and, with cover on, puts exactly frames of
   these widths on the wire and arms a cover timer only when the schedule starts.
   */
  ghost predicate Emits(c: Config, s: State, after: (State, seq<Effect>), widths: seq<nat>) {
    && QueuesFit(c, after.0) && AllRouted(c, after.1)
    && (c.coverInterval != 0 ==> Widths(c, after.1) == widths && Armed(after.1) + Timers(s) == Timers(after.0))
  }

  ghost predicate Quiet(c: Config, s: State, after: (State, seq<Effect>)) { Emits(c, s, after, []) }

  lemma {:induction false} QuietSteps(c: Config, s: State, first: (State, seq<Effect>), then2: (State, seq<Effect>))
    requires Quiet(c, s, first) && Quiet(c, first.0, then2)
    ensures Quiet(c, s, (then2.0, first.1 + then2.1))
  {
    hide QueuesFit;
    WidthsOfSum(c, first.1, then2.1);
  }

  lemma {:induction false} QuietNothing(c: Config, s: State)
    requires QueuesFit(c, s)
    ensures Quiet(c, s, (s, []))
    ensures forall payload :: Quiet(c, s, (s, [Notify(payload)]))
  {
    hide QueuesFit;
    forall payload
      ensures Quiet(c, s, (s, [Notify(payload)]))
    {
      WidthsOfOne(c, Notify(payload));
    }
  }

  lemma {:induction false} StartIsQuiet(c: Config, s: State)
    requires QueuesFit(c, s)
    ensures Quiet(c, s, StartCover(c, s))
  {
    WidthsOfOne(c, Arm(CoverToken));
  }

  lemma {:induction false} EnqueueIsQuiet(c: Config, s: State, q: Queued)
    requires QueuesFit(c, s) && Routed(c, q) && c.coverInterval != 0
    ensures Quiet(c, s, Enqueue(c, s, q))
  {
    hide StartCover, MaxQueue, Widths, Armed, Routed, AllRouted;
    var full := |s.outbox| >= MaxQueue(c.lineSize) && s.outbox != [];
    var room := if full then s.outbox[1..] else s.outbox;
    var s1 := s.(outbox := room + [q],
                 books := s.books.(forwarded := s.books.forwarded + 1, shed := s.books.shed + if full then 1 else 0));
    assert QueuesFit(c, s1);
    StartIsQuiet(c, s1);
  }

  lemma {:induction false} SendIsQuiet(c: Config, s: State, to: Coord, cell: Cell)
    requires QueuesFit(c, s) && Routed(c, Queued(to, cell))
    ensures Quiet(c, s, ForwardSend(c, s, to, cell))
  {
    hide Enqueue, MaxQueue, Routed, Widths, Armed, QueuesFit, Timers;
    if c.coverInterval != 0 {
      EnqueueIsQuiet(c, s, Queued(to, cell));
    } else {
      UncoveredFits(c, s, to, cell);
    }
  }

  lemma {:induction false} UncoveredFits(c: Config, s: State, to: Coord, cell: Cell)
    requires QueuesFit(c, s) && Routed(c, Queued(to, cell)) && c.coverInterval == 0
    ensures QueuesFit(c, ForwardSend(c, s, to, cell).0)
  {
    hide Enqueue, MaxQueue, Routed;
    if c.meanDelay != 0 && |s.mix| < MaxQueue(c.lineSize) { MixGrows(s.mix, s.mixSeq + 1, Queued(to, cell)); }
  }

  lemma {:induction false} MixGrows(mix: map<nat, Queued>, id: nat, q: Queued)
    requires id !in mix
    ensures |mix[id := q]| == |mix| + 1
  {
    assert mix[id := q].Keys == mix.Keys + {id};
    assert |mix[id := q]| == |mix[id := q].Keys| && |mix| == |mix.Keys|;
  }

  lemma {:induction false} DropIsQuiet(c: Config, s: State, line: Coord, body: Bytes, members: seq<Coord>)
    requires QueuesFit(c, s) && forall m :: m in members ==> m in c.members(line)
    ensures Quiet(c, s, DeadDrop(c, s, line, body, members))
  {
    hide ForwardSend, QueuesFit, Widths, Armed, Timers, AllRouted;
    QuietNothing(c, s);
    if members != [] {
      var k := |members| - 1;
      var before := DeadDrop(c, s, line, body, members[..k]);
      DropIsQuiet(c, s, line, body, members[..k]);
      QuietNothing(c, before.0);
      if members[k] == c.me {
        QuietSteps(c, s, before, (before.0, [Notify(body)]));
      } else if |body| + 4 <= OnionLen(c.lineSize) {
        SendIsQuiet(c, before.0, members[k], DropCell(line, body));
        QuietSteps(c, s, before, ForwardSend(c, before.0, members[k], DropCell(line, body)));
      }
    }
  }

  lemma {:induction false} ActIsQuiet(c: Config, s: State, line: Coord, peeled: Peeled)
    requires ValidConfig(c) && QueuesFit(c, s)
    requires peeled.Forward? ==> |peeled.onion| <= OnionLen(c.lineSize)
    ensures Quiet(c, s, ActOn(c, s, line, peeled))
  {
    hide ForwardSend, DeadDrop, QueuesFit, Quiet, Gatherer;
    QuietNothing(c, s);
    match peeled
    case Deliver(payload, holonomy) =>
      var body := c.deaddrop(payload);
      if body.Some? { DropIsQuiet(c, s, line, body.value, c.members(line)); }
    case Forward(next, onion) =>
      var padded := Padded(c, onion);
      var to := Gatherer(c, next, padded);
      GathererIsAMember(c, next, padded);
      if to.Some? { SendIsQuiet(c, s, to.value, OnionCell(next, padded)); }
  }

  lemma {:induction false} GathererIsAMember(c: Config, line: Coord, salt: Bytes)
    ensures Gatherer(c, line, salt).Some? ==> Gatherer(c, line, salt).value in c.members(line)
    ensures Gatherer(c, line, salt).None? <==> c.members(line) == []
  {
  }

  lemma {:induction false} PeeledFits(c: Config, p: Pending)
    requires ValidConfig(c) && Peels(c, p).Some? && Peels(c, p).value.Forward?
    ensures |Peels(c, p).value.onion| <= OnionLen(c.lineSize)
  {
    hide Search, Candidates;
    SearchIsExact(PeelWith(c, p.onion), p.shares, c.threshold);
  }

  predicate SameQueues(s: State, t: State) {
    && s.mix == t.mix && s.mixSeq == t.mixSeq && s.outbox == t.outbox && s.covering == t.covering
    && s.books.(closed := []) == t.books.(closed := [])
  }

  lemma {:induction false} SameQueuesFit(c: Config, s: State, t: State)
    requires SameQueues(s, t) && QueuesFit(c, s)
    ensures QueuesFit(c, t) && Timers(s) == Timers(t)
  {
    hide Routed, MaxQueue;
    assert s.books.(closed := []).forwarded == t.books.(closed := []).forwarded;
    assert s.books.(closed := []).released == t.books.(closed := []).released;
    assert s.books.(closed := []).shed == t.books.(closed := []).shed;
  }

  lemma {:induction false} PeelIsQuiet(c: Config, s: State, id: nat)
    requires ValidConfig(c) && QueuesFit(c, s) && id in s.pending
    ensures var (t, done) := TryPeel(c, s, id);
            Quiet(c, s, (t, if done.Some? then done.value else []))
  {
    hide ActOn, QueuesFit, Widths, Armed, Peels, ValidConfig, Remember, Timers;
    QuietNothing(c, s);
    match Peels(c, s.pending[id])
    case None =>
    case Some(peeled) =>
      if peeled.Forward? { PeeledFits(c, s.pending[id]); }
      var s1 := Complete(c, s, id, peeled);
      SameQueuesFit(c, s, s1);
      ActIsQuiet(c, s1, s.pending[id].line, peeled);
  }

  /** How many members of a line are not us. */
  function Others(c: Config, members: seq<Coord>): nat {
    if members == [] then 0 else Others(c, members[..|members| - 1]) + if members[|members| - 1] == c.me then 0 else 1
  }

  function Copies(width: nat, n: nat): seq<nat> { if n == 0 then [] else Copies(width, n - 1) + [width] }

  lemma {:induction false} RequestWidths(c: Config, id: nat, line: Coord, onion: Bytes, members: seq<Coord>)
    ensures var requests := Requests(c, id, line, onion, members);
            && Widths(c, requests) == Copies(REQUEST_OVERHEAD + |onion|, Others(c, members))
            && Armed(requests) == 0 && AllRouted(c, requests)
  {
    hide Widths, Armed;
    if members == [] {
      WidthsOfOne(c, Arm(CoverToken));
    } else {
      var k := |members| - 1;
      RequestWidths(c, id, line, onion, members[..k]);
      WidthsOfOne(c, SendRequest(members[k], id, line, onion));
      var before := Requests(c, id, line, onion, members[..k]);
      WidthsOfSum(c, before, [SendRequest(members[k], id, line, onion)]);
      assert before + [] == before;
    }
  }

  lemma {:induction false} OpeningKeepsQueues(c: Config, s: State, line: Coord, onion: Bytes)
    ensures SameQueues(s, OpenGather(c, s, line, onion)) && SameQueues(s, Admit(s, c.tag(onion)).0)
  {
    hide MaxPending, OwnShares;
  }

  /** An admitted onion puts one request for each other member of its line on the wire; a replay nothing. */
  function Asked(c: Config, line: Coord, isNew: bool): seq<nat> {
    if isNew then Copies(REQUEST_OVERHEAD + OnionLen(c.lineSize), Others(c, c.members(line))) else []
  }

  lemma {:induction false} OnionAsks(c: Config, s: State, line: Coord, onion: Bytes)
    requires ValidConfig(c) && QueuesFit(c, s) && |onion| == OnionLen(c.lineSize)
    ensures Emits(c, s, OnOnion(c, s, line, onion), Asked(c, line, Admit(s, c.tag(onion)).1))
  {
    hide QueuesFit, Widths, Armed, ValidConfig, OpenGather, TryPeel, Requests, Admit, Timers, Others, Copies, AllRouted;
    var (s1, isNew) := Admit(s, c.tag(onion));
    OpeningKeepsQueues(c, s, line, onion);
    OpeningKeepsQueues(c, s1, line, onion);
    SameQueuesFit(c, s, s1);
    QuietNothing(c, s1);
    if isNew {
      var s2 := OpenGather(c, s1, line, onion);
      SameQueuesFit(c, s1, s2);
      assert s1.nextId in s2.pending by { Opens(c, s1, line, onion); }
      PeelIsQuiet(c, s2, s1.nextId);
      RequestWidths(c, s1.nextId, line, onion, c.members(line));
      var (s3, done) := TryPeel(c, s2, s1.nextId);
      WidthsOfOne(c, Arm(GatherToken(s1.nextId)));
      var rest := if done.Some? then done.value else [Arm(GatherToken(s1.nextId))];
      WidthsOfSum(c, Requests(c, s1.nextId, line, onion, c.members(line)), rest);
      RoutedSum(c, Requests(c, s1.nextId, line, onion, c.members(line)), rest);
      RoutedArm(c, GatherToken(s1.nextId));
      assert Asked(c, line, true) + [] == Asked(c, line, true);
    }
  }

  lemma {:induction false} RoutedSum(c: Config, a: seq<Effect>, b: seq<Effect>)
    ensures AllRouted(c, a) && AllRouted(c, b) ==> AllRouted(c, a + b)
  {
    hide Routed;
  }

  lemma {:induction false} RoutedArm(c: Config, token: Token)
    ensures AllRouted(c, [Arm(token)])
  {
  }

  lemma {:induction false} Opens(c: Config, s: State, line: Coord, onion: Bytes)
    ensures s.nextId in OpenGather(c, s, line, onion).pending
  {
    hide MakeRoom, OwnShares;
  }

  lemma {:induction false} ReplyIsQuiet(c: Config, s: State, id: nat, share: Share)
    requires ValidConfig(c) && QueuesFit(c, s)
    ensures Quiet(c, s, OnReply(c, s, id, share))
  {
    hide QueuesFit, Widths, Armed, ValidConfig, TryPeel, Takes, Timers;
    QuietNothing(c, s);
    if id in s.pending && Takes(s.pending[id], share) {
      var s1 := s.(pending := s.pending[id := s.pending[id].(shares := s.pending[id].shares + [share])]);
      SameQueuesFit(c, s, s1);
      PeelIsQuiet(c, s1, id);
    }
  }

  lemma {:induction false} RequestIsAnswered(c: Config, s: State, id: nat, combiner: Coord, line: Coord, onion: Bytes)
    requires ValidConfig(c) && QueuesFit(c, s)
    ensures Emits(c, s, (s, OnRequest(c, s, id, combiner, line, onion)),
                  if c.me in c.members(line) then [REPLY_OVERHEAD + SHARE_LEN] else [])
  {
    hide QueuesFit, Widths, Armed, IndexOf;
    WidthsOfOne(c, Arm(CoverToken));
    var effects := OnRequest(c, s, id, combiner, line, onion);
    if c.me in c.members(line) {
      var i := IndexOf(c.members(line), c.me).value;
      var share := c.partial(s.epoch, onion, i);
      assert share.Some? ==> 1 + |share.value.y| == SHARE_LEN;
      assert effects == [effects[0]];
      WidthsOfOne(c, effects[0]);
    }
  }

  lemma {:induction false} MixTimer(c: Config, s: State, id: nat)
    requires QueuesFit(c, s)
    ensures Quiet(c, s, Step(c, s, Timer(MixToken(id))))
  {
    hide Widths, Armed, Routed, MaxQueue;
    WidthsOfOne(c, Arm(CoverToken));
    if id in s.mix {
      assert (s.mix - {id}).Keys == s.mix.Keys - {id};
      assert |s.mix - {id}| == |(s.mix - {id}).Keys| && |s.mix| == |s.mix.Keys|;
    }
  }

  predicate IsTick(input: Input) { input == Timer(CoverToken) }

  /** What an input puts on the wire with cover on, given whether the filter admits its onion. */
  function OnTheWire(c: Config, input: Input, isNew: bool): seq<nat> {
    match input
    case Timer(CoverToken) => [CELL_OVERHEAD + OnionLen(c.lineSize)]
    case Launch(_, frame) => [|frame|]
    case OnionFrame(line, onion) => if |onion| == OnionLen(c.lineSize) then Asked(c, line, isNew) else []
    case RequestFrame(_, _, line, onion) =>
      if |onion| == OnionLen(c.lineSize) && c.me in c.members(line) then [REPLY_OVERHEAD + SHARE_LEN] else []
    case _ => []
  }

  predicate IsNew(s: State, c: Config, input: Input) { input.OnionFrame? && Admit(s, c.tag(input.onion)).1 }

  /** Off the schedule there are only launches, the requests for a new onion, and one reply to each request. */
  lemma {:induction false} OffTheSchedule(c: Config, s: State, input: Input)
    requires ValidConfig(c) && QueuesFit(c, s) && !IsTick(input)
    ensures Emits(c, s, Step(c, s, input), OnTheWire(c, input, IsNew(s, c, input)))
  {
    hide QueuesFit, Emits, ValidConfig, OnOnion, OnReply, OnRequest, StartCover, Remember, EmitCover, OnDeadline, Asked, Admit;
    QuietNothing(c, s);
    match input
    case OnionFrame(line, onion) => if |onion| == OnionLen(c.lineSize) { OnionAsks(c, s, line, onion); }
    case RequestFrame(id, combiner, line, onion) => RequestIsAnswered(c, s, id, combiner, line, onion);
    case ReplyFrame(id, share) => ReplyIsQuiet(c, s, id, share);
    case Timer(MixToken(id)) => MixTimer(c, s, id);
    case Timer(GatherToken(id)) => DeadlineIsQuiet(c, s, id);
    case StartHeartbeat => StartIsQuiet(c, s);
    case Launch(to, frame) => LaunchSends(c, s, to, frame);
    case AdvanceEpoch => EpochIsQuiet(c, s);
    case DropFrame(_, _, _) =>
    case Undecodable =>
    case OtherCommand =>
  }

  lemma {:induction false} DeadlineIsQuiet(c: Config, s: State, id: nat)
    requires QueuesFit(c, s)
    ensures Quiet(c, s, (OnDeadline(c, s, id), []))
  {
    hide QueuesFit, Remember, Timers;
    SameQueuesFit(c, s, OnDeadline(c, s, id));
  }

  lemma {:induction false} LaunchSends(c: Config, s: State, to: Coord, frame: Bytes)
    requires QueuesFit(c, s)
    ensures Emits(c, s, (s, [SendRaw(to, frame)]), [|frame|])
  {
    hide QueuesFit;
    WidthsOfOne(c, SendRaw(to, frame));
  }

  lemma {:induction false} EpochIsQuiet(c: Config, s: State)
    requires QueuesFit(c, s)
    ensures Quiet(c, s, (s.(epoch := s.epoch + 1), []))
  {
    hide QueuesFit, Timers;
    SameQueuesFit(c, s, s.(epoch := s.epoch + 1));
  }

  /** A cover tick sends exactly one cell of the full width, whether or not cargo waits, and re-arms a running schedule. */
  lemma {:induction false} ATickSendsOneCell(c: Config, s: State)
    requires ValidConfig(c) && QueuesFit(c, s)
    ensures var (t, effects) := EmitCover(c, s);
            && QueuesFit(c, t) && AllRouted(c, effects)
            && Widths(c, effects) == [CELL_OVERHEAD + OnionLen(c.lineSize)]
            && Timers(t) == Timers(s)
            && (c.coverInterval != 0 ==> Armed(effects) == Timers(s))
  {
    hide QueuesFit, Widths, Armed, ValidConfig, SlotCell;
    var (s1, sent) := SlotCell(c, s);
    TheSlotsCell(c, s);
    WidthsOfOne(c, Arm(CoverToken));
    WidthsOfSum(c, sent, [Arm(CoverToken)]);
    SameQueuesFit(c, s1, EmitCover(c, s).0);
  }

  lemma {:induction false} TheSlotsCell(c: Config, s: State)
    requires ValidConfig(c) && QueuesFit(c, s)
    ensures var (t, effects) := SlotCell(c, s);
            && QueuesFit(c, t) && t.covering == s.covering && AllRouted(c, effects)
            && Widths(c, effects) == [CELL_OVERHEAD + OnionLen(c.lineSize)]
            && Armed(effects) == 0
  {
    hide Widths, Armed, QueuesFit, ValidConfig, Routed, Sized;
    var (t, effects) := SlotCell(c, s);
    if s.outbox == [] { CoverCell(c, s); } else { CargoCell(c, s); }
    assert effects == [effects[0]];
    WidthsOfOne(c, effects[0]);
    RoutedWidth(c, Queued(effects[0].to, effects[0].cell));
  }

  lemma {:induction false} RoutedWidth(c: Config, q: Queued)
    requires Routed(c, q)
    ensures FrameWidth(c, q.cell) == CELL_OVERHEAD + OnionLen(c.lineSize)
  {
  }

  ghost predicate OneCell(c: Config, s: State, after: (State, seq<Effect>)) {
    && QueuesFit(c, after.0) && after.0.covering == s.covering
    && |after.1| == 1 && after.1[0].SendCell? && Routed(c, Queued(after.1[0].to, after.1[0].cell))
  }

  lemma {:induction false} CoverCell(c: Config, s: State)
    requires ValidConfig(c) && QueuesFit(c, s) && s.outbox == []
    ensures OneCell(c, s, SlotCell(c, s))
  {
    hide Draw, Gatherer, QueuesFit;
    var line := if c.lines == [] then 0 else c.lines[Draw(c, s.coverSeq + 1, |c.lines|)];
    GathererIsAMember(c, line, c.keystream(s.coverSeq + 2));
    SameQueuesFit(c, s, s.(coverSeq := s.coverSeq + 2));
  }

  lemma {:induction false} CargoCell(c: Config, s: State)
    requires QueuesFit(c, s) && s.outbox != []
    ensures OneCell(c, s, SlotCell(c, s))
  {
    hide Draw, Routed, MaxQueue;
    var i := Draw(c, s.coverSeq + 1, |s.outbox|);
    assert Routed(c, s.outbox[i]);
    var rest := s.outbox[..i] + s.outbox[i + 1..];
    assert forall k :: 0 <= k < |rest| ==> rest[k] == s.outbox[if k < i then k else k + 1];
  }

  lemma {:induction false} StepKeepsQueues(c: Config, s: State, input: Input)
    requires ValidConfig(c) && QueuesFit(c, s)
    ensures QueuesFit(c, Step(c, s, input).0)
  {
    hide QueuesFit, ValidConfig, EmitCover, OnOnion, OnReply, OnRequest, StartCover, OnDeadline;
    if IsTick(input) { ATickSendsOneCell(c, s); } else { OffTheSchedule(c, s, input); }
  }

  /**
   In every reachable state the queues hold cells of the right size and no more of them than the share buys,
   only one of the two is in use, and forwarded cells = emitted + queued + shed.
   */
  lemma {:induction false} QueuesAreConserved(c: Config, run: seq<Input>)
    requires ValidConfig(c)
    ensures QueuesFit(c, After(c, run))
  {
    hide QueuesFit, ValidConfig, Step;
    if run == [] {
      StartsEmpty(c);
    } else {
      QueuesAreConserved(c, run[..|run| - 1]);
      StepKeepsQueues(c, After(c, run[..|run| - 1]), run[|run| - 1]);
    }
  }

  lemma {:induction false} StartsEmpty(c: Config)
    ensures QueuesFit(c, INITIAL)
  {
    hide MaxQueue;
  }

  // ----- Cover -----

  /**
   With cover on, everything an input of a run puts on the wire, by number and width: one cell for a tick, a launched
   frame, a request to each other member for an onion that is no replay, one reply for a request, and nothing else.
   */
  lemma {:induction false} TheWireFollowsTheSchedule(c: Config, run: seq<Input>, i: nat)
    requires ValidConfig(c) && c.coverInterval != 0 && i < |run|
    ensures Widths(c, Emitted(c, run, i)) == OnTheWire(c, run[i], Admits(c, run, i))
  {
    hide QueuesFit, ValidConfig, After, EmitCover, OnOnion, OnReply, OnRequest, StartCover, OnDeadline, Asked, Admit;
    var s := After(c, run[..i]);
    QueuesAreConserved(c, run[..i]);
    AdmitsIff(c, run, i);
    if IsTick(run[i]) { ATickSendsOneCell(c, s); } else { OffTheSchedule(c, s, run[i]); }
  }

  /** Whether input `i` is an onion whose tag is not among the last admitted before it. */
  predicate Admits(c: Config, run: seq<Input>, i: nat)
    requires i < |run|
  {
    run[i].OnionFrame? && c.tag(run[i].onion) !in ReplayRuns.Last(ReplayRuns.Admitted(c, run[..i]), MAX_REPLAY_TAGS)
  }

  lemma {:induction false} AdmitsIff(c: Config, run: seq<Input>, i: nat)
    requires i < |run|
    ensures Admits(c, run, i) == IsNew(After(c, run[..i]), c, run[i])
  {
    hide After, ReplayRuns.Admitted, Admit, ReplayRuns.Last;
    ReplayRuns.FilterIsTheLastTags(c, run[..i]);
    if run[i].OnionFrame? {
      ReplayRuns.AdmitSlides(After(c, run[..i]), c.tag(run[i].onion), ReplayRuns.Admitted(c, run[..i]));
    }
  }

  /**
   What an observer of the wire can tell an input apart by: a tick, a launch, an onion's arrival, a request.  An onion's
   tag is no part of it.
   */
  datatype Shape = Tick | Launched(width: nat) | Arrival(others: nat) | Request | Silent

  function ShapeOf(c: Config, input: Input): Shape {
    match input
    case Timer(CoverToken) => Tick
    case Launch(_, frame) => Launched(|frame|)
    case OnionFrame(line, onion) =>
      if |onion| == OnionLen(c.lineSize) then Arrival(Others(c, c.members(line))) else Silent
    case RequestFrame(_, _, line, onion) =>
      if |onion| == OnionLen(c.lineSize) && c.me in c.members(line) then Request else Silent
    case _ => Silent
  }

  ghost predicate SameShape(c: Config, one: seq<Input>, two: seq<Input>) {
    |one| == |two| && forall j :: 0 <= j < |one| ==> ShapeOf(c, one[j]) == ShapeOf(c, two[j])
  }

  /** The same onions are repeats of one another, whatever their tags. */
  ghost predicate SameRepeats(c: Config, one: seq<Input>, two: seq<Input>)
    requires |one| == |two|
  {
    forall j, k :: 0 <= j < k < |one| ==> (Repeats(c, one[j], one[k]) <==> Repeats(c, two[j], two[k]))
  }

  predicate Repeats(c: Config, early: Input, late: Input) { ReplayRuns.Asks(c, early) == ReplayRuns.Asks(c, late) }

  /** Where the onions stand that a run admits. */
  function Places(c: Config, run: seq<Input>): seq<nat> {
    if run == [] then []
    else
      var k := |run| - 1;
      Places(c, run[..k]) + if ReplayRuns.Asks(c, run[k]).Some? && Admits(c, run, k) then [k] else []
  }

  lemma {:induction false} PlacesAreAdmitted(c: Config, run: seq<Input>)
    ensures var tags := ReplayRuns.Admitted(c, run);
            && |Places(c, run)| == |tags|
            && forall p :: 0 <= p < |tags| ==> Places(c, run)[p] < |run| && ReplayRuns.Asks(c, run[Places(c, run)[p]]) == Some(tags[p])
  {
    hide ReplayRuns.Last;
    if run != [] { PlacesAreAdmitted(c, run[..|run| - 1]); }
  }

  /** An onion is admitted unless one of the last places admitted before it holds the same. */
  lemma {:induction false} AdmitsByPlace(c: Config, run: seq<Input>, i: nat)
    requires i < |run| && ReplayRuns.Asks(c, run[i]).Some?
    ensures forall p :: p in ReplayRuns.Last(Places(c, run[..i]), MAX_REPLAY_TAGS) ==> p < i
    ensures Admits(c, run, i) <==>
            forall p :: p in ReplayRuns.Last(Places(c, run[..i]), MAX_REPLAY_TAGS) ==> !Repeats(c, run[p], run[i])
  {
    hide Places, ReplayRuns.Admitted;
    PlacesAreAdmitted(c, run[..i]);
    var places, tags := Places(c, run[..i]), ReplayRuns.Admitted(c, run[..i]);
    var last, kept := ReplayRuns.Last(places, MAX_REPLAY_TAGS), ReplayRuns.Last(tags, MAX_REPLAY_TAGS);
    assert |last| == |kept|;
    assert forall p :: 0 <= p < |last| ==> last[p] < i && ReplayRuns.Asks(c, run[last[p]]) == Some(kept[p]);
  }

  lemma {:induction false} SamePlaces(c: Config, one: seq<Input>, two: seq<Input>)
    requires SameShape(c, one, two) && SameRepeats(c, one, two)
    ensures Places(c, one) == Places(c, two)
    decreases |one|
  {
    hide ReplayRuns.Last, Others, Admits, ReplayRuns.Asks;
    if one != [] {
      var k := |one| - 1;
      SamePlaces(c, one[..k], two[..k]);
      SameAdmission(c, one, two, k);
    }
  }

  lemma {:induction false} SameAsking(c: Config, one: Input, two: Input)
    requires ShapeOf(c, one) == ShapeOf(c, two)
    ensures ReplayRuns.Asks(c, one).Some? <==> ReplayRuns.Asks(c, two).Some?
  {
    hide Others;
  }

  lemma {:induction false} SameAdmission(c: Config, one: seq<Input>, two: seq<Input>, i: nat)
    requires SameShape(c, one, two) && SameRepeats(c, one, two) && i < |one| && Places(c, one[..i]) == Places(c, two[..i])
    ensures ReplayRuns.Asks(c, one[i]).Some? <==> ReplayRuns.Asks(c, two[i]).Some?
    ensures ReplayRuns.Asks(c, one[i]).Some? ==> (Admits(c, one, i) <==> Admits(c, two, i))
  {
    hide ReplayRuns.Last, Others, Admits, ReplayRuns.Asks, Places, Repeats, ShapeOf;
    SameAsking(c, one[i], two[i]);
    if ReplayRuns.Asks(c, one[i]).Some? {
      AdmitsByPlace(c, one, i);
      AdmitsByPlace(c, two, i);
    }
  }

  /**
   Two runs of the same shape whose onions repeat one another alike put the same frames, by number and width, on the
   wire at every input, whatever tags, replies, deadlines, dead drops and commands they carry, and so whatever the
   router peels, forwards, multicasts or drops.
   */
  lemma {:induction false} CargoDoesNotShow(c: Config, one: seq<Input>, two: seq<Input>, i: nat)
    requires ValidConfig(c) && c.coverInterval != 0 && SameShape(c, one, two) && SameRepeats(c, one, two) && i < |one|
    ensures Widths(c, Emitted(c, one, i)) == Widths(c, Emitted(c, two, i))
  {
    hide ValidConfig, Emitted, Widths, Others, Admits, ReplayRuns.Asks, Places, SameRepeats, Repeats, ShapeOf, OnTheWire;
    assert SameRepeats(c, one[..i], two[..i]) by { FirstRepeats(c, one, two, i); }
    SamePlaces(c, one[..i], two[..i]);
    SameAdmission(c, one, two, i);
    AdmissionShows(c, one, two, i);
  }

  lemma {:induction false} FirstRepeats(c: Config, one: seq<Input>, two: seq<Input>, i: nat)
    requires |one| == |two| && SameRepeats(c, one, two) && i <= |one|
    ensures SameRepeats(c, one[..i], two[..i])
  {
    hide Repeats;
  }

  /** More exactly: two inputs of one shape show alike when the filter admits both or neither. */
  lemma {:induction false} AdmissionShows(c: Config, one: seq<Input>, two: seq<Input>, i: nat)
    requires ValidConfig(c) && c.coverInterval != 0 && i < |one| && i < |two| && ShapeOf(c, one[i]) == ShapeOf(c, two[i])
    requires ReplayRuns.Asks(c, one[i]).Some? ==> (Admits(c, one, i) <==> Admits(c, two, i))
    ensures Widths(c, Emitted(c, one, i)) == Widths(c, Emitted(c, two, i))
  {
    hide ValidConfig, Emitted, Widths, Others, Admits, Copies;
    TheWireFollowsTheSchedule(c, one, i);
    TheWireFollowsTheSchedule(c, two, i);
  }

  /** Every cell a run ever sends, cover or cargo, goes to a member of the line it is for, at the cell's one width. */
  lemma {:induction false} EveryCellGoesToItsLine(c: Config, run: seq<Input>, i: nat)
    requires ValidConfig(c) && i < |run|
    ensures AllRouted(c, Emitted(c, run, i))
  {
    hide QueuesFit, ValidConfig, After, EmitCover, OnOnion, OnReply, OnRequest, StartCover, OnDeadline, AllRouted;
    var s := After(c, run[..i]);
    QueuesAreConserved(c, run[..i]);
    if IsTick(run[i]) { ATickSendsOneCell(c, s); } else { OffTheSchedule(c, s, run[i]); }
  }

  /** A gather asks every other member of its line for a share, and nobody else. */
  lemma {:induction false} EveryOtherMemberIsAsked(
    c: Config, id: nat, line: Coord, onion: Bytes, members: seq<Coord>, e: Effect)
    ensures e in Requests(c, id, line, onion, members) <==>
            e.SendRequest? && e == SendRequest(e.to, id, line, onion) && e.to in members && e.to != c.me
  {
    if members != [] {
      var k := |members| - 1;
      EveryOtherMemberIsAsked(c, id, line, onion, members[..k], e);
      assert members == members[..k] + [members[k]];
    }
  }

  /**
   A member of the line answers every well-sized request with exactly one reply of one width to its combiner,
   whether or not it can open the onion, and anyone else with none: replies do not tell cover from cargo.
   */
  lemma {:induction false} EveryRequestIsAnsweredAlike(
    c: Config, s: State, id: nat, combiner: Coord, line: Coord, onion: Bytes)
    requires ValidConfig(c) && |onion| == OnionLen(c.lineSize)
    ensures var (t, effects) := Step(c, s, RequestFrame(id, combiner, line, onion));
            && t == s
            && if c.me in c.members(line)
               then |effects| == 1 && effects[0].SendReply? && effects[0].to == combiner && effects[0].id == id
                    && 1 + |effects[0].share.y| == SHARE_LEN
               else effects == []
  {
    hide IndexOf;
    if c.me in c.members(line) {
      var i := IndexOf(c.members(line), c.me).value;
      var share := c.partial(s.epoch, onion, i);
      assert share.Some? ==> 1 + |share.value.y| == SHARE_LEN;
    }
  }

  function Ticks(run: seq<Input>): nat {
    if run == [] then 0 else Ticks(run[..|run| - 1]) + if IsTick(run[|run| - 1]) then 1 else 0
  }

  /** The cover timers armed during a run. */
  ghost function AllArmed(c: Config, run: seq<Input>): nat {
    if run == [] then 0
    else AllArmed(c, run[..|run| - 1]) + Armed(Step(c, After(c, run[..|run| - 1]), run[|run| - 1]).1)
  }

  /** Ticks come only from timers that were armed and have not fired. */
  ghost predicate TicksWereArmed(c: Config, run: seq<Input>) {
    forall i :: 0 <= i < |run| && IsTick(run[i]) ==> Ticks(run[..i]) < AllArmed(c, run[..i])
  }

  /** With cover on, exactly one cover timer is outstanding once the schedule has started, and none before. */
  lemma {:induction false} OneTimerIsOutstanding(c: Config, run: seq<Input>)
    requires ValidConfig(c) && c.coverInterval != 0 && TicksWereArmed(c, run)
    ensures AllArmed(c, run) == Ticks(run) + Timers(After(c, run))
  {
    hide QueuesFit, ValidConfig, Step, After, Timers, Armed;
    AllArmedStart(c);
    if run != [] {
      var k := |run| - 1;
      TicksWereArmedBefore(c, run);
      OneTimerIsOutstanding(c, run[..k]);
      assert IsTick(run[k]) ==> Ticks(run[..k]) < AllArmed(c, run[..k]);
      TimersAfterStep(c, run);
    }
  }

  lemma {:induction false} AllArmedStart(c: Config)
    ensures Timers(After(c, [])) == 0
  {
  }

  lemma {:induction false} TicksWereArmedBefore(c: Config, run: seq<Input>)
    requires run != [] && TicksWereArmed(c, run)
    ensures TicksWereArmed(c, run[..|run| - 1])
  {
    hide AllArmed, Ticks;
    var before := run[..|run| - 1];
    forall i | 0 <= i < |before| && IsTick(before[i])
      ensures Ticks(before[..i]) < AllArmed(c, before[..i])
    {
      assert before[..i] == run[..i];
      assert IsTick(run[i]);
    }
  }

  lemma {:induction false} TimersAfterStep(c: Config, run: seq<Input>)
    requires run != [] && ValidConfig(c) && c.coverInterval != 0
    requires IsTick(run[|run| - 1]) ==> Timers(After(c, run[..|run| - 1])) == 1
    ensures var s := After(c, run[..|run| - 1]);
            Armed(Step(c, s, run[|run| - 1]).1) + Timers(s) ==
            Timers(After(c, run)) + if IsTick(run[|run| - 1]) then 1 else 0
  {
    hide QueuesFit, ValidConfig, Widths, Armed, EmitCover, OnOnion, OnReply, OnRequest, StartCover, OnDeadline, Timers, AllRouted,
         OnTheWire;
    var input, s := run[|run| - 1], After(c, run[..|run| - 1]);
    QueuesAreConserved(c, run[..|run| - 1]);
    if IsTick(input) { ATickSendsOneCell(c, s); } else { OffTheSchedule(c, s, input); }
  }
}
