/**
 What becomes of a peeled hop over every run, cell by cell: a delivery is told to the application or not at all, a
 forward leaves as one cell for its next line, and no cell is lost, doubled or swapped on its way through the queues.

 What a completed gather asks for is read off the log of ended gathers and the arrival that opened it; what
 is done about it is read off the effects and the queues.
 */
module CargoRuns {
  import opened Symbolic
  import opened PeelSearch
  import opened Budget
  import opened Router
  import opened GatherRuns
  import ReplayRuns
  import EmissionRuns

  // ----- Effects by kind -----

  /** The cells among the effects, with their destinations, in order. */
  function Cells(effects: seq<Effect>): seq<Queued> {
    if effects == [] then []
    else
      var last := effects[|effects| - 1];
      Cells(effects[..|effects| - 1]) + if last.SendCell? then [Queued(last.to, last.cell)] else []
  }

  /** What the effects tell the application. */
  function Notices(effects: seq<Effect>): seq<Bytes> {
    if effects == [] then []
    else
      var last := effects[|effects| - 1];
      Notices(effects[..|effects| - 1]) + if last.Notify? then [last.payload] else []
  }

  /** The mixing timers the effects arm. */
  function MixArms(effects: seq<Effect>): seq<nat> {
    if effects == [] then []
    else
      var last := effects[|effects| - 1];
      MixArms(effects[..|effects| - 1]) + if last.Arm? && last.token.MixToken? then [last.token.id] else []
  }

  lemma {:induction false} OfSum(a: seq<Effect>, b: seq<Effect>)
    ensures Cells(a + b) == Cells(a) + Cells(b)
    ensures Notices(a + b) == Notices(a) + Notices(b)
    ensures MixArms(a + b) == MixArms(a) + MixArms(b)
    decreases |b|
  {
    if b == [] {
      assert a + b == a;
    } else {
      assert (a + b)[..|a + b| - 1] == a + b[..|b| - 1];
      OfSum(a, b[..|b| - 1]);
    }
  }

  lemma {:induction false} OfOne(effect: Effect)
    ensures Cells([effect]) == if effect.SendCell? then [Queued(effect.to, effect.cell)] else []
    ensures Notices([effect]) == if effect.Notify? then [effect.payload] else []
    ensures MixArms([effect]) == if effect.Arm? && effect.token.MixToken? then [effect.token.id] else []
    ensures Cells([]) == [] && Notices([]) == [] && MixArms([]) == []
  {
    assert [effect][..0] == [];
  }

  // ----- What a hop asks for -----

  /** Dead-drop cells for the members of a line other than us, if the body fits the bucket. */
  function DropCells(c: Config, line: Coord, body: Bytes, members: seq<Coord>): seq<Queued> {
    if members == [] || |body| + 4 > OnionLen(c.lineSize) then []
    else
      var k := |members| - 1;
      DropCells(c, line, body, members[..k]) + if members[k] == c.me then [] else [Queued(members[k], DropCell(line, body))]
  }

  /** One copy for each place of ours among the members. */
  function OwnCopies(c: Config, body: Bytes, members: seq<Coord>): seq<Bytes> {
    if members == [] then []
    else
      var k := |members| - 1;
      OwnCopies(c, body, members[..k]) + if members[k] == c.me then [body] else []
  }

  /** The cells a hop of `line` with this outcome is to send. */
  function Cargo(c: Config, line: Coord, outcome: Peeled): seq<Queued> {
    match outcome
    case Deliver(payload, holonomy) =>
      if c.verified(holonomy) && c.deaddrop(payload).Some?
      then DropCells(c, line, c.deaddrop(payload).value, c.members(line)) else []
    case Forward(next, onion) =>
      if c.members(next) == [] then []
      else
        var packet := Padded(c, onion);
        [Queued(c.members(next)[c.draw(next, packet) % |c.members(next)|], OnionCell(next, packet))]
  }

  /** What a hop of `line` with this outcome is to tell the application. */
  function Told(c: Config, line: Coord, outcome: Peeled): seq<Bytes> {
    match outcome
    case Deliver(payload, holonomy) =>
      if !c.verified(holonomy) then []
      else if c.deaddrop(payload).None? then [payload]
      else OwnCopies(c, c.deaddrop(payload).value, c.members(line))
    case Forward(_, _) => []
  }

  /** A forward is one cell, for its next line, to a member of it, and its bytes begin with the peeled onion. */
  lemma {:induction false} ForwardIsOneCell(c: Config, line: Coord, next: Coord, onion: Bytes)
    ensures var cells := Cargo(c, line, Forward(next, onion));
            if c.members(next) == [] then cells == []
            else
              && |cells| == 1 && cells[0].to in c.members(next)
              && cells[0].cell.OnionCell? && cells[0].cell.line == next && onion <= cells[0].cell.onion
              && (|onion| <= OnionLen(c.lineSize) ==>
                    cells[0].cell.onion == onion + c.pad(onion, OnionLen(c.lineSize) - |onion|))
  {
  }

  /** A dead drop is one cell for each other place on the line, with the body, and nothing else. */
  lemma {:induction false} DropIsForEveryOther(c: Config, line: Coord, body: Bytes, members: seq<Coord>, q: Queued)
    ensures multiset(DropCells(c, line, body, members))[q] ==
            if |body| + 4 <= OnionLen(c.lineSize) && q.cell == DropCell(line, body) && q.to != c.me
            then multiset(members)[q.to] else 0
    decreases |members|
  {
    hide OnionLen;
    if members != [] {
      var k := |members| - 1;
      DropIsForEveryOther(c, line, body, members[..k], q);
      assert members == members[..k] + [members[k]];
    }
  }

  /** And one copy of it for each place of ours. */
  lemma {:induction false} DropIsForUs(c: Config, body: Bytes, members: seq<Coord>)
    ensures |OwnCopies(c, body, members)| == multiset(members)[c.me]
    ensures forall i :: 0 <= i < |OwnCopies(c, body, members)| ==> OwnCopies(c, body, members)[i] == body
    decreases |members|
  {
    if members != [] {
      var k := |members| - 1;
      DropIsForUs(c, body, members[..k]);
      assert members == members[..k] + [members[k]];
    }
  }

  // ----- What the queues do with cells -----

  /** An outbox holds at least one cell, however little the share buys. */
  function Cap(c: Config): (n: nat)
    ensures n > 0
  {
    EmissionRuns.AtLeastOne(MaxQueue(c.lineSize))
  }

  function Newest(cells: seq<Queued>, n: nat): seq<Queued> {
    if |cells| <= n then cells else cells[|cells| - n..]
  }

  /** How many of `cells` the mixing queue has room for. */
  function Taken(c: Config, s: State, cells: seq<Queued>): (n: nat)
    ensures n <= |cells|
  {
    if |s.mix| >= MaxQueue(c.lineSize) then 0
    else if |cells| <= MaxQueue(c.lineSize) - |s.mix| then |cells| else MaxQueue(c.lineSize) - |s.mix|
  }

  ghost predicate Kept(c: Config, s: State) {
    && |s.outbox| <= Cap(c)
    && |s.mix| <= MaxQueue(c.lineSize)
    && (forall id :: id in s.mix ==> 0 < id <= s.mixSeq)
    && (c.coverInterval == 0 ==> s.outbox == [])
    && (c.coverInterval != 0 ==> s.mix == map[])
  }

  function Upwards(first: nat, n: nat): seq<nat> { if n == 0 then [] else Upwards(first, n - 1) + [first + n - 1] }

  /** A mixing queue that had issued `first` numbers took `cells` under the next ones. */
  ghost predicate Mixes(mix: map<nat, Queued>, first: nat, after: map<nat, Queued>, cells: seq<Queued>) {
    && |after| == |mix| + |cells|
    && (forall id :: id in after <==> id in mix || first < id <= first + |cells|)
    && (forall id :: id in mix ==> id in after && after[id] == mix[id])
    && (forall k :: 0 <= k < |cells| ==> first + 1 + k in after && after[first + 1 + k] == cells[k])
  }

  /** With cover on, the cells join the outbox, which keeps its newest, and start the schedule; none is sent. */
  ghost predicate Joins(c: Config, s: State, t: State, effects: seq<Effect>, cells: seq<Queued>) {
    && t.outbox == Newest(s.outbox + cells, Cap(c)) && t.mix == s.mix && t.mixSeq == s.mixSeq
    && Cells(effects) == [] && MixArms(effects) == []
    && t.books.shed == s.books.shed + |s.outbox| + |cells| - |t.outbox|
    && (s.covering || cells != [] ==> t.covering)
  }

  /** With neither cover nor delay, they leave at once and in order. */
  ghost predicate Leaves(s: State, t: State, effects: seq<Effect>, cells: seq<Queued>) {
    && t.outbox == s.outbox && t.mix == s.mix && t.mixSeq == s.mixSeq
    && Cells(effects) == cells && MixArms(effects) == []
    && t.books.shed == s.books.shed
  }

  /** With a delay, those there is room for wait, each with its own timer armed, and the newest are refused. */
  ghost predicate Waits(c: Config, s: State, t: State, effects: seq<Effect>, cells: seq<Queued>) {
    var n := Taken(c, s, cells);
    && t.outbox == s.outbox && Mixes(s.mix, s.mixSeq, t.mix, cells[..n]) && t.mixSeq == s.mixSeq + n
    && Cells(effects) == [] && MixArms(effects) == Upwards(s.mixSeq + 1, n)
    && t.books.shed == s.books.shed + |cells| - n
  }

  /** A change hands `cells` to the queues, tells the application `notices`, and does no more with either. */
  ghost predicate Hands(c: Config, s: State, after: (State, seq<Effect>), cells: seq<Queued>, notices: seq<Bytes>) {
    && Kept(c, after.0) && Notices(after.1) == notices
    && if c.coverInterval != 0 then Joins(c, s, after.0, after.1, cells)
       else if c.meanDelay == 0 then Leaves(s, after.0, after.1, cells)
       else Waits(c, s, after.0, after.1, cells)
  }

  lemma {:induction false} UpwardsOfSum(first: nat, a: nat, b: nat)
    ensures Upwards(first, a + b) == Upwards(first, a) + Upwards(first + a, b)
    decreases b
  {
    if b > 0 { UpwardsOfSum(first, a, b - 1); }
  }

  lemma {:induction false} NewestOfNewest(q: seq<Queued>, a: seq<Queued>, b: seq<Queued>, n: nat)
    ensures Newest(Newest(q + a, n) + b, n) == Newest(q + (a + b), n)
  {
    assert q + (a + b) == (q + a) + b;
    NewestTwice(q + a, b, n);
  }

  lemma {:induction false} NewestTwice(q: seq<Queued>, b: seq<Queued>, n: nat)
    ensures Newest(Newest(q, n) + b, n) == Newest(q + b, n)
  {
    if |q| > n { assert (q + b)[|q| - n..] == q[|q| - n..] + b; }
  }

  predicate SameQueues(s: State, t: State) {
    && t.outbox == s.outbox && t.mix == s.mix && t.mixSeq == s.mixSeq && t.books.shed == s.books.shed
    && (s.covering ==> t.covering)
  }

  lemma {:induction false} HandsNothing(c: Config, s: State, t: State, effects: seq<Effect>)
    requires Kept(c, s) && SameQueues(s, t)
    requires Cells(effects) == [] && MixArms(effects) == []
    ensures Hands(c, s, (t, effects), [], Notices(effects))
  {
    hide Cells, Notices, MixArms, MaxQueue;
    assert s.outbox + [] == s.outbox;
  }

  lemma {:induction false} JoinsThen(
    c: Config, s: State, t: State, u: State, first: seq<Effect>, then2: seq<Effect>, a: seq<Queued>, b: seq<Queued>)
    requires Kept(c, s) && Joins(c, s, t, first, a) && Joins(c, t, u, then2, b)
    ensures Joins(c, s, u, first + then2, a + b)
  {
    hide Cells, MixArms, Newest, Cap;
    OfSum(first, then2);
    NewestOfNewest(s.outbox, a, b, Cap(c));
  }

  lemma {:induction false} MixesThen(
    mix: map<nat, Queued>, first: nat, then2: map<nat, Queued>, last: map<nat, Queued>, a: seq<Queued>, b: seq<Queued>)
    requires Mixes(mix, first, then2, a) && Mixes(then2, first + |a|, last, b) && forall id :: id in mix ==> id <= first
    ensures Mixes(mix, first, last, a + b)
  {
    forall k | 0 <= k < |a + b|
      ensures first + 1 + k in last && last[first + 1 + k] == (a + b)[k]
    {
      if k < |a| {
        assert first + 1 + k in then2;
      } else {
        assert first + |a| + 1 + (k - |a|) in last;
      }
    }
  }

  lemma {:induction false} WaitsThen(
    c: Config, s: State, t: State, u: State, first: seq<Effect>, then2: seq<Effect>, a: seq<Queued>, b: seq<Queued>)
    requires Kept(c, s) && Waits(c, s, t, first, a) && Waits(c, t, u, then2, b)
    ensures Waits(c, s, u, first + then2, a + b)
  {
    hide Cells, MixArms, MaxQueue, Upwards, Mixes, Taken;
    var n, m := Taken(c, s, a), Taken(c, t, b);
    OfSum(first, then2);
    TakenThen(c, s, t, a, b);
    UpwardsOfSum(s.mixSeq + 1, n, m);
    MixesThen(s.mix, s.mixSeq, t.mix, u.mix, a[..n], b[..m]);
  }

  lemma {:induction false} TakenThen(c: Config, s: State, t: State, a: seq<Queued>, b: seq<Queued>)
    requires Mixes(s.mix, s.mixSeq, t.mix, a[..Taken(c, s, a)])
    ensures var n, m := Taken(c, s, a), Taken(c, t, b);
            Taken(c, s, a + b) == n + m && (a + b)[..n + m] == a[..n] + b[..m]
  {
    hide MaxQueue;
    var n, m := Taken(c, s, a), Taken(c, t, b);
    assert |t.mix| == |s.mix| + n;
  }

  lemma {:induction false} HandsThen(
    c: Config, s: State, first: (State, seq<Effect>), then2: (State, seq<Effect>), a: seq<Queued>, b: seq<Queued>)
    requires Kept(c, s) && Hands(c, s, first, a, Notices(first.1)) && Hands(c, first.0, then2, b, Notices(then2.1))
    ensures Hands(c, s, (then2.0, first.1 + then2.1), a + b, Notices(first.1) + Notices(then2.1))
  {
    hide Cells, Notices, MixArms, Joins, Waits, Kept;
    OfSum(first.1, then2.1);
    if c.coverInterval != 0 {
      JoinsThen(c, s, first.0, then2.0, first.1, then2.1, a, b);
    } else if c.meanDelay != 0 {
      WaitsThen(c, s, first.0, then2.0, first.1, then2.1, a, b);
    }
  }

  lemma {:induction false} SendHandsOne(c: Config, s: State, to: Coord, cell: Cell)
    requires Kept(c, s)
    ensures Hands(c, s, ForwardSend(c, s, to, cell), [Queued(to, cell)], [])
  {
    hide MaxQueue, Cells, Notices, MixArms, Enqueue, Joins, Waits;
    OfOne(SendCell(to, cell));
    if c.coverInterval != 0 {
      EnqueueJoins(c, s, Queued(to, cell));
    } else if c.meanDelay != 0 {
      MixingWaits(c, s, Queued(to, cell));
    }
  }

  lemma {:induction false} MixingWaits(c: Config, s: State, q: Queued)
    requires Kept(c, s) && c.coverInterval == 0 && c.meanDelay != 0
    ensures Hands(c, s, ForwardSend(c, s, q.to, q.cell), [q], [])
  {
    hide MaxQueue, Cells, Notices, MixArms, Enqueue, Joins, Mixes, Upwards;
    OfOne(Arm(MixToken(s.mixSeq + 1)));
    MixesNoneOrOne(s.mix, s.mixSeq, q);
    assert [q][..1] == [q] && [q][..0] == [];
  }

  lemma {:induction false} MixesNoneOrOne(mix: map<nat, Queued>, n: nat, q: Queued)
    requires forall id :: id in mix ==> id <= n
    ensures Mixes(mix, n, mix, []) && Mixes(mix, n, mix[n + 1 := q], [q]) && |mix[n + 1 := q]| == |mix| + 1
    ensures Upwards(n + 1, 0) == [] && Upwards(n + 1, 1) == [n + 1]
  {
    EmissionRuns.MixGrows(mix, n + 1, q);
  }

  lemma {:induction false} EnqueueJoins(c: Config, s: State, q: Queued)
    requires Kept(c, s) && c.coverInterval != 0
    ensures Hands(c, s, Enqueue(c, s, q), [q], [])
  {
    hide MaxQueue, Cells, Notices, MixArms;
    OfOne(Arm(CoverToken));
  }

  lemma {:induction false} DropHands(c: Config, s: State, line: Coord, body: Bytes, members: seq<Coord>)
    requires Kept(c, s)
    ensures var after := DeadDrop(c, s, line, body, members);
            && Notices(after.1) == OwnCopies(c, body, members)
            && Hands(c, s, after, DropCells(c, line, body, members), OwnCopies(c, body, members))
    decreases |members|
  {
    hide ForwardSend, Kept, Cells, Notices, MixArms, Joins, Waits, Leaves;
    OfOne(Notify(body));
    if members == [] {
      HandsNothing(c, s, s, []);
    } else {
      var k := |members| - 1;
      DropHands(c, s, line, body, members[..k]);
      var before := DeadDrop(c, s, line, body, members[..k]);
      var cells := DropCells(c, line, body, members[..k]);
      if members[k] == c.me {
        HandsNothing(c, before.0, before.0, [Notify(body)]);
        HandsThen(c, s, before, (before.0, [Notify(body)]), cells, []);
        assert cells + [] == cells;
      } else if |body| + 4 <= OnionLen(c.lineSize) {
        var q := Queued(members[k], DropCell(line, body));
        SendHandsOne(c, before.0, q.to, q.cell);
        HandsThen(c, s, before, ForwardSend(c, before.0, q.to, q.cell), cells, [q]);
        assert OwnCopies(c, body, members[..k]) + [] == OwnCopies(c, body, members[..k]);
      }
    }
  }

  lemma {:induction false} ActHands(c: Config, s: State, line: Coord, outcome: Peeled)
    requires Kept(c, s)
    ensures Hands(c, s, ActOn(c, s, line, outcome), Cargo(c, line, outcome), Told(c, line, outcome))
  {
    hide ForwardSend, DeadDrop, Kept, Cells, Notices, MixArms, Joins, Waits, Leaves, Padded, DropCells, OwnCopies;
    OfOne(Arm(CoverToken));
    HandsNothing(c, s, s, []);
    match outcome
    case Deliver(payload, holonomy) =>
      OfOne(Notify(payload));
      HandsNothing(c, s, s, [Notify(payload)]);
      if c.deaddrop(payload).Some? { DropHands(c, s, line, c.deaddrop(payload).value, c.members(line)); }
    case Forward(next, onion) =>
      var packet := Padded(c, onion);
      if c.members(next) != [] {
        var to := c.members(next)[c.draw(next, packet) % |c.members(next)|];
        SendHandsOne(c, s, to, OnionCell(next, packet));
      }
  }

  // ----- One input -----

  /** The gather that the log says was completed on the way from `s` to `t`, and its outcome. */
  function Finished(s: State, t: State): Option<(nat, Peeled)> {
    var before, after := s.books.closed, t.books.closed;
    if |before| < |after| && after[|after| - 1].1.Completed?
    then Some((after[|after| - 1].0, after[|after| - 1].1.outcome)) else None
  }

  /** The gather an input may complete, and its line. */
  function Touched(s: State, input: Input): (nat, Coord) {
    match input
    case OnionFrame(line, _) => (s.nextId, line)
    case ReplyFrame(id, _) => (id, if id in s.pending then s.pending[id].line else 0)
    case _ => (0, 0)
  }

  /** A dead-drop frame for a line we are on is told to the application. */
  function Dropped(c: Config, input: Input): seq<Bytes> {
    if input.DropFrame? && |input.region| == OnionLen(c.lineSize) && input.body.Some? && c.me in c.members(input.line)
    then [input.body.value] else []
  }

  /** What the log asks for is what the queues and the application get. */
  ghost predicate Serves(c: Config, s: State, after: (State, seq<Effect>), which: (nat, Coord), otherwise: seq<Bytes>) {
    match Finished(s, after.0)
    case None => Hands(c, s, after, [], otherwise)
    case Some((id, outcome)) => id == which.0 && Hands(c, s, after, Cargo(c, which.1, outcome), Told(c, which.1, outcome))
  }

  lemma {:induction false} HandsFrom(
    c: Config, s: State, s1: State, after: (State, seq<Effect>), cells: seq<Queued>, notices: seq<Bytes>)
    requires SameQueues(s, s1) && Hands(c, s1, after, cells, notices)
    ensures Hands(c, s, after, cells, notices)
  {
    hide Cells, MixArms, Notices, Kept, MaxQueue, Mixes, Newest, Upwards;
    assert Taken(c, s, cells) == Taken(c, s1, cells);
  }

  lemma {:induction false} SameIsKept(c: Config, s: State, t: State)
    requires Kept(c, s) && SameQueues(s, t)
    ensures Kept(c, t)
  {
    hide MaxQueue;
  }

  /** A peel attempt appends to the log what it completes, and acts on it. */
  lemma {:induction false} PeelServes(c: Config, s: State, id: nat)
    requires Kept(c, s) && id in s.pending
    ensures var (t, done) := TryPeel(c, s, id);
            match Peels(c, s.pending[id])
            case None => t == s && done.None?
            case Some(outcome) =>
              && done.Some? && t.books.closed == s.books.closed + [(id, Completed(outcome))]
              && Hands(c, s, (t, done.value), Cargo(c, s.pending[id].line, outcome), Told(c, s.pending[id].line, outcome))
  {
    hide ActOn, Peels, Remember, Kept, Hands, Cargo, Told;
    PeelAttempt(c, s, id);
    match Peels(c, s.pending[id])
    case None =>
    case Some(outcome) =>
      var s1 := Complete(c, s, id, outcome);
      SameIsKept(c, s, s1);
      ActHands(c, s1, s.pending[id].line, outcome);
      HandsFrom(c, s, s1, ActOn(c, s1, s.pending[id].line, outcome), Cargo(c, s.pending[id].line, outcome), Told(c, s.pending[id].line, outcome));
  }

  lemma {:induction false} OpeningIs(c: Config, s: State, line: Coord, onion: Bytes)
    ensures var t := OpenGather(c, s, line, onion);
            && SameQueues(s, t) && t.nextId == s.nextId + 1
            && s.nextId in t.pending && t.pending[s.nextId].line == line && t.pending[s.nextId].onion == onion
            && s.books.closed <= t.books.closed && (|s.books.closed| < |t.books.closed| ==> t.books.closed[|t.books.closed| - 1].1 == Evicted)
    ensures SameQueues(s, Admit(s, c.tag(onion)).0) && Admit(s, c.tag(onion)).0.books == s.books
    ensures Admit(s, c.tag(onion)).0.nextId == s.nextId
  {
    hide MaxPending, OwnShares;
  }

  lemma {:induction false} RequestsCarryNothing(c: Config, id: nat, line: Coord, onion: Bytes, members: seq<Coord>)
    ensures var requests := Requests(c, id, line, onion, members);
            Cells(requests) == [] && Notices(requests) == [] && MixArms(requests) == []
    decreases |members|
  {
    hide Cells, Notices, MixArms;
    OfOne(Arm(CoverToken));
    if members != [] {
      var k := |members| - 1;
      RequestsCarryNothing(c, id, line, onion, members[..k]);
      OfOne(SendRequest(members[k], id, line, onion));
      OfSum(Requests(c, id, line, onion, members[..k]), [SendRequest(members[k], id, line, onion)]);
      assert Requests(c, id, line, onion, members[..k]) + [] == Requests(c, id, line, onion, members[..k]);
    }
  }

  /** Effects that carry no cell, notice or mixing timer may go first. */
  lemma {:induction false} HandsAfter(
    c: Config, s: State, first: seq<Effect>, after: (State, seq<Effect>), cells: seq<Queued>, notices: seq<Bytes>)
    requires Hands(c, s, after, cells, notices) && Cells(first) == [] && Notices(first) == [] && MixArms(first) == []
    ensures Hands(c, s, (after.0, first + after.1), cells, notices)
  {
    hide Cells, Notices, MixArms, Kept, MaxQueue;
    OfSum(first, after.1);
    assert [] + Cells(after.1) == Cells(after.1);
    assert [] + Notices(after.1) == Notices(after.1);
    assert [] + MixArms(after.1) == MixArms(after.1);
  }

  lemma {:induction false} OnionServes(c: Config, s: State, line: Coord, onion: Bytes)
    requires Kept(c, s)
    ensures Serves(c, s, OnOnion(c, s, line, onion), (s.nextId, line), [])
  {
    hide Kept, Hands, Cargo, Told, TryPeel, Peels, OpenGather, Admit, Requests, Cells, Notices, MixArms;
    var (s1, isNew) := Admit(s, c.tag(onion));
    OpeningIs(c, s, line, onion);
    OpeningIs(c, s1, line, onion);
    OfOne(Arm(GatherToken(s1.nextId)));
    SameIsKept(c, s, s1);
    if !isNew {
      HandsNothing(c, s, s1, []);
    } else {
      var s2, id := OpenGather(c, s1, line, onion), s1.nextId;
      SameIsKept(c, s1, s2);
      PeelServes(c, s2, id);
      RequestsCarryNothing(c, id, line, onion, c.members(line));
      var requests := Requests(c, id, line, onion, c.members(line));
      var (t, done) := TryPeel(c, s2, id);
      match Peels(c, s2.pending[id])
      case None =>
        HandsNothing(c, s, s2, [Arm(GatherToken(id))]);
        HandsAfter(c, s, requests, (s2, [Arm(GatherToken(id))]), [], []);
      case Some(outcome) =>
        HandsFrom(c, s, s2, (t, done.value), Cargo(c, line, outcome), Told(c, line, outcome));
        HandsAfter(c, s, requests, (t, done.value), Cargo(c, line, outcome), Told(c, line, outcome));
    }
  }

  lemma {:induction false} ReplyServes(c: Config, s: State, id: nat, share: Share)
    requires Kept(c, s)
    ensures Serves(c, s, OnReply(c, s, id, share), Touched(s, ReplyFrame(id, share)), [])
  {
    hide Kept, Hands, Cargo, Told, TryPeel, Peels, Takes, Cells, Notices, MixArms;
    OfOne(Arm(CoverToken));
    HandsNothing(c, s, s, []);
    if id in s.pending && Takes(s.pending[id], share) {
      var s1 := s.(pending := s.pending[id := s.pending[id].(shares := s.pending[id].shares + [share])]);
      SameIsKept(c, s, s1);
      PeelServes(c, s1, id);
      match Peels(c, s1.pending[id])
      case None => HandsNothing(c, s, s1, []);
      case Some(outcome) =>
        var line := s.pending[id].line;
        HandsFrom(c, s, s1, (TryPeel(c, s1, id).0, TryPeel(c, s1, id).1.value), Cargo(c, line, outcome), Told(c, line, outcome));
    }
  }

  predicate IsRelease(input: Input) { input.Timer? && !input.token.GatherToken? }

  /** Every input but a tick and a mixing timer serves exactly what the log says it completed. */
  lemma {:induction false} StepServes(c: Config, s: State, input: Input)
    requires Kept(c, s) && !IsRelease(input)
    ensures Serves(c, s, Step(c, s, input), Touched(s, input), Dropped(c, input))
  {
    hide Kept, Hands, Cargo, Told, OnOnion, OnReply, OnDeadline, Remember, Cells, Notices, MixArms, OnRequest, StartCover, IndexOf;
    OfOne(Arm(CoverToken));
    HandsNothing(c, s, s, []);
    match input
    case OnionFrame(line, onion) => OnionServes(c, s, line, onion);
    case ReplyFrame(id, share) => ReplyServes(c, s, id, share);
    case RequestFrame(id, combiner, line, onion) => AnswerServes(c, s, id, combiner, line, onion);
    case DropFrame(line, region, body) =>
      if body.Some? {
        OfOne(Notify(body.value));
        HandsNothing(c, s, s, [Notify(body.value)]);
      }
    case Timer(GatherToken(id)) => DeadlineServes(c, s, id);
    case Launch(to, frame) =>
      OfOne(SendRaw(to, frame));
      HandsNothing(c, s, s, [SendRaw(to, frame)]);
    case StartHeartbeat => StartServes(c, s);
    case AdvanceEpoch => HandsNothing(c, s, s.(epoch := s.epoch + 1), []);
    case Undecodable =>
    case OtherCommand =>
  }

  lemma {:induction false} AnswerServes(c: Config, s: State, id: nat, combiner: Coord, line: Coord, onion: Bytes)
    requires Kept(c, s)
    ensures Hands(c, s, (s, OnRequest(c, s, id, combiner, line, onion)), [], [])
  {
    hide Kept, Hands, Cells, Notices, MixArms, IndexOf;
    OfOne(Arm(CoverToken));
    var effects := OnRequest(c, s, id, combiner, line, onion);
    if effects != [] {
      OfOne(effects[0]);
      assert effects == [effects[0]];
    }
    HandsNothing(c, s, s, effects);
  }

  lemma {:induction false} DeadlineServes(c: Config, s: State, id: nat)
    requires Kept(c, s)
    ensures Serves(c, s, (OnDeadline(c, s, id), []), (0, 0), [])
  {
    hide Kept, Hands, Cargo, Told, Remember, Cells, Notices, MixArms;
    OfOne(Arm(CoverToken));
    HandsNothing(c, s, OnDeadline(c, s, id), []);
  }

  lemma {:induction false} StartServes(c: Config, s: State)
    requires Kept(c, s)
    ensures Serves(c, s, StartCover(c, s), (0, 0), [])
  {
    hide Kept, Hands, Cargo, Told, Cells, Notices, MixArms;
    OfOne(Arm(CoverToken));
    HandsNothing(c, s, StartCover(c, s).0, StartCover(c, s).1);
  }

  // ----- Ticks and mixing timers -----

  /** `q` is taken out of `cells`, and the others keep their order. */
  ghost predicate TakesOut(cells: seq<Queued>, q: Queued, rest: seq<Queued>) {
    exists i :: 0 <= i < |cells| && cells[i] == q && rest == cells[..i] + cells[i + 1..]
  }

  lemma {:induction false} TakenOutOnce(cells: seq<Queued>, q: Queued, rest: seq<Queued>)
    requires TakesOut(cells, q, rest)
    ensures multiset(cells) == multiset(rest) + multiset{q}
  {
    var i :| 0 <= i < |cells| && cells[i] == q && rest == cells[..i] + cells[i + 1..];
    assert cells == cells[..i] + [cells[i]] + cells[i + 1..];
  }

  /** A tick with cargo waiting sends one of the waiting cells, and that one is gone; nothing else changes. */
  lemma {:induction false} ATickSendsWhatItTakes(c: Config, s: State)
    requires Kept(c, s)
    ensures var (t, effects) := EmitCover(c, s);
            && Kept(c, t) && t.mix == s.mix && t.mixSeq == s.mixSeq && t.books.shed == s.books.shed && t.covering == s.covering
            && t.books.closed == s.books.closed && Notices(effects) == [] && MixArms(effects) == []
            && (s.outbox == [] ==> t.outbox == [])
            && (s.outbox != [] ==> |Cells(effects)| == 1 && TakesOut(s.outbox, Cells(effects)[0], t.outbox)
                                   && multiset(s.outbox) == multiset(t.outbox) + multiset{Cells(effects)[0]})
  {
    hide Draw, Gatherer, MaxQueue, Cells, Notices, MixArms, TakesOut, SlotCell;
    var (s1, sent) := SlotCell(c, s);
    TheSlot(c, s);
    OfOne(Arm(CoverToken));
    OfSum(sent, [Arm(CoverToken)]);
    if s.outbox != [] { TakenOutOnce(s.outbox, Cells(sent)[0], s1.outbox); }
  }

  lemma {:induction false} TheSlot(c: Config, s: State)
    requires Kept(c, s)
    ensures var (t, sent) := SlotCell(c, s);
            && Kept(c, t) && t.mix == s.mix && t.mixSeq == s.mixSeq && t.books.shed == s.books.shed && t.covering == s.covering
            && t.books.closed == s.books.closed && Notices(sent) == [] && MixArms(sent) == []
            && (s.outbox == [] ==> t.outbox == [])
            && (s.outbox != [] ==> |Cells(sent)| == 1 && TakesOut(s.outbox, Cells(sent)[0], t.outbox))
  {
    hide Draw, Gatherer, MaxQueue, Cells, Notices, MixArms, TakesOut;
    var (t, sent) := SlotCell(c, s);
    OfOne(Arm(CoverToken));
    if sent != [] {
      assert sent == [sent[0]];
      OfOne(sent[0]);
    }
    if s.outbox != [] { TakesOutAt(s.outbox, Draw(c, s.coverSeq + 1, |s.outbox|)); }
  }

  lemma {:induction false} TakesOutAt(cells: seq<Queued>, i: nat)
    requires i < |cells|
    ensures TakesOut(cells, cells[i], cells[..i] + cells[i + 1..])
  {
  }

  /** The cells of the mixing queue numbered up to `n`. */
  ghost function Mixing(mix: map<nat, Queued>, n: nat): multiset<Queued> {
    if n == 0 then multiset{} else Mixing(mix, n - 1) + if n in mix then multiset{mix[n]} else multiset{}
  }

  lemma {:induction false} MixingAgrees(a: map<nat, Queued>, b: map<nat, Queued>, n: nat)
    requires forall id :: 0 < id <= n ==> (id in a <==> id in b) && (id in a ==> a[id] == b[id])
    ensures Mixing(a, n) == Mixing(b, n)
    decreases n
  {
    if n > 0 { MixingAgrees(a, b, n - 1); }
  }

  lemma {:induction false} MixingWithout(mix: map<nat, Queued>, id: nat, n: nat)
    requires id in mix && 0 < id <= n
    ensures Mixing(mix, n) == Mixing(mix - {id}, n) + multiset{mix[id]}
    decreases n
  {
    if id < n { MixingWithout(mix, id, n - 1); } else { MixingAgrees(mix, mix - {id}, n - 1); }
  }

  lemma {:induction false} MixingMore(mix: map<nat, Queued>, first: nat, after: map<nat, Queued>, cells: seq<Queued>, n: nat)
    requires Mixes(mix, first, after, cells) && n <= |cells| && forall id :: id in mix ==> id <= first
    ensures Mixing(after, first + n) == Mixing(mix, first) + multiset(cells[..n])
    decreases n
  {
    hide Mixes, Mixing;
    if n == 0 {
      assert multiset(cells[..0]) == multiset{};
      assert forall id :: 0 < id <= first ==> (id in after <==> id in mix) && (id in after ==> after[id] == mix[id]) by {
        MixesKeeps(mix, first, after, cells);
      }
      MixingAgrees(after, mix, first);
    } else {
      MixingMore(mix, first, after, cells, n - 1);
      MixesAt(mix, first, after, cells, n - 1);
      OneMoreCell(cells, n - 1);
      MixingStep(after, first + n);
    }
  }

  lemma {:induction false} OneMoreCell(cells: seq<Queued>, k: nat)
    requires k < |cells|
    ensures multiset(cells[..k + 1]) == multiset(cells[..k]) + multiset{cells[k]}
  {
    assert cells[..k + 1] == cells[..k] + [cells[k]];
  }

  lemma {:induction false} MixingStep(mix: map<nat, Queued>, n: nat)
    requires n > 0 && n in mix
    ensures Mixing(mix, n) == Mixing(mix, n - 1) + multiset{mix[n]}
  {
  }

  lemma {:induction false} MixesKeeps(mix: map<nat, Queued>, first: nat, after: map<nat, Queued>, cells: seq<Queued>)
    requires Mixes(mix, first, after, cells)
    ensures forall id :: 0 < id <= first ==> (id in after <==> id in mix) && (id in after ==> after[id] == mix[id])
  {
  }

  lemma {:induction false} MixesAt(mix: map<nat, Queued>, first: nat, after: map<nat, Queued>, cells: seq<Queued>, k: nat)
    requires Mixes(mix, first, after, cells) && k < |cells|
    ensures first + 1 + k in after && after[first + 1 + k] == cells[k]
  {
  }

  /** A mixing timer sends the cell it was armed for, and that one is gone; a stale one does nothing. */
  lemma {:induction false} AMixTimerSendsItsCell(c: Config, s: State, id: nat)
    requires Kept(c, s)
    ensures var (t, effects) := Step(c, s, Timer(MixToken(id)));
            && Kept(c, t) && t.outbox == s.outbox && t.mixSeq == s.mixSeq && t.books.shed == s.books.shed && t.covering == s.covering
            && t.books.closed == s.books.closed && Notices(effects) == [] && MixArms(effects) == []
            && t.mix == s.mix - {id}
            && Cells(effects) == (if id in s.mix then [s.mix[id]] else [])
            && Mixing(s.mix, s.mixSeq) == Mixing(t.mix, t.mixSeq) + multiset(Cells(effects))
  {
    hide Cells, Notices, MixArms, MaxQueue, Mixing;
    OfOne(Arm(CoverToken));
    if id in s.mix {
      OfOne(SendCell(s.mix[id].to, s.mix[id].cell));
      MixingWithout(s.mix, id, s.mixSeq);
      assert (s.mix - {id}).Keys == s.mix.Keys - {id};
      assert |s.mix - {id}| == |(s.mix - {id}).Keys| && |s.mix| == |s.mix.Keys|;
    } else {
      assert s.mix - {id} == s.mix;
    }
  }

  // ----- Which hop a gather is -----

  /** An admitted onion: its line, its bytes, and the epoch it arrived in. */
  datatype Arrival = Arrival(line: Coord, onion: Bytes, epoch: nat)

  function Epochs(run: seq<Input>): nat {
    if run == [] then 0 else Epochs(run[..|run| - 1]) + if run[|run| - 1].AdvanceEpoch? then 1 else 0
  }

  /** The onions a run admits, in order: gather `id` is for the `id`-th. */
  function Arrivals(c: Config, run: seq<Input>): seq<Arrival> {
    if run == [] then []
    else
      var k := |run| - 1;
      Arrivals(c, run[..k]) +
      match ReplayRuns.Asks(c, run[k])
      case None => []
      case Some(tag) =>
        if tag in ReplayRuns.Last(ReplayRuns.Admitted(c, run[..k]), MAX_REPLAY_TAGS) then []
        else [Arrival(run[k].line, run[k].onion, Epochs(run[..k]))]
  }

  /** A gather for this arrival: its bytes, its line, as many indices as members, and our own share first if we have one. */
  ghost predicate IsFor(c: Config, a: Arrival, p: Pending) {
    var members := c.members(a.line);
    && p.onion == a.onion && p.line == a.line && p.memberCount == |members|
    && forall i :: 0 <= i < |members| && members[i] == c.me && c.me !in members[..i] && c.partial(a.epoch, a.onion, i).Some?
         ==> p.shares != [] && p.shares[0] == c.partial(a.epoch, a.onion, i).value
  }

  ghost predicate Placed(c: Config, arrivals: seq<Arrival>, s: State) {
    && |arrivals| == s.nextId
    && forall id :: id in s.pending ==> id < s.nextId && IsFor(c, arrivals[id], s.pending[id])
  }

  lemma {:induction false} PlacedStill(c: Config, arrivals: seq<Arrival>, s: State, t: State)
    requires Placed(c, arrivals, s) && t.nextId == s.nextId
    requires forall id :: id in t.pending ==> id in s.pending && t.pending[id] == s.pending[id]
    ensures Placed(c, arrivals, t)
  {
    hide IsFor;
  }

  lemma {:induction false} PeelPlaces(c: Config, arrivals: seq<Arrival>, s: State, id: nat)
    requires Placed(c, arrivals, s) && id in s.pending
    ensures Placed(c, arrivals, TryPeel(c, s, id).0)
  {
    hide IsFor, TryPeel, Peels, Remember;
    PeelAttempt(c, s, id);
    PlacedStill(c, arrivals, s, TryPeel(c, s, id).0);
  }

  lemma {:induction false} FirstIndex(members: seq<Coord>, me: Coord, i: nat)
    requires i < |members| && members[i] == me && me !in members[..i]
    ensures IndexOf(members, me) == Some(i)
    decreases i
  {
    if i > 0 {
      assert members[0] in members[..i];
      assert members[1..][..i - 1] == members[..i][1..];
      FirstIndex(members[1..], me, i - 1);
    }
  }

  lemma {:induction false} NewGatherIsFor(c: Config, s: State, line: Coord, onion: Bytes)
    ensures var t := OpenGather(c, s, line, onion);
            s.nextId in t.pending && IsFor(c, Arrival(line, onion, s.epoch), t.pending[s.nextId])
  {
    hide MakeRoom, IndexOf;
    var members := c.members(line);
    forall i | 0 <= i < |members| && members[i] == c.me && c.me !in members[..i]
      ensures IndexOf(members, c.me) == Some(i)
    {
      FirstIndex(members, c.me, i);
    }
  }

  lemma {:induction false} OpeningPlaces(c: Config, arrivals: seq<Arrival>, s: State, line: Coord, onion: Bytes)
    requires Placed(c, arrivals, s)
    ensures Placed(c, arrivals + [Arrival(line, onion, s.epoch)], OpenGather(c, s, line, onion))
  {
    hide IsFor, MaxPending, OwnShares;
    NewGatherIsFor(c, s, line, onion);
    var t, more := OpenGather(c, s, line, onion), arrivals + [Arrival(line, onion, s.epoch)];
    assert more[s.nextId] == Arrival(line, onion, s.epoch);
    forall id | id in t.pending
      ensures id < t.nextId && IsFor(c, more[id], t.pending[id])
    {
      if id != s.nextId {
        assert id in s.pending && t.pending[id] == s.pending[id];
        assert more[id] == arrivals[id];
      }
    }
  }

  /** The arrival an input brings, if it opened a gather. */
  function Brought(s: State, t: State, input: Input): seq<Arrival> {
    if t.nextId > s.nextId && input.OnionFrame? then [Arrival(input.line, input.onion, s.epoch)] else []
  }

  lemma {:induction false} OnionPlaces(c: Config, arrivals: seq<Arrival>, s: State, line: Coord, onion: Bytes)
    requires Placed(c, arrivals, s)
    ensures var t := OnOnion(c, s, line, onion).0;
            t.epoch == s.epoch && Placed(c, arrivals + Brought(s, t, OnionFrame(line, onion)), t)
  {
    hide IsFor, TryPeel, OpenGather, Requests, Placed;
    var (s1, isNew) := Admit(s, c.tag(onion));
    assert Placed(c, arrivals, s1) by { PlacedStill(c, arrivals, s, s1); }
    if isNew {
      OpeningIs(c, s1, line, onion);
      OpeningPlaces(c, arrivals, s1, line, onion);
      var s2 := OpenGather(c, s1, line, onion);
      PeelPlaces(c, arrivals + [Arrival(line, onion, s1.epoch)], s2, s1.nextId);
      PeelKeepsNext(c, s2, s1.nextId);
      OpeningKeepsEpoch(c, s1, line, onion);
    } else {
      assert arrivals + [] == arrivals;
    }
  }

  lemma {:induction false} OpeningKeepsEpoch(c: Config, s: State, line: Coord, onion: Bytes)
    ensures TryPeel(c, OpenGather(c, s, line, onion), s.nextId).0.epoch == s.epoch
  {
    hide Peels, ActOn, MakeRoom, OwnShares, TryPeel, Remember;
    var s2 := OpenGather(c, s, line, onion);
    PeelAttempt(c, s2, s.nextId);
    assert s2.epoch == s.epoch by { RoomKeepsEpoch(c, s); }
  }

  lemma {:induction false} RoomKeepsEpoch(c: Config, s: State)
    ensures MakeRoom(c, s).epoch == s.epoch
  {
    hide MaxPending;
  }

  lemma {:induction false} ReplyPlaces(c: Config, arrivals: seq<Arrival>, s: State, id: nat, share: Share)
    requires Placed(c, arrivals, s)
    ensures var t := OnReply(c, s, id, share).0; t.epoch == s.epoch && t.nextId == s.nextId && Placed(c, arrivals, t)
  {
    hide TryPeel, Takes, Peels;
    if id in s.pending && Takes(s.pending[id], share) {
      var p := s.pending[id].(shares := s.pending[id].shares + [share]);
      var s1 := s.(pending := s.pending[id := p]);
      assert IsFor(c, arrivals[id], p);
      PeelPlaces(c, arrivals, s1, id);
      PeelAttempt(c, s1, id);
    }
  }

  lemma {:induction false} StepPlaces(c: Config, arrivals: seq<Arrival>, s: State, input: Input)
    requires Placed(c, arrivals, s)
    ensures var t := Step(c, s, input).0;
            && Placed(c, arrivals + Brought(s, t, input), t)
            && t.epoch == s.epoch + if input.AdvanceEpoch? then 1 else 0
  {
    hide IsFor, OnOnion, OnReply, EmitCover, StartCover, OnRequest, Remember;
    CoverKeepsGathers(c, s);
    assert arrivals + [] == arrivals;
    match input
    case OnionFrame(line, onion) => OnionPlaces(c, arrivals, s, line, onion);
    case ReplyFrame(id, share) => ReplyPlaces(c, arrivals, s, id, share);
    case RequestFrame(_, _, _, _) =>
    case DropFrame(_, _, _) =>
    case Undecodable =>
    case Timer(_) =>
    case StartHeartbeat =>
    case Launch(_, _) =>
    case AdvanceEpoch =>
    case OtherCommand =>
  }

  /** After any run, every pending gather is for the arrival of its number, and the epoch counts the advances. */
  lemma {:induction false} GathersAreForTheirArrivals(c: Config, run: seq<Input>)
    ensures Placed(c, Arrivals(c, run), After(c, run)) && After(c, run).epoch == Epochs(run)
    decreases |run|
  {
    hide Step, IsFor, ReplayRuns.Last, ReplayRuns.Admitted;
    if run != [] {
      var k := |run| - 1;
      var s, t := After(c, run[..k]), After(c, run);
      GathersAreForTheirArrivals(c, run[..k]);
      StepPlaces(c, Arrivals(c, run[..k]), s, run[k]);
      ArrivalIsBrought(c, run);
    }
  }

  lemma {:induction false} ArrivalIsBrought(c: Config, run: seq<Input>)
    requires run != [] && After(c, run[..|run| - 1]).epoch == Epochs(run[..|run| - 1])
    ensures var k := |run| - 1;
            Arrivals(c, run) == Arrivals(c, run[..k]) + Brought(After(c, run[..k]), After(c, run), run[k])
  {
    hide Step, ReplayRuns.Last;
    var k := |run| - 1;
    ReplayRuns.FilterIsTheLastTags(c, run[..k]);
    ReplayRuns.FilterIsTheLastTags(c, run);
  }

  // ----- Whole runs -----

  lemma {:induction false} StepKeeps(c: Config, s: State, input: Input)
    requires Kept(c, s)
    ensures Kept(c, Step(c, s, input).0)
  {
    hide Kept, Cargo, Told, Joins, Waits, Leaves, OnOnion, OnReply, OnDeadline, OnRequest, EmitCover, StartCover, Cells, Notices, MixArms, Mixing;
    match input
    case Timer(CoverToken) => ATickSendsWhatItTakes(c, s);
    case Timer(MixToken(id)) => AMixTimerSendsItsCell(c, s, id);
    case _ => StepServes(c, s, input);
  }

  lemma {:induction false} RunKeeps(c: Config, run: seq<Input>)
    ensures Kept(c, After(c, run))
  {
    hide Step, MaxQueue;
    if run != [] {
      RunKeeps(c, run[..|run| - 1]);
      StepKeeps(c, After(c, run[..|run| - 1]), run[|run| - 1]);
    }
  }

  /** The state before and after input `i`, and what it emitted. */
  ghost function Before(c: Config, run: seq<Input>, i: nat): State
    requires i < |run|
  {
    After(c, run[..i])
  }

  ghost function Then(c: Config, run: seq<Input>, i: nat): (State, seq<Effect>)
    requires i < |run|
  {
    (After(c, run[..i + 1]), Emitted(c, run, i))
  }

  lemma {:induction false} ThenIsStep(c: Config, run: seq<Input>, i: nat)
    requires i < |run|
    ensures Then(c, run, i) == Step(c, Before(c, run, i), run[i])
  {
    hide Step;
    assert run[..i + 1][..i] == run[..i];
  }

  /** What the log says input `i` completed, with the line of the arrival it was for. */
  ghost function Hop(c: Config, run: seq<Input>, i: nat): Option<(Coord, Peeled)>
    requires i < |run|
  {
    match Finished(Before(c, run, i), Then(c, run, i).0)
    case None => None
    case Some((id, outcome)) =>
      var arrivals := Arrivals(c, run[..i + 1]);
      Some((if id < |arrivals| then arrivals[id].line else 0, outcome))
  }

  /** Every input hands to the queues and to the application exactly what the log and the arrivals ask for. */
  lemma {:induction false} EveryHopIsServed(c: Config, run: seq<Input>, i: nat)
    requires i < |run| && !IsRelease(run[i])
    ensures match Hop(c, run, i)
            case None => Hands(c, Before(c, run, i), Then(c, run, i), [], Dropped(c, run[i]))
            case Some((line, outcome)) =>
              Hands(c, Before(c, run, i), Then(c, run, i), Cargo(c, line, outcome), Told(c, line, outcome))
  {
    hide After, Step, Hands, Cargo, Told, Dropped, IsRelease, Emitted, Arrivals, Kept;
    RunKeeps(c, run[..i]);
    ThenIsStep(c, run, i);
    StepServes(c, Before(c, run, i), run[i]);
    if Hop(c, run, i).Some? { TouchedLine(c, run, i); }
  }

  lemma {:induction false} TouchedLine(c: Config, run: seq<Input>, i: nat)
    requires i < |run| && Finished(Before(c, run, i), Then(c, run, i).0).Some?
    requires Finished(Before(c, run, i), Then(c, run, i).0).value.0 == Touched(Before(c, run, i), run[i]).0
    ensures var (id, line) := Touched(Before(c, run, i), run[i]);
            id < |Arrivals(c, run[..i + 1])| && Arrivals(c, run[..i + 1])[id].line == line
  {
    hide After, Emitted, Arrivals;
    var before, upTo := run[..i], run[..i + 1];
    assert upTo[..|upTo| - 1] == before;
    GathersAreForTheirArrivals(c, before);
    GathersAreForTheirArrivals(c, upTo);
    ArrivalIsBrought(c, upTo);
    FinishedHow(c, run, i);
  }

  /** Only an onion that opened a gather, or a reply to a pending one, completes a gather. */
  lemma {:induction false} FinishedHow(c: Config, run: seq<Input>, i: nat)
    requires i < |run| && Finished(Before(c, run, i), Then(c, run, i).0).Some?
    ensures var s, t := Before(c, run, i), Then(c, run, i).0;
            match run[i]
            case OnionFrame(_, _) => t.nextId > s.nextId
            case ReplyFrame(id, _) => id in s.pending && id < |Arrivals(c, run[..i])| && IsFor(c, Arrivals(c, run[..i])[id], s.pending[id])
            case _ => false
  {
    hide After, Emitted, IsFor, Arrivals, Step;
    ThenIsStep(c, run, i);
    GathersAreForTheirArrivals(c, run[..i]);
    FinishingStep(c, Before(c, run, i), run[i]);
  }

  lemma {:induction false} FinishingStep(c: Config, s: State, input: Input)
    requires Finished(s, Step(c, s, input).0).Some?
    ensures match input
            case OnionFrame(_, _) => Step(c, s, input).0.nextId > s.nextId
            case ReplyFrame(id, _) => id in s.pending
            case _ => false
  {
    hide TryPeel, EmitCover, StartCover, OnRequest, Remember, OpenGather, Requests;
    CoverKeepsGathers(c, s);
    match input
    case OnionFrame(line, onion) =>
      var (s1, isNew) := Admit(s, c.tag(onion));
      if isNew {
        OpeningIs(c, s1, line, onion);
        PeelKeepsNext(c, OpenGather(c, s1, line, onion), s1.nextId);
      }
    case ReplyFrame(id, share) =>
    case RequestFrame(_, _, _, _) =>
    case DropFrame(_, _, _) =>
    case Undecodable =>
    case Timer(_) =>
    case StartHeartbeat =>
    case Launch(_, _) =>
    case AdvanceEpoch =>
    case OtherCommand =>
  }

  lemma {:induction false} ReleaseFinishesNothing(c: Config, run: seq<Input>, i: nat)
    requires i < |run| && IsRelease(run[i])
    ensures Hop(c, run, i).None? && Notices(Emitted(c, run, i)) == [] && MixArms(Emitted(c, run, i)) == []
  {
    hide After, Step, Kept, Cells, Notices, MixArms, Mixing, EmitCover, Arrivals, TakesOut;
    RunKeeps(c, run[..i]);
    ThenIsStep(c, run, i);
    ReleaseIs(c, Before(c, run, i), run[i]);
  }

  lemma {:induction false} ReleaseIs(c: Config, s: State, input: Input)
    requires Kept(c, s) && IsRelease(input)
    ensures var (t, effects) := Step(c, s, input);
            t.books.closed == s.books.closed && Notices(effects) == [] && MixArms(effects) == []
  {
    hide Kept, Cells, Notices, MixArms, Mixing, EmitCover, TakesOut;
    match input.token
    case CoverToken => ATickSendsWhatItTakes(c, s);
    case MixToken(id) => AMixTimerSendsItsCell(c, s, id);
  }

  /**
   What the application is told, at every input of every run.  A delivery whose path check fails is told to nobody;
   one that passes is told as it is, or as the body of its dead drop if we are on the line; a forward tells nothing;
   and beyond completed gathers only a dead-drop frame for a line of ours is told.
   */
  lemma {:induction false} TheApplicationIsTold(c: Config, run: seq<Input>, i: nat)
    requires i < |run|
    ensures var notices := Notices(Emitted(c, run, i));
            match Hop(c, run, i)
            case None => notices == Dropped(c, run[i])
            case Some((line, Forward(_, _))) => notices == []
            case Some((line, Deliver(payload, holonomy))) =>
              if !c.verified(holonomy) then notices == []
              else if c.deaddrop(payload).None? then notices == [payload]
              else |notices| == multiset(c.members(line))[c.me]
                   && forall k :: 0 <= k < |notices| ==> notices[k] == c.deaddrop(payload).value
  {
    hide After, Step, Emitted, Notices, Hop, Cargo, OwnCopies, IsRelease;
    if IsRelease(run[i]) {
      ReleaseFinishesNothing(c, run, i);
      assert Dropped(c, run[i]) == [] by { ReleaseIsNoDrop(c, run[i]); }
    } else {
      EveryHopIsServed(c, run, i);
      match Hop(c, run, i)
      case Some((line, Deliver(payload, holonomy))) =>
        if c.deaddrop(payload).Some? { DropIsForUs(c, c.deaddrop(payload).value, c.members(line)); }
      case _ =>
    }
  }

  lemma {:induction false} ReleaseIsNoDrop(c: Config, input: Input)
    requires IsRelease(input)
    ensures Dropped(c, input) == []
  {
  }

  /**
   A hop that peels to a forward hands exactly one cell to the queues, for the next line, to a member of it, whose bytes
   begin with the peeled onion; or none, if that line has no members.
   */
  lemma {:induction false} AForwardLeavesAsOneCell(c: Config, run: seq<Input>, i: nat)
    requires i < |run| && Hop(c, run, i).Some? && Hop(c, run, i).value.1.Forward?
    ensures var Forward(next, onion) := Hop(c, run, i).value.1;
            if c.members(next) == [] then Hands(c, Before(c, run, i), Then(c, run, i), [], [])
            else exists q: Queued ::
              && q.to in c.members(next) && q.cell.OnionCell? && q.cell.line == next && onion <= q.cell.onion
              && Hands(c, Before(c, run, i), Then(c, run, i), [q], [])
  {
    hide After, Step, Emitted, Hop, Hands, Cargo, IsRelease;
    if IsRelease(run[i]) { ReleaseFinishesNothing(c, run, i); }
    EveryHopIsServed(c, run, i);
    var (line, outcome) := Hop(c, run, i).value;
    ForwardIsOneCell(c, line, outcome.next, outcome.onion);
    var cells := Cargo(c, line, outcome);
    if cells != [] { assert cells == [cells[0]]; }
  }

  // ----- Conservation, cell by cell -----

  /** The cells that input `i` asks to forward. */
  ghost function Asked(c: Config, run: seq<Input>, i: nat): seq<Queued>
    requires i < |run|
  {
    match Hop(c, run, i) case None => [] case Some((line, outcome)) => Cargo(c, line, outcome)
  }

  /** The cells input `i` sends, but for a cover cell, which is what a tick sends when nothing waits. */
  ghost function Sent(c: Config, run: seq<Input>, i: nat): multiset<Queued>
    requires i < |run|
  {
    if run[i] == Timer(CoverToken) && Before(c, run, i).outbox == [] then multiset{}
    else multiset(Cells(Emitted(c, run, i)))
  }

  /** The cells given up: the oldest of a full outbox, or those a full mixing queue refuses. */
  ghost function GivenUp(c: Config, s: State, cells: seq<Queued>): multiset<Queued> {
    if c.coverInterval != 0 then
      var all := s.outbox + cells;
      if |all| <= Cap(c) then multiset{} else multiset(all[..|all| - Cap(c)])
    else if c.meanDelay == 0 then multiset{}
    else multiset(cells[Taken(c, s, cells)..])
  }

  ghost function Held(s: State): multiset<Queued> { multiset(s.outbox) + Mixing(s.mix, s.mixSeq) }

  lemma {:induction false} NewestSplits(cells: seq<Queued>, n: nat)
    ensures multiset(cells) == multiset(Newest(cells, n)) + (if |cells| <= n then multiset{} else multiset(cells[..|cells| - n]))
  {
    if |cells| > n { assert cells == cells[..|cells| - n] + cells[|cells| - n..]; }
  }

  lemma {:induction false} HandingConserves(c: Config, s: State, after: (State, seq<Effect>), cells: seq<Queued>, notices: seq<Bytes>)
    requires Kept(c, s) && Hands(c, s, after, cells, notices)
    ensures multiset(cells) + Held(s) == Held(after.0) + multiset(Cells(after.1)) + GivenUp(c, s, cells)
    ensures after.0.books.shed == s.books.shed + |GivenUp(c, s, cells)|
  {
    hide Cells, Notices, MixArms, Mixing, MaxQueue, Mixes, Newest, Taken, Cap, Upwards;
    if c.coverInterval != 0 {
      JoiningConserves(c, s, cells);
      assert multiset(Cells(after.1)) == multiset{};
      assert multiset(cells) + Held(s) == multiset(s.outbox) + multiset(cells) + Mixing(s.mix, s.mixSeq);
    } else if c.meanDelay != 0 {
      var n := Taken(c, s, cells);
      assert cells == cells[..n] + cells[n..];
      MixingMore(s.mix, s.mixSeq, after.0.mix, cells[..n], n);
      assert cells[..n][..n] == cells[..n];
    }
  }

  lemma {:induction false} JoiningConserves(c: Config, s: State, cells: seq<Queued>)
    requires c.coverInterval != 0
    ensures multiset(s.outbox) + multiset(cells) == multiset(Newest(s.outbox + cells, Cap(c))) + GivenUp(c, s, cells)
    ensures |GivenUp(c, s, cells)| == |s.outbox| + |cells| - |Newest(s.outbox + cells, Cap(c))|
  {
    NewestSplits(s.outbox + cells, Cap(c));
  }

  lemma {:induction false} InputConserves(c: Config, run: seq<Input>, i: nat)
    requires i < |run|
    ensures var s, t, cells := Before(c, run, i), Then(c, run, i).0, Asked(c, run, i);
            && multiset(cells) + Held(s) == Held(t) + Sent(c, run, i) + GivenUp(c, s, cells)
            && t.books.shed == s.books.shed + |GivenUp(c, s, cells)|
  {
    hide After, Step, Emitted, Hop, Hands, Cargo, IsRelease, GivenUp, Held, Kept, Cells;
    RunKeeps(c, run[..i]);
    if IsRelease(run[i]) {
      ReleaseFinishesNothing(c, run, i);
      ReleaseConserves(c, run, i);
    } else {
      EveryHopIsServed(c, run, i);
      HandingConserves(c, Before(c, run, i), Then(c, run, i), Asked(c, run, i), Notices(Emitted(c, run, i))) by {
        HandsNotices(c, Before(c, run, i), Then(c, run, i), Asked(c, run, i));
      }
      assert run[i] != Timer(CoverToken) by { ReleaseIsNot(run[i]); }
    }
  }

  lemma {:induction false} ReleaseIsNot(input: Input)
    requires !IsRelease(input)
    ensures input != Timer(CoverToken)
  {
  }

  lemma {:induction false} HandsNotices(c: Config, s: State, after: (State, seq<Effect>), cells: seq<Queued>)
    requires exists notices :: Hands(c, s, after, cells, notices)
    ensures Hands(c, s, after, cells, Notices(after.1))
  {
    hide Joins, Leaves, Waits, Kept, Notices;
  }

  lemma {:induction false} ReleaseConserves(c: Config, run: seq<Input>, i: nat)
    requires i < |run| && IsRelease(run[i]) && Kept(c, Before(c, run, i))
    ensures var s, t := Before(c, run, i), Then(c, run, i).0;
            && multiset([]) + Held(s) == Held(t) + Sent(c, run, i) + GivenUp(c, s, [])
            && t.books.shed == s.books.shed + |GivenUp(c, s, [])|
  {
    hide After, Step, Emitted, Mixing, Cells, Notices, MixArms, EmitCover, TakesOut, Kept;
    var s := Before(c, run, i);
    ThenIsStep(c, run, i);
    NothingGivenUp(c, s);
    match run[i].token
    case CoverToken => TickConserves(c, s);
    case MixToken(id) => AMixTimerSendsItsCell(c, s, id);
  }

  lemma {:induction false} TickConserves(c: Config, s: State)
    requires Kept(c, s)
    ensures var (t, effects) := Step(c, s, Timer(CoverToken));
            && Held(s) == Held(t) + (if s.outbox == [] then multiset{} else multiset(Cells(effects)))
            && t.books.shed == s.books.shed
  {
    hide Mixing, Cells, Notices, MixArms, EmitCover, TakesOut, Kept;
    ATickSendsWhatItTakes(c, s);
    var effects := EmitCover(c, s).1;
    if s.outbox != [] { assert Cells(effects) == [Cells(effects)[0]]; }
  }

  lemma {:induction false} NothingGivenUp(c: Config, s: State)
    requires Kept(c, s)
    ensures GivenUp(c, s, []) == multiset{}
  {
    hide MaxQueue;
    assert s.outbox + [] == s.outbox;
  }

  ghost function AllAsked(c: Config, run: seq<Input>, n: nat): multiset<Queued>
    requires n <= |run|
  {
    if n == 0 then multiset{} else AllAsked(c, run, n - 1) + multiset(Asked(c, run, n - 1))
  }

  ghost function AllSent(c: Config, run: seq<Input>, n: nat): multiset<Queued>
    requires n <= |run|
  {
    if n == 0 then multiset{} else AllSent(c, run, n - 1) + Sent(c, run, n - 1)
  }

  ghost function AllGivenUp(c: Config, run: seq<Input>, n: nat): multiset<Queued>
    requires n <= |run|
  {
    if n == 0 then multiset{} else AllGivenUp(c, run, n - 1) + GivenUp(c, Before(c, run, n - 1), Asked(c, run, n - 1))
  }

  /**
   Conservation of the cells themselves.  After any part of any run, the cells that completed hops asked to forward are
   those sent, those still queued and those given up, each with its destination and as often as it was asked for.
   */
  lemma {:induction false} CellsAreConserved(c: Config, run: seq<Input>, n: nat)
    requires n <= |run|
    ensures AllAsked(c, run, n) == AllSent(c, run, n) + Held(After(c, run[..n])) + AllGivenUp(c, run, n)
    ensures After(c, run[..n]).books.shed == |AllGivenUp(c, run, n)|
    decreases n
  {
    hide Step, After, Asked, Sent, GivenUp, Held;
    if n == 0 {
      NothingHeld(c, run);
    } else {
      CellsAreConserved(c, run, n - 1);
      InputConserves(c, run, n - 1);
      var s, t := Before(c, run, n - 1), Then(c, run, n - 1).0;
      var cells := Asked(c, run, n - 1);
      Regroup(AllAsked(c, run, n - 1), AllSent(c, run, n - 1), Held(s), AllGivenUp(c, run, n - 1),
              multiset(cells), Sent(c, run, n - 1), Held(t), GivenUp(c, s, cells));
    }
  }

  lemma {:induction false} Regroup(
    asked: multiset<Queued>, sent: multiset<Queued>, held: multiset<Queued>, given: multiset<Queued>,
    asks: multiset<Queued>, sends: multiset<Queued>, holds: multiset<Queued>, gives: multiset<Queued>)
    requires asked == sent + held + given && asks + held == holds + sends + gives
    ensures asked + asks == (sent + sends) + holds + (given + gives)
  {
    calc {
      asked + asks;
      sent + (asks + held) + given;
      sent + (holds + sends + gives) + given;
      (sent + sends) + holds + (given + gives);
    }
  }

  lemma {:induction false} NothingHeld(c: Config, run: seq<Input>)
    ensures Held(After(c, run[..0])) == multiset{} && After(c, run[..0]).books.shed == 0
  {
  }

  // ----- Every cell that waits will be released -----

  /** A timer was armed and has not fired since. */
  ghost predicate Outstanding(c: Config, run: seq<Input>, n: nat, token: Token)
    requires n <= |run|
  {
    n > 0 && (Arm(token) in Emitted(c, run, n - 1) || (run[n - 1] != Timer(token) && Outstanding(c, run, n - 1, token)))
  }

  lemma {:induction false} ArmsAreListed(effects: seq<Effect>, id: nat)
    ensures Arm(MixToken(id)) in effects <==> id in MixArms(effects)
    decreases |effects|
  {
    if effects != [] {
      var k := |effects| - 1;
      assert effects == effects[..k] + [effects[k]];
      ArmsAreListed(effects[..k], id);
    }
  }

  lemma {:induction false} UpwardsHas(first: nat, n: nat, id: nat)
    ensures id in Upwards(first, n) <==> first <= id < first + n
    decreases n
  {
    if n > 0 { UpwardsHas(first, n - 1, id); }
  }

  lemma {:induction false} HandingArms(c: Config, s: State, after: (State, seq<Effect>), cells: seq<Queued>, notices: seq<Bytes>, id: nat)
    requires Kept(c, s) && Hands(c, s, after, cells, notices)
    ensures id in after.0.mix <==> id in s.mix || Arm(MixToken(id)) in after.1
  {
    hide Cells, Notices, MixArms, MaxQueue, Taken, Upwards;
    ArmsAreListed(after.1, id);
    if c.coverInterval == 0 && c.meanDelay != 0 { UpwardsHas(s.mixSeq + 1, Taken(c, s, cells), id); }
  }

  /** A cell waits in the mixing queue if and only if its timer is armed and has not fired. */
  lemma {:induction false} EveryMixedCellIsTimed(c: Config, run: seq<Input>, n: nat, id: nat)
    requires n <= |run|
    ensures id in After(c, run[..n]).mix <==> Outstanding(c, run, n, MixToken(id))
    decreases n
  {
    hide Step, After, Emitted, Kept, Hands, Cargo, Told, Cells, Notices, MixArms, Mixing, IsRelease, Hop;
    if n == 0 {
      NothingMixed(c, run);
    } else {
      EveryMixedCellIsTimed(c, run, n - 1, id);
      RunKeeps(c, run[..n - 1]);
      if IsRelease(run[n - 1]) {
        ReleaseArms(c, run, n - 1, id);
      } else {
        EveryHopIsServed(c, run, n - 1);
        HandsNotices(c, Before(c, run, n - 1), Then(c, run, n - 1), Asked(c, run, n - 1));
        HandingArms(c, Before(c, run, n - 1), Then(c, run, n - 1), Asked(c, run, n - 1), Notices(Emitted(c, run, n - 1)), id);
        assert run[n - 1] != Timer(MixToken(id)) by { ReleaseIsNotMix(run[n - 1], id); }
      }
    }
  }

  lemma {:induction false} ReleaseIsNotMix(input: Input, id: nat)
    requires !IsRelease(input)
    ensures input != Timer(MixToken(id))
  {
  }

  lemma {:induction false} NothingMixed(c: Config, run: seq<Input>)
    ensures After(c, run[..0]).mix == map[]
  {
  }

  lemma {:induction false} ReleaseArms(c: Config, run: seq<Input>, i: nat, id: nat)
    requires i < |run| && IsRelease(run[i]) && Kept(c, Before(c, run, i))
    ensures id in Then(c, run, i).0.mix <==> id in Before(c, run, i).mix && run[i] != Timer(MixToken(id))
    ensures Arm(MixToken(id)) !in Emitted(c, run, i)
  {
    hide After, Emitted, Mixing, Cells, Notices, MixArms, EmitCover, TakesOut, Kept;
    ThenIsStep(c, run, i);
    ReleaseFinishesNothing(c, run, i);
    ArmsAreListed(Emitted(c, run, i), id);
    match run[i].token
    case CoverToken => ATickSendsWhatItTakes(c, Before(c, run, i));
    case MixToken(other) => AMixTimerSendsItsCell(c, Before(c, run, i), other);
  }
}
