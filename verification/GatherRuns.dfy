/**
 What the router's gathers keep over every run of inputs: every issued id is pending or ended exactly once,
 no pending hop could already be peeled, and no reply takes anything away from a pending hop.
 */
module GatherRuns {
  import opened Symbolic
  import opened PeelSearch
  import opened Budget
  import opened Router
  import LeastNumber

  // ----- Emission leaves the gathers alone -----

  predicate SameGathers(s: State, t: State) {
    && s.pending == t.pending && s.resolved == t.resolved && s.nextId == t.nextId
    && s.replaySeen == t.replaySeen && s.replayOrder == t.replayOrder && s.epoch == t.epoch
    && s.books.closed == t.books.closed
  }

  lemma {:induction false} SendKeepsGathers(c: Config, s: State, to: Coord, cell: Cell)
    ensures SameGathers(s, ForwardSend(c, s, to, cell).0)
  {
  }

  lemma {:induction false} DropKeepsGathers(c: Config, s: State, line: Coord, body: Bytes, members: seq<Coord>)
    ensures SameGathers(s, DeadDrop(c, s, line, body, members).0)
  {
    hide ForwardSend;
    if members != [] {
      var k := |members| - 1;
      DropKeepsGathers(c, s, line, body, members[..k]);
      SendKeepsGathers(c, DeadDrop(c, s, line, body, members[..k]).0, members[k], DropCell(line, body));
    }
  }

  lemma {:induction false} ActKeepsGathers(c: Config, s: State, line: Coord, peeled: Peeled)
    ensures SameGathers(s, ActOn(c, s, line, peeled).0)
  {
    hide ForwardSend, DeadDrop, Padded, Gatherer;
    match peeled
    case Deliver(payload, holonomy) =>
      var body := c.deaddrop(payload);
      if body.Some? { DropKeepsGathers(c, s, line, body.value, c.members(line)); }
    case Forward(next, onion) =>
      var padded := Padded(c, onion);
      var to := Gatherer(c, next, padded);
      if to.Some? { SendKeepsGathers(c, s, to.value, OnionCell(next, padded)); }
  }

  /** A peel attempt resolves the gather, or changes nothing because its shares do not peel. */
  lemma {:induction false} PeelAttempt(c: Config, s: State, id: nat)
    requires id in s.pending
    ensures var (t, done) := TryPeel(c, s, id);
            match Peels(c, s.pending[id])
            case None => t == s && done.None?
            case Some(peeled) => SameGathers(Complete(c, s, id, peeled), t) && done.Some?
  {
    hide ActOn, Complete, Peels;
    match Peels(c, s.pending[id])
    case None =>
    case Some(peeled) => ActKeepsGathers(c, Complete(c, s, id, peeled), s.pending[id].line, peeled);
  }

  lemma {:induction false} CoverKeepsGathers(c: Config, s: State)
    ensures SameGathers(s, StartCover(c, s).0)
    ensures SameGathers(s, EmitCover(c, s).0)
  {
    hide Draw, Gatherer;
    assert SameGathers(s, SlotCell(c, s).0);
  }

  // ----- Conservation -----

  predicate Ended(log: seq<(nat, Closing)>, id: nat) {
    exists k :: 0 <= k < |log| && log[k].0 == id
  }

  predicate EndedOnce(log: seq<(nat, Closing)>) {
    forall j, k :: 0 <= j < k < |log| ==> log[j].0 != log[k].0
  }

  /** Every issued id is pending or has ended, never both, and has ended at most once. */
  ghost predicate Ledger(s: State) {
    && (forall id :: id in s.pending ==> id < s.nextId && !Ended(s.books.closed, id))
    && (forall k :: 0 <= k < |s.books.closed| ==> s.books.closed[k].0 < s.nextId)
    && (forall id :: 0 <= id < s.nextId ==> id in s.pending || Ended(s.books.closed, id))
    && EndedOnce(s.books.closed)
    && |s.pending| + |s.books.closed| == s.nextId
  }

  /** No pending gather could already be peeled. */
  ghost predicate Unpeeled(c: Config, s: State) {
    forall id :: id in s.pending ==> Peels(c, s.pending[id]).None?
  }

  lemma {:induction false} ClosingKeepsLedger(s: State, t: State, id: nat, how: Closing)
    requires Ledger(s) && id in s.pending
    requires t.pending == s.pending - {id} && t.nextId == s.nextId
    requires t.books.closed == s.books.closed + [(id, how)]
    ensures Ledger(t)
  {
    var log, log' := s.books.closed, t.books.closed;
    assert log'[|log|] == (id, how);
    forall i: nat
      ensures Ended(log', i) <==> Ended(log, i) || i == id
    {
      if Ended(log, i) {
        var k :| 0 <= k < |log| && log[k].0 == i;
        assert log'[k].0 == i;
      }
    }
    forall k | 0 <= k < |log|
      ensures log'[k].0 != id
    {
      assert Ended(log, log[k].0);
    }
    assert t.pending.Keys == s.pending.Keys - {id};
    assert |t.pending| == |t.pending.Keys| && |s.pending| == |s.pending.Keys|;
  }

  lemma {:induction false} OpeningKeepsLedger(s: State, t: State, p: Pending)
    requires Ledger(s)
    requires t.pending == s.pending[s.nextId := p] && t.nextId == s.nextId + 1 && t.books.closed == s.books.closed
    ensures Ledger(t)
  {
    assert !Ended(s.books.closed, s.nextId);
    assert s.nextId !in s.pending;
    assert t.pending.Keys == s.pending.Keys + {s.nextId};
    assert |t.pending| == |t.pending.Keys| && |s.pending| == |s.pending.Keys|;
  }

  lemma {:induction false} TakingKeepsLedger(s: State, t: State, id: nat, p: Pending)
    requires Ledger(s) && id in s.pending
    requires t.pending == s.pending[id := p] && t.nextId == s.nextId && t.books.closed == s.books.closed
    ensures Ledger(t)
  {
    assert t.pending.Keys == s.pending.Keys;
    assert |t.pending| == |t.pending.Keys| && |s.pending| == |s.pending.Keys|;
  }

  lemma {:induction false} SameGathersKeepsLedger(s: State, t: State)
    requires Ledger(s) && SameGathers(s, t)
    ensures Ledger(t)
  {
  }

  ghost predicate Sound(c: Config, s: State) {
    Ledger(s) && Unpeeled(c, s)
  }

  /** Peeling restores soundness when only the gather just touched could peel. */
  lemma {:induction false} PeelingIsSound(c: Config, s: State, id: nat)
    requires Ledger(s) && id in s.pending
    requires forall other :: other in s.pending && other != id ==> Peels(c, s.pending[other]).None?
    ensures Sound(c, TryPeel(c, s, id).0)
  {
    hide TryPeel, Peels, Ledger, Remember;
    PeelAttempt(c, s, id);
    match Peels(c, s.pending[id])
    case None =>
    case Some(peeled) =>
      var t := Complete(c, s, id, peeled);
      ClosingKeepsLedger(s, t, id, Completed(peeled));
      SameGathersKeepsLedger(t, TryPeel(c, s, id).0);
  }

  lemma {:induction false} RoomIsSound(c: Config, s: State)
    requires Sound(c, s)
    ensures Sound(c, MakeRoom(c, s))
    ensures MakeRoom(c, s).nextId == s.nextId
  {
    hide Ledger, Peels, MaxPending;
    var t := MakeRoom(c, s);
    if t != s { ClosingKeepsLedger(s, t, LeastNumber.Least(s.pending.Keys), Evicted); }
  }

  lemma {:induction false} OnionIsSound(c: Config, s: State, line: Coord, onion: Bytes)
    requires Sound(c, s)
    ensures Sound(c, OnOnion(c, s, line, onion).0)
  {
    hide TryPeel, Peels, Ledger, MakeRoom, OwnShares, Requests;
    var (s1, isNew) := Admit(s, c.tag(onion));
    SameTableKeepsLedger(s, s1);
    if isNew {
      RoomIsSound(c, s1);
      var roomy := MakeRoom(c, s1);
      var s2 := OpenGather(c, s1, line, onion);
      OpeningKeepsLedger(roomy, s2, s2.pending[s1.nextId]);
      PeelingIsSound(c, s2, s1.nextId);
    }
  }

  lemma {:induction false} SameTableKeepsLedger(s: State, t: State)
    requires Ledger(s)
    requires s.pending == t.pending && s.nextId == t.nextId && s.books.closed == t.books.closed
    ensures Ledger(t)
  {
  }

  lemma {:induction false} ReplyIsSound(c: Config, s: State, id: nat, share: Share)
    requires Sound(c, s)
    ensures Sound(c, OnReply(c, s, id, share).0)
  {
    hide TryPeel, Peels, Ledger, Takes;
    if id in s.pending && Takes(s.pending[id], share) {
      var p := s.pending[id].(shares := s.pending[id].shares + [share]);
      var s1 := s.(pending := s.pending[id := p]);
      TakingKeepsLedger(s, s1, id, p);
      PeelingIsSound(c, s1, id);
    }
  }

  lemma {:induction false} DeadlineIsSound(c: Config, s: State, id: nat)
    requires Sound(c, s)
    ensures Sound(c, OnDeadline(c, s, id))
  {
    hide Peels, Ledger, Remember;
    var t := OnDeadline(c, s, id);
    if id in s.pending { ClosingKeepsLedger(s, t, id, t.books.closed[|s.books.closed|].1); }
  }

  lemma {:induction false} StepIsSound(c: Config, s: State, input: Input)
    requires Sound(c, s)
    ensures Sound(c, Step(c, s, input).0)
  {
    hide OnOnion, OnReply, OnDeadline, EmitCover, StartCover, Ledger, Peels, OnRequest;
    var t := Step(c, s, input).0;
    match input
    case OnionFrame(line, onion) => OnionIsSound(c, s, line, onion);
    case ReplyFrame(id, share) => ReplyIsSound(c, s, id, share);
    case Timer(GatherToken(id)) => DeadlineIsSound(c, s, id);
    case Timer(CoverToken) =>
      CoverKeepsGathers(c, s);
      SameTableKeepsLedger(s, t);
    case StartHeartbeat =>
      CoverKeepsGathers(c, s);
      SameTableKeepsLedger(s, t);
    case RequestFrame(_, _, _, _) =>
    case DropFrame(_, _, _) =>
    case Undecodable =>
    case Timer(MixToken(id)) => SameTableKeepsLedger(s, t);
    case Launch(_, _) =>
    case AdvanceEpoch => SameTableKeepsLedger(s, t);
    case OtherCommand =>
  }

  lemma {:induction false} RunIsSound(c: Config, run: seq<Input>)
    ensures Sound(c, After(c, run))
  {
    hide Step, Peels;
    if run != [] {
      RunIsSound(c, run[..|run| - 1]);
      StepIsSound(c, After(c, run[..|run| - 1]), run[|run| - 1]);
    }
  }

  function Tally(log: seq<(nat, Closing)>, kind: Closing -> bool): nat {
    if log == [] then 0 else Tally(log[..|log| - 1], kind) + if kind(log[|log| - 1].1) then 1 else 0
  }

  const COMPLETED := (how: Closing) => how.Completed?
  const EXPIRED := (how: Closing) => how.Expired?
  const UNPEELABLE := (how: Closing) => how.Unpeelable?
  const EVICTED := (how: Closing) => how.Evicted?

  lemma {:induction false} TalliesCoverTheLog(log: seq<(nat, Closing)>)
    ensures |log| == Tally(log, COMPLETED) + Tally(log, EXPIRED) + Tally(log, UNPEELABLE) + Tally(log, EVICTED)
  {
    if log != [] { TalliesCoverTheLog(log[..|log| - 1]); }
  }

  /** Ids issued = still pending + completed + expired + unpeelable + evicted, in every reachable state. */
  lemma {:induction false} GathersAreConserved(c: Config, run: seq<Input>)
    ensures var s := After(c, run);
            var log := s.books.closed;
            && Ledger(s)
            && s.nextId == |s.pending| + Tally(log, COMPLETED) + Tally(log, EXPIRED)
                           + Tally(log, UNPEELABLE) + Tally(log, EVICTED)
  {
    hide After, Tally;
    RunIsSound(c, run);
    TalliesCoverTheLog(After(c, run).books.closed);
  }

  // ----- What one step does to one pending gather -----

  /** A gather's candidates once an input has been offered to it. */
  function Offered(p: Pending, id: nat, input: Input): Pending {
    if input.ReplyFrame? && input.id == id && 1 + |input.share.y| == SHARE_LEN && Takes(p, input.share)
    then p.(shares := p.shares + [input.share]) else p
  }

  /** An onion frame of the plane's width. */
  predicate IsOnion(c: Config, input: Input) { input.OnionFrame? && |input.onion| == OnionLen(c.lineSize) }

  /** How an input ends gather `id`; a gather is evicted only from a full table, as the oldest in it. */
  ghost predicate Ends(c: Config, s: State, id: nat, input: Input, how: Closing)
    requires id in s.pending
  {
    var p := s.pending[id];
    match how
    case Completed(outcome) => input.ReplyFrame? && input.id == id && Peels(c, Offered(p, id, input)) == Some(outcome)
    case Evicted =>
      IsOnion(c, input) && |s.pending| >= MaxPending(c.lineSize) && LeastNumber.IsLeast(id, s.pending.Keys)
    case Expired => input == Timer(GatherToken(id)) && |p.shares| < c.threshold
    case Unpeelable => input == Timer(GatherToken(id)) && |p.shares| >= c.threshold
  }

  /** The log grows by entries for gathers that were pending (or opened by this very input). */
  ghost predicate Follows(c: Config, s: State, t: State, id: nat, input: Input)
    requires id in s.pending
  {
    && s.books.closed <= t.books.closed
    && if id in t.pending then t.pending[id] == Offered(s.pending[id], id, input)
       else exists how :: (id, how) in t.books.closed && Ends(c, s, id, input, how)
  }

  lemma {:induction false} RoomFollows(c: Config, s: State, id: nat)
    requires id in s.pending
    ensures var t := MakeRoom(c, s);
            && s.books.closed <= t.books.closed
            && if id in t.pending then t.pending[id] == s.pending[id]
               else (id, Evicted) in t.books.closed && |s.pending| >= MaxPending(c.lineSize) && LeastNumber.IsLeast(id, s.pending.Keys)
  {
    hide MaxPending;
    var t := MakeRoom(c, s);
    if id !in t.pending { assert t.books.closed == s.books.closed + [(id, Evicted)]; }
  }

  lemma {:induction false} PeelFollows(c: Config, s: State, id: nat, other: nat)
    requires id in s.pending && other != id
    ensures var t := TryPeel(c, s, id).0;
            && s.books.closed <= t.books.closed
            && (other in t.pending <==> other in s.pending)
            && (other in t.pending ==> t.pending[other] == s.pending[other])
  {
    hide TryPeel, Peels, Remember;
    PeelAttempt(c, s, id);
  }

  lemma {:induction false} OnionFollows(c: Config, s: State, id: nat, line: Coord, onion: Bytes)
    requires Sound(c, s) && id in s.pending && |onion| == OnionLen(c.lineSize)
    ensures Follows(c, s, OnOnion(c, s, line, onion).0, id, OnionFrame(line, onion))
  {
    hide Peels, OwnShares, Requests, TryPeel, MakeRoom, MaxPending;
    var (s1, isNew) := Admit(s, c.tag(onion));
    if isNew {
      assert id != s1.nextId;
      RoomFollows(c, s1, id);
      var s2 := OpenGather(c, s1, line, onion);
      PeelFollows(c, s2, s1.nextId, id);
      if id !in s2.pending { assert Ends(c, s, id, OnionFrame(line, onion), Evicted); }
    }
  }

  lemma {:induction false} ReplyFollows(c: Config, s: State, id: nat, to: nat, share: Share)
    requires Sound(c, s) && id in s.pending && 1 + |share.y| == SHARE_LEN
    ensures Follows(c, s, OnReply(c, s, to, share).0, id, ReplyFrame(to, share))
  {
    hide Peels, TryPeel, Takes, Ledger, Unpeeled, Remember;
    if to in s.pending && Takes(s.pending[to], share) {
      var p := s.pending[to].(shares := s.pending[to].shares + [share]);
      var s1 := s.(pending := s.pending[to := p]);
      PeelAttempt(c, s1, to);
      var t := TryPeel(c, s1, to).0;
      if id !in t.pending {
        assert id == to && p == Offered(s.pending[id], id, ReplyFrame(to, share));
        var how := Completed(Peels(c, p).value);
        assert t.books.closed[|s.books.closed|] == (id, how);
        assert Ends(c, s, id, ReplyFrame(to, share), how);
      }
    }
  }

  lemma {:induction false} DeadlineFollows(c: Config, s: State, id: nat, to: nat)
    requires id in s.pending
    ensures Follows(c, s, OnDeadline(c, s, to), id, Timer(GatherToken(to)))
  {
    hide Peels, Remember;
    var t := OnDeadline(c, s, to);
    if id == to {
      var how := t.books.closed[|s.books.closed|].1;
      assert (id, how) in t.books.closed && Ends(c, s, id, Timer(GatherToken(to)), how);
    }
  }

  lemma {:induction false} StepFollows(c: Config, s: State, id: nat, input: Input)
    requires Sound(c, s) && id in s.pending
    ensures Follows(c, s, Step(c, s, input).0, id, input)
  {
    hide OnOnion, OnReply, OnDeadline, EmitCover, StartCover, Sound, Ends, Takes, OnRequest;
    match input
    case OnionFrame(line, onion) => if |onion| == OnionLen(c.lineSize) { OnionFollows(c, s, id, line, onion); }
    case ReplyFrame(to, share) => if 1 + |share.y| == SHARE_LEN { ReplyFollows(c, s, id, to, share); }
    case Timer(GatherToken(to)) => DeadlineFollows(c, s, id, to);
    case Timer(CoverToken) => CoverKeepsGathers(c, s);
    case StartHeartbeat => CoverKeepsGathers(c, s);
    case RequestFrame(_, _, _, _) =>
    case DropFrame(_, _, _) =>
    case Undecodable =>
    case Timer(MixToken(_)) =>
    case Launch(_, _) =>
    case AdvanceEpoch =>
    case OtherCommand =>
  }

  // ----- An id ends once and for all -----

  ghost predicate Grows(s: State, t: State) {
    s.books.closed <= t.books.closed && s.nextId <= t.nextId
  }

  lemma {:induction false} PeelingGrowsTheLog(c: Config, s: State, id: nat)
    requires id in s.pending
    ensures Grows(s, TryPeel(c, s, id).0)
  {
    hide TryPeel, Peels, Remember;
    PeelAttempt(c, s, id);
  }

  lemma {:induction false} RoomGrowsTheLog(c: Config, s: State)
    ensures Grows(s, MakeRoom(c, s))
  {
    hide MaxPending;
  }

  lemma {:induction false} OnionGrowsTheLog(c: Config, s: State, line: Coord, onion: Bytes)
    ensures Grows(s, OnOnion(c, s, line, onion).0)
  {
    hide TryPeel, Requests, OwnShares, MakeRoom;
    var (s1, isNew) := Admit(s, c.tag(onion));
    if isNew {
      RoomGrowsTheLog(c, s1);
      var s2 := OpenGather(c, s1, line, onion);
      assert Grows(s1, s2);
      PeelingGrowsTheLog(c, s2, s1.nextId);
    }
  }

  lemma {:induction false} StepGrowsTheLog(c: Config, s: State, input: Input)
    ensures Grows(s, Step(c, s, input).0)
  {
    hide OnOnion, TryPeel, EmitCover, StartCover, OnRequest, Remember, Takes;
    CoverKeepsGathers(c, s);
    match input
    case OnionFrame(line, onion) => OnionGrowsTheLog(c, s, line, onion);
    case ReplyFrame(id, share) =>
      if id in s.pending {
        PeelingGrowsTheLog(c, s.(pending := s.pending[id := s.pending[id].(shares := s.pending[id].shares + [share])]), id);
      }
    case RequestFrame(_, _, _, _) =>
    case DropFrame(_, _, _) =>
    case Undecodable =>
    case Timer(_) =>
    case StartHeartbeat =>
    case Launch(_, _) =>
    case AdvanceEpoch =>
    case OtherCommand =>
  }

  lemma {:induction false} RunGrowsTheLog(c: Config, run: seq<Input>, more: seq<Input>)
    ensures After(c, run).books.closed <= After(c, run + more).books.closed
    ensures After(c, run).nextId <= After(c, run + more).nextId
    decreases |more|
  {
    hide Step;
    var k := |more| - 1;
    if more == [] {
      assert run + more == run;
    } else {
      assert (run + more)[..|run + more| - 1] == run + more[..k];
      RunGrowsTheLog(c, run, more[..k]);
      StepGrowsTheLog(c, After(c, run + more[..k]), more[k]);
    }
  }

  /**
   A gather that has ended stays ended, the same way, whatever follows: it is never pending again, never ends
   a second time, and its own late shares and stale timers do nothing.
   */
  lemma {:induction false} AnEndIsFinal(c: Config, run: seq<Input>, more: seq<Input>, id: nat, how: Closing)
    requires (id, how) in After(c, run).books.closed
    ensures var t := After(c, run + more);
            && (id, how) in t.books.closed
            && EndedOnce(t.books.closed)
            && id !in t.pending
            && (forall share :: Step(c, t, ReplyFrame(id, share)) == (t, []))
            && Step(c, t, Timer(GatherToken(id))) == (t, [])
  {
    hide After;
    RunGrowsTheLog(c, run, more);
    RunIsSound(c, run + more);
    var log := After(c, run + more).books.closed;
    var k :| 0 <= k < |log| && log[k] == (id, how);
    assert Ended(log, id);
  }

  // ----- Replies never take anything away -----

  /** What a pending gather holds after more inputs, as long as it stays pending. */
  function Collect(p: Pending, id: nat, more: seq<Input>): Pending {
    if more == [] then p else Offered(Collect(p, id, more[..|more| - 1]), id, more[|more| - 1])
  }

  predicate HasDeadline(more: seq<Input>, id: nat) {
    exists i :: 0 <= i < |more| && more[i] == Timer(GatherToken(id))
  }

  /** Input `i` of `more` ended gather `id`, which held exactly what it had collected by then. */
  ghost predicate EndsAt(c: Config, run: seq<Input>, p: Pending, id: nat, more: seq<Input>, i: nat, how: Closing)
    requires i < |more|
  {
    var s := After(c, run + more[..i]);
    id in s.pending && s.pending[id] == Collect(p, id, more[..i]) && Ends(c, s, id, more[i], how)
  }

  ghost predicate EndedDuring(c: Config, run: seq<Input>, p: Pending, id: nat, more: seq<Input>, how: Closing) {
    exists i :: 0 <= i < |more| && EndsAt(c, run, p, id, more, i, how)
  }

  /**
   What becomes of a gather that held `p` after `run`: it is still pending with every candidate it had and each
   share it has taken since, or it has ended by peeling its candidates, by its own deadline, or by eviction.
   */
  ghost predicate PendingOrEnded(c: Config, run: seq<Input>, p: Pending, id: nat, more: seq<Input>) {
    var t := After(c, run + more);
    if id in t.pending then t.pending[id] == Collect(p, id, more)
    else exists how :: (id, how) in t.books.closed && EndedDuring(c, run, p, id, more, how)
  }

  lemma {:induction false} NothingIsTakenAway(c: Config, run: seq<Input>, more: seq<Input>, id: nat)
    requires id in After(c, run).pending
    ensures PendingOrEnded(c, run, After(c, run).pending[id], id, more)
    ensures After(c, run).pending[id].shares <= Collect(After(c, run).pending[id], id, more).shares
    decreases |more|
  {
    hide After, PendingOrEnded, Takes;
    var p := After(c, run).pending[id];
    if more == [] {
      PendingSoFar(c, run, p, id);
    } else {
      NothingIsTakenAway(c, run, more[..|more| - 1], id);
      StillPendingOrEnded(c, run, p, id, more);
    }
  }

  lemma {:induction false} PendingSoFar(c: Config, run: seq<Input>, p: Pending, id: nat)
    requires id in After(c, run).pending && After(c, run).pending[id] == p
    ensures PendingOrEnded(c, run, p, id, [])
  {
    hide After, EndedDuring;
    assert run + [] == run;
  }

  lemma {:induction false} EndedEarlier(c: Config, run: seq<Input>, p: Pending, id: nat, more: seq<Input>, how: Closing)
    requires more != [] && EndedDuring(c, run, p, id, more[..|more| - 1], how)
    ensures EndedDuring(c, run, p, id, more, how)
  {
    hide Ends, Collect, After;
    var shorter := more[..|more| - 1];
    var i :| 0 <= i < |shorter| && EndsAt(c, run, p, id, shorter, i, how);
    assert shorter[..i] == more[..i];
    assert EndsAt(c, run, p, id, more, i, how);
  }

  lemma {:induction false} StillPendingOrEnded(c: Config, run: seq<Input>, p: Pending, id: nat, more: seq<Input>)
    requires more != [] && PendingOrEnded(c, run, p, id, more[..|more| - 1])
    ensures PendingOrEnded(c, run, p, id, more)
  {
    hide Step, Ends, Sound, After, Offered, EndedDuring;
    var k := |more| - 1;
    var before, input := run + more[..k], more[k];
    var s := After(c, before);
    assert before + [input] == run + more;
    OneMore(c, before, input);
    RunIsSound(c, before);
    var t := Step(c, s, input).0;
    if id in s.pending {
      StepFollows(c, s, id, input);
      if id !in t.pending {
        var how :| (id, how) in t.books.closed && Ends(c, s, id, input, how);
        EndedLast(c, run, p, id, more, how);
      }
    } else {
      var how :| (id, how) in s.books.closed && EndedDuring(c, run, p, id, more[..k], how);
      EndedEarlier(c, run, p, id, more, how);
      AnEndIsFinal(c, before, [input], id, how);
    }
  }

  lemma {:induction false} EndedLast(c: Config, run: seq<Input>, p: Pending, id: nat, more: seq<Input>, how: Closing)
    requires more != [] && EndsAt(c, run, p, id, more, |more| - 1, how)
    ensures EndedDuring(c, run, p, id, more, how)
  {
    hide EndsAt;
  }

  lemma {:induction false} OneMore(c: Config, before: seq<Input>, input: Input)
    ensures After(c, before + [input]) == Step(c, After(c, before), input).0
  {
    hide Step;
    var run := before + [input];
    assert run[..|run| - 1] == before;
  }

  // ----- Forged shares cannot keep a hop from peeling -----

  predicate DistinctIndices(good: set<Share>) {
    forall a, b :: a in good && b in good && a != b ==> a.x != b.x
  }

  /**
   `good` are genuine shares of the hop and `genuine` its outcome: `t` of them with distinct indices peel in
   any order, and no set of shares peels to anything else.
   */
  ghost predicate Genuine(c: Config, onion: Bytes, good: set<Share>, genuine: Peeled) {
    && DistinctIndices(good)
    && (forall shares :: c.peel(onion, shares).Some? ==> c.peel(onion, shares) == Some(genuine))
    && (forall shares :: IsQuorum(shares, good, c.threshold) ==> c.peel(onion, shares).Some?)
  }

  ghost predicate IsQuorum(shares: seq<Share>, good: set<Share>, t: nat) {
    && |shares| == t
    && (forall i :: 0 <= i < |shares| ==> shares[i] in good)
    && (forall i, j :: 0 <= i < j < |shares| ==> shares[i].x != shares[j].x)
  }

  ghost predicate Picks(shares: seq<Share>, chosen: seq<nat>, g: Share)
    requires InRange(shares, chosen)
  {
    exists i :: 0 <= i < |chosen| && shares[chosen[i]] == g
  }

  lemma {:induction false} PicksMore(shares: seq<Share>, chosen: seq<nat>, k: nat, g: Share)
    requires InRange(shares, chosen) && k < |shares|
    ensures InRange(shares, chosen + [k])
    ensures Picks(shares, chosen + [k], g) <==> Picks(shares, chosen, g) || g == shares[k]
  {
    var longer := chosen + [k];
    if Picks(shares, chosen, g) {
      var i :| 0 <= i < |chosen| && shares[chosen[i]] == g;
      assert longer[i] == chosen[i];
    }
    assert longer[|chosen|] == k;
  }

  ghost predicate AllGood(shares: seq<Share>, chosen: seq<nat>, good: set<Share>)
    requires InRange(shares, chosen)
  {
    forall i :: 0 <= i < |chosen| ==> shares[chosen[i]] in good
  }

  /** The genuine shares among the candidates make a choice. */
  lemma {:induction false} GoodChoice(shares: seq<Share>, n: nat, good: set<Share>) returns (chosen: seq<nat>)
    requires n <= |shares| && DistinctIndices(good)
    ensures IsChoice(shares, chosen) && AllGood(shares, chosen, good)
    ensures forall i :: 0 <= i < |chosen| ==> chosen[i] < n
    ensures forall g :: g in good && g in shares[..n] ==> Picks(shares, chosen, g)
  {
    if n == 0 {
      chosen := [];
    } else {
      var k := n - 1;
      chosen := GoodChoice(shares, k, good);
      assert shares[..n] == shares[..k] + [shares[k]];
      if shares[k] in good && !Picks(shares, chosen, shares[k]) {
        ExtendGoodChoice(shares, chosen, k, good);
        forall g | g in good && g in shares[..n]
          ensures Picks(shares, chosen + [k], g)
        {
          PicksMore(shares, chosen, k, g);
        }
        chosen := chosen + [k];
      }
    }
  }

  lemma {:induction false} ExtendGoodChoice(shares: seq<Share>, chosen: seq<nat>, k: nat, good: set<Share>)
    requires IsChoice(shares, chosen) && AllGood(shares, chosen, good) && DistinctIndices(good)
    requires k < |shares| && shares[k] in good && !Picks(shares, chosen, shares[k])
    requires forall i :: 0 <= i < |chosen| ==> chosen[i] < k
    ensures IsChoice(shares, chosen + [k]) && AllGood(shares, chosen + [k], good)
    ensures forall i :: 0 <= i < |chosen + [k]| ==> (chosen + [k])[i] < k + 1
  {
    var longer := chosen + [k];
    forall i | 0 <= i < |chosen|
      ensures shares[longer[i]].x != shares[k].x
    {
      assert shares[chosen[i]] != shares[k];
    }
  }

  lemma {:induction false} ChoiceCovers(shares: seq<Share>, good: set<Share>, chosen: seq<nat>)
    requires InRange(shares, chosen)
    requires forall g :: g in good ==> Picks(shares, chosen, g)
    ensures |good| <= |chosen|
    decreases |chosen|
  {
    if good != {} {
      var some :| some in good;
      assert Picks(shares, chosen, some);
      var k := |chosen| - 1;
      var last := shares[chosen[k]];
      assert chosen == chosen[..k] + [chosen[k]];
      forall g | g in good - {last}
        ensures Picks(shares, chosen[..k], g)
      {
        PicksMore(shares, chosen[..k], chosen[k], g);
      }
      ChoiceCovers(shares, good - {last}, chosen[..k]);
      assert good <= (good - {last}) + {last};
    }
  }

  lemma {:induction false} PickAt(shares: seq<Share>, chosen: seq<nat>, i: nat)
    requires InRange(shares, chosen) && i < |chosen|
    ensures |Pick(shares, chosen)| == |chosen| && Pick(shares, chosen)[i] == shares[chosen[i]]
    decreases |chosen|
  {
    var k := |chosen| - 1;
    if i < k {
      PickAt(shares, chosen[..k], i);
    } else if k > 0 {
      PickAt(shares, chosen[..k], 0);
    }
  }

  lemma {:induction false} GoodQuorum(shares: seq<Share>, good: set<Share>, t: nat) returns (chosen: seq<nat>)
    requires t <= |good| && DistinctIndices(good)
    requires forall g :: g in good ==> g in shares
    ensures IsChoice(shares, chosen) && |chosen| == t && IsQuorum(Pick(shares, chosen), good, t)
  {
    hide Pick, Picks;
    var all := GoodChoice(shares, |shares|, good);
    assert shares[..|shares|] == shares;
    ChoiceCovers(shares, good, all);
    chosen := all[..t];
    ChoiceIsQuorum(shares, chosen, good);
  }

  lemma {:induction false} ChoiceIsQuorum(shares: seq<Share>, chosen: seq<nat>, good: set<Share>)
    requires IsChoice(shares, chosen) && AllGood(shares, chosen, good)
    ensures IsQuorum(Pick(shares, chosen), good, |chosen|)
  {
    hide Pick;
    var picked := Pick(shares, chosen);
    if chosen == [] { PickNothing(shares); } else { PickAt(shares, chosen, 0); }
    forall i | 0 <= i < |chosen|
      ensures picked[i] == shares[chosen[i]]
    {
      PickAt(shares, chosen, i);
    }
  }

  lemma {:induction false} PickNothing(shares: seq<Share>)
    ensures Pick(shares, []) == []
  {
  }

  /** A gather that holds enough genuine shares and few enough candidates peels, whatever else it holds. */
  lemma {:induction false} GenuineCandidatesPeel(c: Config, p: Pending, good: set<Share>, genuine: Peeled)
    requires 0 < c.threshold <= |good| && Genuine(c, p.onion, good, genuine)
    requires forall g :: g in good ==> g in p.shares
    requires |Candidates(p.shares, c.threshold, 0, [])| <= MAX_PEEL_ATTEMPTS
    ensures Peels(c, p) == Some(genuine)
  {
    hide Candidates, BestSubset, Pick, IsQuorum, IsChoice, DistinctIndices;
    var chosen := GoodQuorum(p.shares, good, c.threshold);
    ChoiceFits(p.shares, chosen);
    GenuineIsFound(PeelWith(c, p.onion), p.shares, c.threshold, genuine, chosen);
  }

  /** The shares offered to gather `id`, as frames of the right width and with an index on the line. */
  function Offers(p: Pending, id: nat, more: seq<Input>): seq<Share> {
    if more == [] then []
    else
      var input := more[|more| - 1];
      Offers(p, id, more[..|more| - 1]) +
      if input.ReplyFrame? && input.id == id && 1 + |input.share.y| == SHARE_LEN && 0 < input.share.x <= p.memberCount
      then [input.share] else []
  }

  predicate Distinct(shares: seq<Share>) {
    forall i, j :: 0 <= i < j < |shares| ==> shares[i] != shares[j]
  }

  /** No pending gather holds a share twice. */
  ghost predicate HeldOnce(s: State) {
    forall id :: id in s.pending ==> Distinct(s.pending[id].shares)
  }

  lemma {:induction false} PeelHoldsOnce(c: Config, s: State, id: nat)
    requires HeldOnce(s)
    ensures HeldOnce(TryPeel(c, s, id).0)
  {
    hide TryPeel, Peels, Distinct;
    if id in s.pending { PeelAttempt(c, s, id); } else { NothingToPeel(c, s, id); }
  }

  lemma {:induction false} NothingToPeel(c: Config, s: State, id: nat)
    requires id !in s.pending
    ensures TryPeel(c, s, id).0 == s
  {
    hide Peels;
  }

  lemma {:induction false} StepHoldsOnce(c: Config, s: State, input: Input)
    requires HeldOnce(s)
    ensures HeldOnce(Step(c, s, input).0)
  {
    hide TryPeel, EmitCover, StartCover, OnRequest, Remember, Requests, OwnShares, MakeRoom, Distinct, Takes;
    CoverKeepsGathers(c, s);
    match input
    case OnionFrame(line, onion) =>
      var (s1, isNew) := Admit(s, c.tag(onion));
      if isNew {
        OpenHoldsOnce(c, s1, line, onion);
        PeelHoldsOnce(c, OpenGather(c, s1, line, onion), s1.nextId);
      }
    case ReplyFrame(id, share) =>
      if id in s.pending && Takes(s.pending[id], share) {
        TakenOnce(s.pending[id], share);
        PeelHoldsOnce(c, s.(pending := s.pending[id := s.pending[id].(shares := s.pending[id].shares + [share])]), id);
      }
    case RequestFrame(_, _, _, _) =>
    case DropFrame(_, _, _) =>
    case Undecodable =>
    case Timer(_) =>
    case StartHeartbeat =>
    case Launch(_, _) =>
    case AdvanceEpoch =>
    case OtherCommand =>
  }

  lemma {:induction false} OpenHoldsOnce(c: Config, s: State, line: Coord, onion: Bytes)
    requires HeldOnce(s)
    ensures HeldOnce(OpenGather(c, s, line, onion))
  {
    assert |OwnShares(c, s.epoch, line, onion)| <= 1;
  }

  lemma {:induction false} TakenOnce(p: Pending, share: Share)
    requires Distinct(p.shares) && Takes(p, share)
    ensures Distinct(p.shares + [share])
  {
  }

  lemma {:induction false} RunHoldsOnce(c: Config, run: seq<Input>)
    ensures HeldOnce(After(c, run))
  {
    hide Step, Distinct;
    if run != [] {
      RunHoldsOnce(c, run[..|run| - 1]);
      StepHoldsOnce(c, After(c, run[..|run| - 1]), run[|run| - 1]);
    }
  }

  /** The shares gather `id` holds or is offered, each counted once however often it is repeated. */
  ghost function Pool(p: Pending, id: nat, more: seq<Input>): set<Share> {
    set share | share in p.shares + Offers(p, id, more)
  }

  /** With room for the different ones, every offered share is a candidate. */
  lemma {:induction false} OffersAreCollected(p: Pending, id: nat, more: seq<Input>, share: Share)
    requires Distinct(p.shares) && |Pool(p, id, more)| <= MAX_CANDIDATES && share in Pool(p, id, more)
    ensures share in Collect(p, id, more).shares
    decreases |more|
  {
    hide Distinct;
    if more != [] {
      var before := more[..|more| - 1];
      PoolGrows(p, id, more);
      CollectedOnce(p, id, before);
      if share in Pool(p, id, before) {
        OffersAreCollected(p, id, before, share);
      } else if share !in Collect(p, id, before).shares {
        RoomForOneMore(Collect(p, id, before).shares, share, Pool(p, id, more));
        OfferIsLast(p, id, more, share);
      }
    }
  }

  lemma {:induction false} PoolGrows(p: Pending, id: nat, more: seq<Input>)
    requires more != []
    ensures Pool(p, id, more[..|more| - 1]) <= Pool(p, id, more)
    ensures |Pool(p, id, more[..|more| - 1])| <= |Pool(p, id, more)|
  {
    Cardinal(Pool(p, id, more[..|more| - 1]), Pool(p, id, more));
  }

  lemma {:induction false} Cardinal(few: set<Share>, many: set<Share>)
    requires few <= many
    ensures |few| <= |many|
  {
    assert few + (many - few) == many;
  }

  lemma {:induction false} RoomForOneMore(shares: seq<Share>, share: Share, pool: set<Share>)
    requires Distinct(shares) && share !in shares && share in pool && forall held :: held in shares ==> held in pool
    ensures |shares| < |pool|
  {
    DistinctSize(shares);
    Cardinal((set held | held in shares) + {share}, pool);
  }

  lemma {:induction false} DistinctSize(shares: seq<Share>)
    requires Distinct(shares)
    ensures |set held | held in shares| == |shares|
    decreases |shares|
  {
    if shares == [] {
      assert (set held | held in shares) == {};
    } else {
      var k := |shares| - 1;
      DistinctSize(shares[..k]);
      assert (set held | held in shares) == (set held | held in shares[..k]) + {shares[k]};
    }
  }

  lemma {:induction false} OfferIsLast(p: Pending, id: nat, more: seq<Input>, share: Share)
    requires more != [] && share in Pool(p, id, more) && share !in Pool(p, id, more[..|more| - 1])
    requires share !in Collect(p, id, more[..|more| - 1]).shares
    requires |Collect(p, id, more[..|more| - 1]).shares| < MAX_CANDIDATES
    ensures share in Collect(p, id, more).shares
  {
    CollectedOnly(p, id, more[..|more| - 1]);
    assert Offers(p, id, more) == Offers(p, id, more[..|more| - 1]) + [share];
  }

  /** What a gather has collected are some of those shares, none of them twice. */
  lemma {:induction false} CollectedOnce(p: Pending, id: nat, more: seq<Input>)
    requires Distinct(p.shares)
    ensures Distinct(Collect(p, id, more).shares)
    ensures forall held :: held in Collect(p, id, more).shares ==> held in Pool(p, id, more)
    decreases |more|
  {
    if more != [] {
      CollectedOnce(p, id, more[..|more| - 1]);
      CollectedOnly(p, id, more[..|more| - 1]);
    }
  }

  lemma {:induction false} CollectedOnly(p: Pending, id: nat, more: seq<Input>)
    ensures Collect(p, id, more) == p.(shares := Collect(p, id, more).shares)
    decreases |more|
  {
    if more != [] { CollectedOnly(p, id, more[..|more| - 1]); }
  }

  // ----- When nothing is evicted -----

  /** The onions of the right width among the inputs: no more gathers than these can be opened. */
  function Onions(c: Config, more: seq<Input>): nat {
    if more == [] then 0 else Onions(c, more[..|more| - 1]) + if IsOnion(c, more[|more| - 1]) then 1 else 0
  }

  lemma {:induction false} StepOpensAtMostOne(c: Config, s: State, input: Input)
    ensures Step(c, s, input).0.nextId <= s.nextId + if IsOnion(c, input) then 1 else 0
  {
    hide TryPeel, EmitCover, StartCover, OnRequest, Remember, Takes, Requests, OwnShares, MakeRoom;
    CoverKeepsGathers(c, s);
    match input
    case OnionFrame(line, onion) =>
      var (s1, isNew) := Admit(s, c.tag(onion));
      if isNew { PeelKeepsNext(c, OpenGather(c, s1, line, onion), s1.nextId); }
    case ReplyFrame(id, share) =>
      if id in s.pending {
        PeelKeepsNext(c, s.(pending := s.pending[id := s.pending[id].(shares := s.pending[id].shares + [share])]), id);
      }
    case RequestFrame(_, _, _, _) =>
    case DropFrame(_, _, _) =>
    case Undecodable =>
    case Timer(_) =>
    case StartHeartbeat =>
    case Launch(_, _) =>
    case AdvanceEpoch =>
    case OtherCommand =>
  }

  lemma {:induction false} PeelKeepsNext(c: Config, s: State, id: nat)
    ensures TryPeel(c, s, id).0.nextId == s.nextId
  {
    hide Peels, Remember, ActOn;
    if id in s.pending { PeelAttempt(c, s, id); }
  }

  lemma {:induction false} RunOpensAtMost(c: Config, run: seq<Input>, more: seq<Input>)
    ensures After(c, run + more).nextId <= After(c, run).nextId + Onions(c, more)
    decreases |more|
  {
    hide Step, IsOnion;
    if more == [] {
      assert run + more == run;
    } else {
      var k := |more| - 1;
      RunOpensAtMost(c, run, more[..k]);
      assert (run + more)[..|run + more| - 1] == run + more[..k];
      StepOpensAtMostOne(c, After(c, run + more[..k]), more[k]);
    }
  }

  lemma {:induction false} OnionsUpTo(c: Config, more: seq<Input>, i: nat)
    requires i < |more| && IsOnion(c, more[i])
    ensures Onions(c, more[..i]) < Onions(c, more)
    decreases |more|
  {
    hide IsOnion;
    var k := |more| - 1;
    if i < k {
      assert more[..k][..i] == more[..i];
      OnionsUpTo(c, more[..k], i);
    }
  }

  /** The oldest of a table holds no more gathers behind it than were opened since. */
  lemma {:induction false} OldestBound(c: Config, s: State, id: nat)
    requires Sound(c, s) && id in s.pending && LeastNumber.IsLeast(id, s.pending.Keys)
    ensures |s.pending| <= s.nextId - id
  {
    hide Peels;
    RangeBound(s.pending.Keys, id, s.nextId);
    assert |s.pending| == |s.pending.Keys|;
  }

  lemma {:induction false} RangeBound(keys: set<nat>, first: nat, end: nat)
    requires first <= end && forall i :: i in keys ==> first <= i < end
    ensures |keys| <= end - first
    decreases end - first
  {
    if first < end {
      var rest := keys - {first};
      RangeBound(rest, first + 1, end);
      assert keys <= rest + {first};
    } else {
      assert keys == {};
    }
  }

  /** A gather is not evicted while fewer gathers than the table holds have been opened after it. */
  lemma {:induction false} NotEvictedSoon(c: Config, run: seq<Input>, p: Pending, id: nat, more: seq<Input>, how: Closing)
    requires id in After(c, run).pending && EndedDuring(c, run, p, id, more, how)
    requires After(c, run).nextId - id + Onions(c, more) <= MaxPending(c.lineSize)
    ensures how != Evicted
  {
    hide After, MaxPending, Collect, Ledger, Peels, IsOnion;
    var i :| 0 <= i < |more| && EndsAt(c, run, p, id, more, i, how);
    if how == Evicted {
      var s := After(c, run + more[..i]);
      RunIsSound(c, run + more[..i]);
      OldestBound(c, s, id);
      RunOpensAtMost(c, run, more[..i]);
      OnionsUpTo(c, more, i);
    }
  }

  /**
   Forged replies cannot destroy a live hop.  In any run and any arrival order, once the replies offered to a
   pending gather hold a quorum of genuine shares, among at most 64 different shares held or offered, however often
   repeated, whose candidates make at most 256 choices, the hop has been peeled to its genuine outcome, if its deadline did not fire meanwhile and no more gathers than
   the table holds can have been opened from it on.
   */
  lemma {:induction false} ForgedRepliesCannotDestroyAHop(
    c: Config, run: seq<Input>, more: seq<Input>, id: nat, good: set<Share>, genuine: Peeled)
    requires id in After(c, run).pending && 0 < c.threshold <= |good|
    requires Genuine(c, After(c, run).pending[id].onion, good, genuine)
    requires var p := After(c, run).pending[id];
             && |Pool(p, id, more)| <= MAX_CANDIDATES
             && (forall g :: g in good ==> g in Pool(p, id, more))
             && |Candidates(Collect(p, id, more).shares, c.threshold, 0, [])| <= MAX_PEEL_ATTEMPTS
    requires !HasDeadline(more, id) && After(c, run).nextId - id + Onions(c, more) <= MaxPending(c.lineSize)
    ensures (id, Completed(genuine)) in After(c, run + more).books.closed
  {
    hide After, Candidates, Collect, Pool, Ledger, Genuine, EndedDuring, Onions, MaxPending, Distinct;
    var p, t := After(c, run).pending[id], After(c, run + more);
    NothingIsTakenAway(c, run, more, id);
    RunIsSound(c, run + more);
    RunHoldsOnce(c, run);
    if id in t.pending {
      forall g | g in good
        ensures g in t.pending[id].shares
      {
        OffersAreCollected(p, id, more, g);
      }
      CollectedOnly(p, id, more);
      GenuineCandidatesPeel(c, t.pending[id], good, genuine);
      assert false;
    }
    var how :| (id, how) in t.books.closed && EndedDuring(c, run, p, id, more, how);
    NotEvictedSoon(c, run, p, id, more, how);
    EndedGenuinely(c, run, p, id, more, how, good, genuine);
  }

  lemma {:induction false} EndedGenuinely(
    c: Config, run: seq<Input>, p: Pending, id: nat, more: seq<Input>, how: Closing, good: set<Share>, genuine: Peeled)
    requires EndedDuring(c, run, p, id, more, how) && Genuine(c, p.onion, good, genuine) && !HasDeadline(more, id)
    ensures how == Evicted || how == Completed(genuine)
  {
    hide Collect, Search, Candidates, Takes, After, MaxPending;
    var i :| 0 <= i < |more| && EndsAt(c, run, p, id, more, i, how);
    var q := Offered(Collect(p, id, more[..i]), id, more[i]);
    CollectedOnly(p, id, more[..i]);
    if how.Completed? && 0 < c.threshold <= |q.shares| { SearchIsExact(PeelWith(c, q.onion), q.shares, c.threshold); }
  }
}
