/**
 What the router owes over every run besides forwarding: the share it was asked for, a deadline on every gather, a
 running schedule while cells wait, and the attribution of late shares to gathers that ended.
 */
module DutyRuns {
  import opened Symbolic
  import opened PeelSearch
  import opened Budget
  import opened Router
  import opened GatherRuns
  import opened CargoRuns
  import EmissionRuns
  import LeastNumber

  // ----- Answers -----

  /**
   A well-sized request to a member is answered to its combiner under its own number: with the member's share of that
   onion in the epoch the run has reached, if it can open its slot, and with a decoy of the same index if not.
   */
  lemma {:induction false} RequestsGetTheShare(c: Config, run: seq<Input>, i: nat, k: nat)
    requires i < |run| && run[i].RequestFrame? && |run[i].onion| == OnionLen(c.lineSize)
    requires k < |c.members(run[i].line)| && c.members(run[i].line)[k] == c.me && c.me !in c.members(run[i].line)[..k]
    ensures var RequestFrame(id, combiner, line, onion) := run[i];
            Emitted(c, run, i) ==
            match c.partial(Epochs(run[..i]), onion, k)
            case Some(share) => [SendReply(combiner, id, share)]
            case None => [SendReply(combiner, id, c.decoy(k, id, line))]
  {
    hide After, Epochs, IndexOf;
    GathersAreForTheirArrivals(c, run[..i]);
    FirstIndex(c.members(run[i].line), c.me, k);
  }

  /** A launched frame leaves as it is, and alone. */
  lemma {:induction false} LaunchesLeaveVerbatim(c: Config, run: seq<Input>, i: nat)
    requires i < |run| && run[i].Launch?
    ensures Emitted(c, run, i) == [SendRaw(run[i].to, run[i].frame)] && After(c, run[..i + 1]) == After(c, run[..i])
  {
    hide Step;
    assert run[..i + 1][..i] == run[..i];
    LaunchIs(c, After(c, run[..i]), run[i]);
  }

  lemma {:induction false} LaunchIs(c: Config, s: State, input: Input)
    requires input.Launch?
    ensures Step(c, s, input) == (s, [SendRaw(input.to, input.frame)])
  {
  }

  // ----- Requests -----

  /** Nothing but cells, notices and timers of the queues. */
  ghost predicate AsksNobody(effects: seq<Effect>) {
    forall e :: e in effects ==> !e.SendRequest? && !e.SendReply? && !e.SendRaw? && !(e.Arm? && e.token.GatherToken?)
  }

  lemma {:induction false} SendAsksNobody(c: Config, s: State, to: Coord, cell: Cell)
    ensures AsksNobody(ForwardSend(c, s, to, cell).1)
  {
    hide MaxQueue;
  }

  lemma {:induction false} DropAsksNobody(c: Config, s: State, line: Coord, body: Bytes, members: seq<Coord>)
    ensures AsksNobody(DeadDrop(c, s, line, body, members).1)
    decreases |members|
  {
    hide ForwardSend;
    if members != [] {
      var k := |members| - 1;
      DropAsksNobody(c, s, line, body, members[..k]);
      SendAsksNobody(c, DeadDrop(c, s, line, body, members[..k]).0, members[k], DropCell(line, body));
    }
  }

  lemma {:induction false} PeelAsksNobody(c: Config, s: State, id: nat)
    ensures TryPeel(c, s, id).1.Some? ==> AsksNobody(TryPeel(c, s, id).1.value)
  {
    hide ForwardSend, DeadDrop, Peels, Padded, Gatherer, Complete, AsksNobody;
    if id in s.pending && Peels(c, s.pending[id]).Some? {
      var outcome := Peels(c, s.pending[id]).value;
      ActAsksNobody(c, Complete(c, s, id, outcome), s.pending[id].line, outcome);
    }
  }

  lemma {:induction false} ActAsksNobody(c: Config, s: State, line: Coord, outcome: Peeled)
    ensures AsksNobody(ActOn(c, s, line, outcome).1)
  {
    hide ForwardSend, DeadDrop, Padded;
    match outcome
    case Deliver(payload, _) =>
      if c.deaddrop(payload).Some? { DropAsksNobody(c, s, line, c.deaddrop(payload).value, c.members(line)); }
    case Forward(next, onion) =>
      var packet := Padded(c, onion);
      if c.members(next) != [] {
        SendAsksNobody(c, s, c.members(next)[c.draw(next, packet) % |c.members(next)|], OnionCell(next, packet));
      }
  }

  lemma {:induction false} StepAsks(c: Config, s: State, input: Input, e: Effect)
    requires e.SendRequest?
    ensures var (t, effects) := Step(c, s, input);
            e in effects <==>
            && input.OnionFrame? && t.nextId > s.nextId
            && e == SendRequest(e.to, s.nextId, input.line, input.onion)
            && e.to in c.members(input.line) && e.to != c.me
  {
    hide OnOnion, OnReply, EmitCover, StartCover, OnRequest, Remember, OnDeadline;
    CoverKeepsGathers(c, s);
    SlotAsksNobody(c, s);
    match input
    case OnionFrame(line, onion) => if |onion| == OnionLen(c.lineSize) { OnionAsksItsLine(c, s, line, onion, e); }
    case ReplyFrame(id, share) => if 1 + |share.y| == SHARE_LEN { ReplyAsksNobody(c, s, id, share); }
    case RequestFrame(id, combiner, line, onion) => AnswerAsksNobody(c, s, id, combiner, line, onion);
    case Timer(GatherToken(id)) =>
    case Timer(_) =>
    case DropFrame(_, _, _) =>
    case Undecodable =>
    case StartHeartbeat =>
    case Launch(_, _) =>
    case AdvanceEpoch =>
    case OtherCommand =>
  }

  lemma {:induction false} SlotAsksNobody(c: Config, s: State)
    ensures AsksNobody(EmitCover(c, s).1) && AsksNobody(StartCover(c, s).1)
  {
    hide Draw, Gatherer;
    assert AsksNobody(SlotCell(c, s).1);
  }

  lemma {:induction false} AnswerAsksNobody(c: Config, s: State, id: nat, combiner: Coord, line: Coord, onion: Bytes)
    ensures forall e :: e in OnRequest(c, s, id, combiner, line, onion) ==> !e.SendRequest?
  {
    hide IndexOf;
  }

  lemma {:induction false} ReplyAsksNobody(c: Config, s: State, id: nat, share: Share)
    ensures AsksNobody(OnReply(c, s, id, share).1)
  {
    hide TryPeel, Takes;
    if id in s.pending && Takes(s.pending[id], share) {
      PeelAsksNobody(c, s.(pending := s.pending[id := s.pending[id].(shares := s.pending[id].shares + [share])]), id);
    }
  }

  lemma {:induction false} OnionAsksItsLine(c: Config, s: State, line: Coord, onion: Bytes, e: Effect)
    requires e.SendRequest?
    ensures var (t, effects) := OnOnion(c, s, line, onion);
            e in effects <==> t.nextId > s.nextId && e == SendRequest(e.to, s.nextId, line, onion)
                              && e.to in c.members(line) && e.to != c.me
  {
    hide TryPeel, OpenGather, Requests;
    var (s1, isNew) := Admit(s, c.tag(onion));
    if isNew {
      OpeningIs(c, s1, line, onion);
      PeelKeepsNext(c, OpenGather(c, s1, line, onion), s1.nextId);
      PeelAsksNobody(c, OpenGather(c, s1, line, onion), s1.nextId);
      EmissionRuns.EveryOtherMemberIsAsked(c, s1.nextId, line, onion, c.members(line), e);
    }
  }

  /**
   The requests input `i` of a run sends are, for an admitted onion, one to every other member of its line with the
   onion itself and the number of its own gather, and for everything else none.
   */
  lemma {:induction false} ItsLineIsAsked(c: Config, run: seq<Input>, i: nat, e: Effect)
    requires i < |run| && e.SendRequest?
    ensures var before, now := Arrivals(c, run[..i]), Arrivals(c, run[..i + 1]);
            e in Emitted(c, run, i) <==>
            && |now| > |before|
            && e == SendRequest(e.to, |before|, now[|before|].line, now[|before|].onion)
            && e.to in c.members(now[|before|].line) && e.to != c.me
  {
    hide Step, Arrivals, After, IsFor;
    assert run[..i + 1][..i] == run[..i];
    ThenIsStep(c, run, i);
    GathersAreForTheirArrivals(c, run[..i]);
    GathersAreForTheirArrivals(c, run[..i + 1]);
    ArrivalIsBrought(c, run[..i + 1]);
    StepAsks(c, After(c, run[..i]), run[i], e);
  }

  // ----- Deadlines -----

  lemma {:induction false} OpeningIsTimed(c: Config, s: State, line: Coord, onion: Bytes, id: nat)
    requires id in OnOnion(c, s, line, onion).0.pending && id !in s.pending
    ensures Arm(GatherToken(id)) in OnOnion(c, s, line, onion).1
  {
    hide TryPeel, Requests, OwnShares, MaxPending, Peels;
    var (s1, isNew) := Admit(s, c.tag(onion));
    if isNew {
      var s2 := OpenGather(c, s1, line, onion);
      PeelAttempt(c, s2, s1.nextId);
      OpensOnlyTheNext(c, s1, line, onion);
    }
  }

  lemma {:induction false} OpensOnlyTheNext(c: Config, s: State, line: Coord, onion: Bytes)
    ensures forall id :: id in OpenGather(c, s, line, onion).pending ==> id == s.nextId || id in s.pending
  {
    hide OwnShares, MaxPending;
  }

  lemma {:induction false} NewGathersAreTimed(c: Config, s: State, input: Input, id: nat)
    requires id in Step(c, s, input).0.pending
    ensures Arm(GatherToken(id)) in Step(c, s, input).1 || (id in s.pending && input != Timer(GatherToken(id)))
  {
    hide OnOnion, TryPeel, EmitCover, StartCover, OnRequest, Remember, Takes, Peels;
    CoverKeepsGathers(c, s);
    match input
    case OnionFrame(line, onion) => if |onion| == OnionLen(c.lineSize) && id !in s.pending { OpeningIsTimed(c, s, line, onion, id); }
    case ReplyFrame(to, share) =>
      if to in s.pending {
        PeelAttempt(c, s.(pending := s.pending[to := s.pending[to].(shares := s.pending[to].shares + [share])]), to);
      }
    case RequestFrame(_, _, _, _) =>
    case DropFrame(_, _, _) =>
    case Undecodable =>
    case Timer(_) =>
    case StartHeartbeat =>
    case Launch(_, _) =>
    case AdvanceEpoch =>
    case OtherCommand =>
  }

  /** Every pending gather has its deadline armed and not yet fired, so it cannot wait for ever. */
  lemma {:induction false} EveryGatherHasADeadline(c: Config, run: seq<Input>, n: nat, id: nat)
    requires n <= |run| && id in After(c, run[..n]).pending
    ensures Outstanding(c, run, n, GatherToken(id))
    decreases n
  {
    hide Step;
    assert n > 0;
    assert run[..n][..n - 1] == run[..n - 1];
    NewGathersAreTimed(c, After(c, run[..n - 1]), run[n - 1], id);
    if Arm(GatherToken(id)) !in Emitted(c, run, n - 1) { EveryGatherHasADeadline(c, run, n - 1, id); }
  }

  // ----- The schedule -----

  /** Something asked for the schedule: a heartbeat command, or a cell to forward. */
  ghost predicate ScheduleWanted(c: Config, run: seq<Input>, n: nat)
    requires n <= |run|
  {
    exists i :: 0 <= i < n && (run[i].StartHeartbeat? || Asked(c, run, i) != [])
  }

  lemma {:induction false} InputKeepsTheSchedule(c: Config, run: seq<Input>, i: nat)
    requires i < |run| && c.coverInterval != 0
    ensures Before(c, run, i).covering || run[i].StartHeartbeat? || Asked(c, run, i) != [] ==> Then(c, run, i).0.covering
  {
    hide After, Step, Emitted, Hop, Cargo, Told, Kept, Cells, Notices, MixArms, Waits, Leaves, Newest;
    if IsRelease(run[i]) {
      ReleaseFinishesNothing(c, run, i);
      RunKeeps(c, run[..i]);
      ReleaseKeepsTheSchedule(c, run, i);
    } else {
      EveryHopIsServed(c, run, i);
      if run[i].StartHeartbeat? { HeartbeatStarts(c, run, i); }
    }
  }

  lemma {:induction false} ReleaseKeepsTheSchedule(c: Config, run: seq<Input>, i: nat)
    requires i < |run| && IsRelease(run[i]) && Kept(c, Before(c, run, i))
    ensures Then(c, run, i).0.covering == Before(c, run, i).covering
  {
    hide After, Emitted, Mixing, Cells, Notices, MixArms, EmitCover, TakesOut, Kept;
    ThenIsStep(c, run, i);
    match run[i].token
    case CoverToken => ATickSendsWhatItTakes(c, Before(c, run, i));
    case MixToken(other) => AMixTimerSendsItsCell(c, Before(c, run, i), other);
  }

  lemma {:induction false} HeartbeatStarts(c: Config, run: seq<Input>, i: nat)
    requires i < |run| && run[i].StartHeartbeat? && c.coverInterval != 0
    ensures Then(c, run, i).0.covering
  {
    hide After, Emitted;
    ThenIsStep(c, run, i);
  }

  /** With cover on, the schedule runs from the first heartbeat or the first cell to forward on, and for good. */
  lemma {:induction false} TheScheduleRuns(c: Config, run: seq<Input>, n: nat)
    requires n <= |run| && c.coverInterval != 0 && ScheduleWanted(c, run, n)
    ensures After(c, run[..n]).covering
    decreases n
  {
    hide After, Asked, Step;
    InputKeepsTheSchedule(c, run, n - 1);
    var i :| 0 <= i < n && (run[i].StartHeartbeat? || Asked(c, run, i) != []);
    if i < n - 1 { TheScheduleRuns(c, run, n - 1); }
  }

  // ----- Cover cells -----

  lemma {:induction false} SendCounts(c: Config, s: State, to: Coord, cell: Cell)
    ensures ForwardSend(c, s, to, cell).0.coverSeq >= s.coverSeq
  {
    hide MaxQueue;
  }

  lemma {:induction false} DropCounts(c: Config, s: State, line: Coord, body: Bytes, members: seq<Coord>)
    ensures DeadDrop(c, s, line, body, members).0.coverSeq >= s.coverSeq
    decreases |members|
  {
    hide ForwardSend;
    if members != [] {
      var k := |members| - 1;
      DropCounts(c, s, line, body, members[..k]);
      SendCounts(c, DeadDrop(c, s, line, body, members[..k]).0, members[k], DropCell(line, body));
    }
  }

  lemma {:induction false} PeelCounts(c: Config, s: State, id: nat)
    ensures TryPeel(c, s, id).0.coverSeq >= s.coverSeq
  {
    hide ForwardSend, DeadDrop, Peels, Padded, Remember;
    if id in s.pending && Peels(c, s.pending[id]).Some? {
      var outcome := Peels(c, s.pending[id]).value;
      ActCounts(c, Complete(c, s, id, outcome), s.pending[id].line, outcome);
    }
  }

  lemma {:induction false} ActCounts(c: Config, s: State, line: Coord, outcome: Peeled)
    ensures ActOn(c, s, line, outcome).0.coverSeq >= s.coverSeq
  {
    hide ForwardSend, DeadDrop, Padded;
    match outcome
    case Deliver(payload, _) =>
      if c.deaddrop(payload).Some? { DropCounts(c, s, line, c.deaddrop(payload).value, c.members(line)); }
    case Forward(next, onion) =>
      var packet := Padded(c, onion);
      if c.members(next) != [] {
        SendCounts(c, s, c.members(next)[c.draw(next, packet) % |c.members(next)|], OnionCell(next, packet));
      }
  }

  lemma {:induction false} StepCounts(c: Config, s: State, input: Input)
    ensures Step(c, s, input).0.coverSeq >= s.coverSeq
  {
    hide TryPeel, OnRequest, Remember, OpenGather, Requests, Draw, Gatherer, Takes;
    match input
    case OnionFrame(line, onion) =>
      var (s1, isNew) := Admit(s, c.tag(onion));
      if isNew {
        OpeningCounts(c, s1, line, onion);
        PeelCounts(c, OpenGather(c, s1, line, onion), s1.nextId);
      }
    case ReplyFrame(id, share) =>
      if id in s.pending {
        PeelCounts(c, s.(pending := s.pending[id := s.pending[id].(shares := s.pending[id].shares + [share])]), id);
      }
    case RequestFrame(_, _, _, _) =>
    case DropFrame(_, _, _) =>
    case Undecodable =>
    case Timer(_) =>
    case StartHeartbeat =>
    case Launch(_, _) =>
    case AdvanceEpoch =>
    case OtherCommand =>
  }

  lemma {:induction false} OpeningCounts(c: Config, s: State, line: Coord, onion: Bytes)
    ensures OpenGather(c, s, line, onion).coverSeq == s.coverSeq
  {
    hide OwnShares, MaxPending;
  }

  lemma {:induction false} CounterRises(c: Config, run: seq<Input>, i: nat, j: nat)
    requires i <= j <= |run|
    ensures After(c, run[..i]).coverSeq <= After(c, run[..j]).coverSeq
    decreases j - i
  {
    hide Step;
    if i < j {
      CounterRises(c, run, i, j - 1);
      assert run[..j][..j - 1] == run[..j - 1];
      StepCounts(c, After(c, run[..j - 1]), run[j - 1]);
    }
  }

  /** A tick with nothing waiting. */
  ghost predicate SendsCover(c: Config, run: seq<Input>, i: nat)
    requires i < |run|
  {
    run[i] == Timer(CoverToken) && Before(c, run, i).outbox == [] && Cells(Emitted(c, run, i)) != []
  }

  lemma {:induction false} CoverCellIs(c: Config, s: State)
    requires s.outbox == []
    ensures var (t, effects) := EmitCover(c, s);
            && t.coverSeq >= s.coverSeq + 2
            && (Cells(effects) != [] ==>
                  |Cells(effects)| == 1 && Cells(effects)[0].cell.OnionCell?
                  && Cells(effects)[0].cell.onion == c.keystream(s.coverSeq + 2)
                  && (c.lines != [] ==> Cells(effects)[0].cell.line in c.lines))
  {
    hide Draw, Gatherer, Cells;
    var (s1, sent) := SlotCell(c, s);
    OfOne(Arm(CoverToken));
    OfSum(sent, [Arm(CoverToken)]);
    if sent != [] {
      assert sent == [sent[0]];
      OfOne(sent[0]);
    }
  }

  /** The draw decides: whichever place it names is the cell that leaves, or the line that the cover is for. */
  lemma {:induction false} TheDrawDecides(c: Config, s: State, i: nat)
    ensures i < |s.outbox| && c.prf(s.coverSeq + 1, |s.outbox|) == i ==> Cells(EmitCover(c, s).1) == [s.outbox[i]]
    ensures s.outbox == [] && i < |c.lines| && c.prf(s.coverSeq + 1, |c.lines|) == i && c.members(c.lines[i]) != [] ==>
              |Cells(EmitCover(c, s).1)| == 1 && Cells(EmitCover(c, s).1)[0].cell.line == c.lines[i]
  {
    hide Cells;
    var (s1, sent) := SlotCell(c, s);
    OfOne(Arm(CoverToken));
    OfSum(sent, [Arm(CoverToken)]);
    if sent != [] {
      assert sent == [sent[0]];
      OfOne(sent[0]);
    }
  }

  /** No two cover cells of a run are drawn from one counter of the keystream: the later has the larger. */
  lemma {:induction false} CoverCellsAreFresh(c: Config, run: seq<Input>, i: nat, j: nat) returns (m: nat, n: nat)
    requires i < j < |run| && SendsCover(c, run, i) && SendsCover(c, run, j)
    ensures m < n
    ensures Cells(Emitted(c, run, i))[0].cell.OnionCell? && Cells(Emitted(c, run, i))[0].cell.onion == c.keystream(m)
    ensures Cells(Emitted(c, run, j))[0].cell.OnionCell? && Cells(Emitted(c, run, j))[0].cell.onion == c.keystream(n)
  {
    hide After, EmitCover, Cells;
    m, n := Before(c, run, i).coverSeq + 2, Before(c, run, j).coverSeq + 2;
    ThenIsStep(c, run, i);
    CoverCellIs(c, Before(c, run, i));
    CoverCellIs(c, Before(c, run, j));
    CounterRises(c, run, i + 1, j);
  }

  // ----- The attribution ring -----

  /** The ended gathers a late share can still be attributed to: all but the evicted, in the order they ended. */
  function Attributable(log: seq<(nat, Closing)>): seq<(nat, Outcome)> {
    if log == [] then []
    else
      var (id, how) := log[|log| - 1];
      Attributable(log[..|log| - 1]) +
      match how case Completed(_) => [(id, ByPeel)] case Evicted => [] case _ => [(id, ByDeadline)]
  }

  function NewestOf(ring: seq<(nat, Outcome)>, n: nat): seq<(nat, Outcome)> {
    if |ring| <= n then ring else ring[|ring| - n..]
  }

  function RingCap(c: Config): (n: nat)
    ensures n > 0
  {
    if MaxPending(c.lineSize) == 0 then 1 else MaxPending(c.lineSize)
  }

  ghost predicate Attributes(c: Config, s: State) {
    s.resolved == NewestOf(Attributable(s.books.closed), RingCap(c))
  }

  lemma {:induction false} RememberingSlides(c: Config, log: seq<(nat, Outcome)>, id: nat, how: Outcome)
    ensures Remember(c, NewestOf(log, RingCap(c)), id, how) == NewestOf(log + [(id, how)], RingCap(c))
  {
    hide MaxPending;
  }

  lemma {:induction false} OneMoreEnded(log: seq<(nat, Closing)>, id: nat, how: Closing)
    ensures Attributable(log + [(id, how)]) == Attributable(log) +
            match how case Completed(_) => [(id, ByPeel)] case Evicted => [] case _ => [(id, ByDeadline)]
  {
    assert (log + [(id, how)])[..|log|] == log;
  }

  lemma {:induction false} PeelAttributes(c: Config, s: State, id: nat)
    requires Attributes(c, s) && id in s.pending
    ensures Attributes(c, TryPeel(c, s, id).0)
  {
    hide TryPeel, Peels, Remember, NewestOf, Attributable;
    PeelAttempt(c, s, id);
    match Peels(c, s.pending[id])
    case None =>
    case Some(outcome) =>
      OneMoreEnded(s.books.closed, id, Completed(outcome));
      RememberingSlides(c, Attributable(s.books.closed), id, ByPeel);
  }

  lemma {:induction false} OpeningAttributes(c: Config, s: State, line: Coord, onion: Bytes)
    requires Attributes(c, s)
    ensures Attributes(c, OpenGather(c, s, line, onion)) && s.nextId in OpenGather(c, s, line, onion).pending
  {
    hide OwnShares, MaxPending, NewestOf, Attributable;
    if |s.pending| >= MaxPending(c.lineSize) && s.pending != map[] {
      var oldest := LeastOf(s);
      OneMoreEnded(s.books.closed, oldest, Evicted);
      assert Attributable(s.books.closed) + [] == Attributable(s.books.closed);
    }
  }

  ghost function LeastOf(s: State): nat
    requires s.pending != map[]
  {
    LeastNumber.Least(s.pending.Keys)
  }

  lemma {:induction false} StepAttributes(c: Config, s: State, input: Input)
    requires Attributes(c, s)
    ensures Attributes(c, Step(c, s, input).0)
  {
    hide Attributes, TryPeel, EmitCover, StartCover, OnRequest, Takes, Peels, OpenGather, Requests, Admit, OnDeadline;
    CoverKeepsGathers(c, s);
    match input
    case OnionFrame(line, onion) =>
      var (s1, isNew) := Admit(s, c.tag(onion));
      SameRing(c, s, s1) by { AdmitKeepsRing(s, c.tag(onion)); }
      if isNew {
        OpeningAttributes(c, s1, line, onion);
        PeelAttributes(c, OpenGather(c, s1, line, onion), s1.nextId);
      }
    case ReplyFrame(to, share) =>
      if to in s.pending {
        var s1 := s.(pending := s.pending[to := s.pending[to].(shares := s.pending[to].shares + [share])]);
        SameRing(c, s, s1);
        PeelAttributes(c, s1, to);
      }
    case Timer(GatherToken(id)) => DeadlineAttributes(c, s, id);
    case Timer(CoverToken) => SameRing(c, s, EmitCover(c, s).0);
    case Timer(MixToken(id)) => SameRing(c, s, Step(c, s, input).0);
    case StartHeartbeat => SameRing(c, s, StartCover(c, s).0);
    case AdvanceEpoch => SameRing(c, s, s.(epoch := s.epoch + 1));
    case RequestFrame(_, _, _, _) =>
    case DropFrame(_, _, _) =>
    case Undecodable =>
    case Launch(_, _) =>
    case OtherCommand =>
  }

  lemma {:induction false} AdmitKeepsRing(s: State, tag: nat)
    ensures Admit(s, tag).0.resolved == s.resolved && Admit(s, tag).0.books == s.books
  {
  }

  lemma {:induction false} SameRing(c: Config, s: State, t: State)
    requires Attributes(c, s) && t.resolved == s.resolved && t.books.closed == s.books.closed
    ensures Attributes(c, t)
  {
  }

  lemma {:induction false} DeadlineAttributes(c: Config, s: State, id: nat)
    requires Attributes(c, s)
    ensures Attributes(c, OnDeadline(c, s, id))
  {
    hide Remember, NewestOf, Attributable;
    if id in s.pending {
      OneMoreEnded(s.books.closed, id, if |s.pending[id].shares| < c.threshold then Expired else Unpeelable);
      RememberingSlides(c, Attributable(s.books.closed), id, ByDeadline);
    }
  }

  /** After any run the ring holds the newest gathers that ended by a peel or a deadline, and says which. */
  lemma {:induction false} TheRingIsTheLog(c: Config, run: seq<Input>)
    ensures var s := After(c, run); s.resolved == NewestOf(Attributable(s.books.closed), RingCap(c))
  {
    hide Step;
    if run != [] {
      TheRingIsTheLog(c, run[..|run| - 1]);
      StepAttributes(c, After(c, run[..|run| - 1]), run[|run| - 1]);
    }
  }
}
