/**
 The replay filter over every run: it remembers exactly the last `MAX_REPLAY_TAGS` admitted tags, and an
 onion opens a gather exactly when its tag is not among them.
 */
module ReplayRuns {
  import opened Symbolic
  import opened Budget
  import opened Router
  import opened GatherRuns

  /** The last `n` entries of a sequence, or all of them. */
  function Last(tags: seq<nat>, n: nat): seq<nat> {
    if |tags| <= n then tags else tags[|tags| - n..]
  }

  /** The tag an input asks the filter about: that of an onion frame of the right width. */
  function Asks(c: Config, input: Input): Option<nat> {
    if input.OnionFrame? && |input.onion| == OnionLen(c.lineSize) then Some(c.tag(input.onion)) else None
  }

  /** The tags admitted by a run, in order: each asked-for tag that is not among the last `MAX_REPLAY_TAGS`. */
  function Admitted(c: Config, run: seq<Input>): seq<nat> {
    if run == [] then []
    else
      var before := Admitted(c, run[..|run| - 1]);
      match Asks(c, run[|run| - 1])
      case None => before
      case Some(tag) => if tag in Last(before, MAX_REPLAY_TAGS) then before else before + [tag]
  }

  predicate Distinct(tags: seq<nat>) {
    forall i, j :: 0 <= i < j < |tags| ==> tags[i] != tags[j]
  }

  /** The filter's two structures hold the same tags, each once. */
  ghost predicate Agree(s: State) {
    && Distinct(s.replayOrder)
    && |s.replayOrder| <= MAX_REPLAY_TAGS
    && (forall tag :: tag in s.replaySeen <==> tag in s.replayOrder)
  }

  lemma {:induction false} AdmitSlides(s: State, tag: nat, history: seq<nat>)
    requires Agree(s) && s.replayOrder == Last(history, MAX_REPLAY_TAGS)
    ensures var (t, isNew) := Admit(s, tag);
            && Agree(t)
            && isNew == (tag !in Last(history, MAX_REPLAY_TAGS))
            && t.replayOrder == Last(if isNew then history + [tag] else history, MAX_REPLAY_TAGS)
  {
    hide Agree, Last;
    AdmitAgrees(s, tag);
    LastOfMore(history, tag, MAX_REPLAY_TAGS);
    assert tag in s.replaySeen <==> tag in s.replayOrder by { SeenIsOrder(s, tag); }
  }

  lemma {:induction false} SeenIsOrder(s: State, tag: nat)
    requires Agree(s)
    ensures tag in s.replaySeen <==> tag in s.replayOrder
  {
  }

  lemma {:induction false} AdmitAgrees(s: State, tag: nat)
    requires Agree(s)
    ensures Agree(Admit(s, tag).0)
  {
    if tag !in s.replaySeen {
      var order := s.replayOrder + [tag];
      assert Distinct(order);
      assert forall other :: other in order <==> other in s.replayOrder || other == tag;
      DropFirst(order);
    }
  }

  lemma {:induction false} DropFirst(order: seq<nat>)
    requires Distinct(order) && order != []
    ensures Distinct(order[1..])
    ensures forall tag :: tag in order[1..] <==> tag in order && tag != order[0]
  {
    assert order == [order[0]] + order[1..];
    assert order[0] !in order[1..];
  }

  lemma {:induction false} LastOfMore(tags: seq<nat>, tag: nat, n: nat)
    requires n > 0
    ensures var order := Last(tags, n) + [tag];
            Last(tags + [tag], n) == if |order| > n then order[1..] else order
  {
  }

  predicate SameFilter(s: State, t: State) {
    s.replaySeen == t.replaySeen && s.replayOrder == t.replayOrder
  }

  lemma {:induction false} StepFilters(c: Config, s: State, input: Input)
    ensures var t := Step(c, s, input).0;
            match Asks(c, input)
            case None => SameFilter(s, t) && t.nextId == s.nextId
            case Some(tag) => SameFilter(Admit(s, tag).0, t) && t.nextId == s.nextId + if Admit(s, tag).1 then 1 else 0
  {
    hide TryPeel, Requests, OwnShares, EmitCover, StartCover, Remember, Takes, OnRequest, MaxPending;
    CoverKeepsGathers(c, s);
    match input
    case OnionFrame(line, onion) =>
      if |onion| == OnionLen(c.lineSize) { OnionFilters(c, s, line, onion); }
    case ReplyFrame(id, share) =>
      if id in s.pending {
        PeelFilters(c, s.(pending := s.pending[id := s.pending[id].(shares := s.pending[id].shares + [share])]), id);
      }
    case RequestFrame(_, _, _, _) =>
    case DropFrame(_, _, _) =>
    case Undecodable =>
    case Timer(_) =>
    case StartHeartbeat =>
    case Launch(_, _) =>
    case AdvanceEpoch =>
    case OtherCommand =>
  }

  lemma {:induction false} PeelFilters(c: Config, s: State, id: nat)
    requires id in s.pending
    ensures var t := TryPeel(c, s, id).0;
            SameFilter(s, t) && t.nextId == s.nextId
  {
    hide TryPeel, Peels, Remember;
    PeelAttempt(c, s, id);
  }

  lemma {:induction false} OnionFilters(c: Config, s: State, line: Coord, onion: Bytes)
    ensures var (t, admit) := (OnOnion(c, s, line, onion).0, Admit(s, c.tag(onion)));
            && SameFilter(admit.0, t)
            && t.nextId == s.nextId + if admit.1 then 1 else 0
  {
    hide TryPeel, Requests, OwnShares, MaxPending;
    var (s1, isNew) := Admit(s, c.tag(onion));
    if isNew { PeelFilters(c, OpenGather(c, s1, line, onion), s1.nextId); }
  }

  /** The filter holds exactly the last `MAX_REPLAY_TAGS` admitted tags, and one gather was opened for each admission. */
  lemma {:induction false} FilterIsTheLastTags(c: Config, run: seq<Input>)
    ensures var s := After(c, run);
            && Agree(s)
            && s.replayOrder == Last(Admitted(c, run), MAX_REPLAY_TAGS)
            && s.nextId == |Admitted(c, run)|
  {
    hide Step, Admit, Agree, Last;
    if run == [] {
      FilterStartsEmpty();
    } else {
      var before, input := run[..|run| - 1], run[|run| - 1];
      var s := After(c, before);
      FilterIsTheLastTags(c, before);
      StepFilters(c, s, input);
      if Asks(c, input).Some? { AdmitSlides(s, Asks(c, input).value, Admitted(c, before)); }
      AgreeFrames(s, After(c, run));
      if Asks(c, input).Some? { AgreeFrames(Admit(s, Asks(c, input).value).0, After(c, run)); }
    }
  }

  lemma {:induction false} FilterStartsEmpty()
    ensures Agree(INITIAL) && INITIAL.replayOrder == Last([], MAX_REPLAY_TAGS)
  {
  }

  lemma {:induction false} AgreeFrames(s: State, t: State)
    ensures Agree(s) && SameFilter(s, t) ==> Agree(t)
  {
  }

  /** Two admissions of one tag are more than `MAX_REPLAY_TAGS` admissions apart. */
  lemma {:induction false} ReplaysAreFarApart(c: Config, run: seq<Input>, i: nat, j: nat)
    requires i < j < |Admitted(c, run)| && Admitted(c, run)[i] == Admitted(c, run)[j]
    ensures j - i > MAX_REPLAY_TAGS
  {
    hide Asks;
    var before := Admitted(c, run[..|run| - 1]);
    if j < |before| {
      ReplaysAreFarApart(c, run[..|run| - 1], i, j);
    } else {
      var tag := Admitted(c, run)[j];
      assert before[i] == tag && tag !in Last(before, MAX_REPLAY_TAGS);
      LastHas(before, MAX_REPLAY_TAGS, i);
    }
  }

  lemma {:induction false} LastHas(tags: seq<nat>, n: nat, i: nat)
    requires i < |tags|
    ensures |tags| - i <= n ==> tags[i] in Last(tags, n)
  {
    if |tags| - i <= n < |tags| { assert Last(tags, n)[i - (|tags| - n)] == tags[i]; }
  }

  /** An onion of the right width opens a gather, of the next id, exactly when its tag is not among the last ones. */
  lemma {:induction false} OnionOpensIffNew(c: Config, run: seq<Input>, line: Coord, onion: Bytes)
    requires |onion| == OnionLen(c.lineSize)
    ensures var s := After(c, run);
            var (t, effects) := Step(c, s, OnionFrame(line, onion));
            if c.tag(onion) in Last(Admitted(c, run), MAX_REPLAY_TAGS) then t == s && effects == []
            else t.nextId == s.nextId + 1
  {
    hide After, Admitted, TryPeel, Requests, OwnShares, MakeRoom;
    FilterIsTheLastTags(c, run);
    var s := After(c, run);
    AdmitSlides(s, c.tag(onion), Admitted(c, run));
    OnionFilters(c, s, line, onion);
  }
}
