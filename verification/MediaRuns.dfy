/**
 Whole runs of a call: two parties that seal, open and rekey in any order.  A party's frames are numbered from zero in
 every epoch, no two frames of the call share a key and a number, and whatever arrives within the window opens at
 the peer to what was said.
 */
module MediaRuns {
  import opened Symbolic
  import opened Media

  datatype Act = Seals(kind: Kind, payload: Plain) | Opens(frame: Frame) | Rekeys

  function Did(s: Session, act: Act): Session {
    match act
    case Seals(kind, payload) => SealFrame(s, kind, payload).0
    case Opens(f) => OpenFrame(s, f).0
    case Rekeys => Rekey(s)
  }

  /** The session after a run. */
  function Lived(s: Session, acts: seq<Act>): Session {
    if acts == [] then s else Did(Lived(s, acts[..|acts| - 1]), acts[|acts| - 1])
  }

  /** The frames a run seals, in order. */
  function Sent(s: Session, acts: seq<Act>): seq<Frame> {
    if acts == [] then []
    else
      var k := |acts| - 1;
      Sent(s, acts[..k]) +
      if acts[k].Seals? then [SealFrame(Lived(s, acts[..k]), acts[k].kind, acts[k].payload).1] else []
  }

  // ----- What was said, without a session -----

  /** How often a run rekeys. */
  function Epoch(acts: seq<Act>): nat {
    if acts == [] then 0 else Epoch(acts[..|acts| - 1]) + if acts[|acts| - 1].Rekeys? then 1 else 0
  }

  /** What a run says since its last rekey. */
  function Said(acts: seq<Act>): seq<(Kind, Plain)> {
    if acts == [] || acts[|acts| - 1].Rekeys? then []
    else
      var k := |acts| - 1;
      Said(acts[..k]) + if acts[k].Seals? then [(acts[k].kind, acts[k].payload)] else []
  }

  /** The frames it is offered since its last rekey. */
  function Heard(acts: seq<Act>): seq<Frame> {
    if acts == [] || acts[|acts| - 1].Rekeys? then []
    else
      var k := |acts| - 1;
      Heard(acts[..k]) + if acts[k].Opens? then [acts[k].frame] else []
  }

  /** Everything it says, each with its epoch and its number in it. */
  function Script(acts: seq<Act>): seq<(nat, nat, Kind, Plain)> {
    if acts == [] then []
    else
      var k := |acts| - 1;
      Script(acts[..k]) +
      if acts[k].Seals? then [(Epoch(acts[..k]), |Said(acts[..k])|, acts[k].kind, acts[k].payload)] else []
  }

  // ----- A session at any point of a run -----

  /** The key of one direction of a call in an epoch. */
  function DirectionKey(secret: Key, role: Role, e: nat): Key { EpochKey(Hash(SendLabel(role), secret), e) }

  /** A session of `role` in epoch `e` that has sealed and opened nothing. */
  function AtStart(secret: Key, role: Role, e: nat): Session {
    Session(DirectionKey(secret, role, e), DirectionKey(secret, Other(role), e), e, 0, EMPTY, 0)
  }

  lemma {:induction false} RekeyIsFresh(secret: Key, role: Role, e: nat, s: Session)
    requires s.sendKey == DirectionKey(secret, role, e) && s.recvKey == DirectionKey(secret, Other(role), e) && s.epoch == e
    ensures Rekey(s).(pastWindow := 0) == AtStart(secret, role, e + 1)
  {
  }

  /** After any run: the direction keys of the epoch, the next number, and the window of what was offered since the rekey. */
  lemma {:induction false} SessionIs(secret: Key, role: Role, acts: seq<Act>)
    ensures var s, e := Lived(NewSession(secret, role), acts), Epoch(acts);
            && s.sendKey == DirectionKey(secret, role, e) && s.recvKey == DirectionKey(secret, Other(role), e) && s.epoch == e
            && s.sendSeq == |Said(acts)|
            && s.window == Opened(AtStart(secret, role, e), Heard(acts)).window
    decreases |acts|
  {
    hide EpochKey, Classify, Record, Contents, OpenFrame;
    if acts == [] {
      StartsFresh(secret, role);
    } else {
      var k := |acts| - 1;
      SessionIs(secret, role, acts[..k]);
      var s, e := Lived(NewSession(secret, role), acts[..k]), Epoch(acts[..k]);
      match acts[k]
      case Seals(_, _) => assert Heard(acts) == Heard(acts[..k]);
      case Rekeys => RekeyIsFresh(secret, role, e, s);
      case Opens(f) =>
        var before := Heard(acts[..k]);
        assert Heard(acts)[..|before|] == before;
        OpenedKeepsKeys(AtStart(secret, role, e), before);
        WindowsAgree(s, Opened(AtStart(secret, role, e), before), f);
    }
  }

  lemma {:induction false} StartsFresh(secret: Key, role: Role)
    ensures NewSession(secret, role) == AtStart(secret, role, 0)
  {
  }

  lemma {:induction false} OpenedKeepsKeys(s: Session, frames: seq<Frame>)
    ensures var t := Opened(s, frames); t.recvKey == s.recvKey && t.epoch == s.epoch
    decreases |frames|
  {
    hide Classify, Record, Contents;
    if frames != [] { OpenedKeepsKeys(s, frames[..|frames| - 1]); }
  }

  /** Opening depends on the receive key, the epoch and the window alone. */
  lemma {:induction false} WindowsAgree(s: Session, t: Session, f: Frame)
    requires s.recvKey == t.recvKey && s.epoch == t.epoch && s.window == t.window
    ensures OpenFrame(s, f).1 == OpenFrame(t, f).1 && OpenFrame(s, f).0.window == OpenFrame(t, f).0.window
    ensures var u := OpenFrame(s, f).0; u.recvKey == s.recvKey && u.sendKey == s.sendKey && u.epoch == s.epoch && u.sendSeq == s.sendSeq
  {
    hide Classify, Record, Contents;
  }

  // ----- Numbers -----

  /** The frame that says `line` of a script. */
  function FrameFor(secret: Key, role: Role, line: (nat, nat, Kind, Plain)): Frame {
    var (e, n, kind, payload) := line;
    Frame(e, n, Sealed(DirectionKey(secret, role, e), n, [Tag(kind)] + payload))
  }

  /**
   What a party seals over any run: line by line its script, each under its direction's key of the epoch it is said in
   and numbered by its place in that epoch.
   */
  lemma {:induction false} SealsFollowTheScript(secret: Key, role: Role, acts: seq<Act>)
    ensures var frames, script := Sent(NewSession(secret, role), acts), Script(acts);
            |frames| == |script| && forall i :: 0 <= i < |script| ==> frames[i] == FrameFor(secret, role, script[i])
    decreases |acts|
  {
    hide EpochKey, Lived, Said, Epoch;
    if acts != [] {
      var k := |acts| - 1;
      SealsFollowTheScript(secret, role, acts[..k]);
      SessionIs(secret, role, acts[..k]);
    }
  }

  /** Within an epoch the numbers of a script are 0, 1, 2, ... in order. */
  lemma {:induction false} ScriptIsNumbered(acts: seq<Act>, n: nat)
    requires n < |Said(acts)|
    ensures exists i :: 0 <= i < |Script(acts)| && Script(acts)[i] == (Epoch(acts), n, Said(acts)[n].0, Said(acts)[n].1)
    decreases |acts|
  {
    var k := |acts| - 1;
    var before := Script(acts[..k]);
    if n < |Said(acts[..k])| {
      ScriptIsNumbered(acts[..k], n);
      var i :| 0 <= i < |before| && before[i] == (Epoch(acts[..k]), n, Said(acts[..k])[n].0, Said(acts[..k])[n].1);
      assert Script(acts)[i] == before[i];
    } else {
      assert Script(acts)[|before|] == (Epoch(acts), n, Said(acts)[n].0, Said(acts)[n].1);
    }
  }

  /** Epochs never fall along a script, and numbers rise within one. */
  predicate InOrder(a: (nat, nat, Kind, Plain), b: (nat, nat, Kind, Plain)) { a.0 < b.0 || (a.0 == b.0 && a.1 < b.1) }

  lemma {:induction false} ScriptRises(acts: seq<Act>)
    ensures forall i, j :: 0 <= i < j < |Script(acts)| ==> InOrder(Script(acts)[i], Script(acts)[j])
    ensures forall i :: 0 <= i < |Script(acts)| ==> InOrder(Script(acts)[i], (Epoch(acts), |Said(acts)|, Audio, []))
    decreases |acts|
  {
    if acts != [] { ScriptRises(acts[..|acts| - 1]); }
  }

  /** The `i`-th frame a party of the call seals. */
  function SentBy(secret: Key, role: Role, acts: seq<Act>, i: nat): Frame
    requires i < |Sent(NewSession(secret, role), acts)|
  {
    Sent(NewSession(secret, role), acts)[i]
  }

  /** No two frames of a call share a key and a number, whoever sealed them and whenever. */
  lemma {:induction false} NoKeyAndNumberTwice(
    secret: Key, a: Role, mine: seq<Act>, i: nat, b: Role, theirs: seq<Act>, j: nat)
    requires i < |Sent(NewSession(secret, a), mine)| && j < |Sent(NewSession(secret, b), theirs)| && (a == b ==> mine == theirs)
    ensures var x, y := SentBy(secret, a, mine, i), SentBy(secret, b, theirs, j);
            x.Frame? && y.Frame? && x.body.Sealed? && y.body.Sealed? && x.body.nonce == x.n && y.body.nonce == y.n
            && (x.body.key == y.body.key && x.n == y.n ==> a == b && i == j)
  {
    hide EpochKey, Sent, Script;
    SealsFollowTheScript(secret, a, mine);
    SealsFollowTheScript(secret, b, theirs);
    var x, y := Script(mine)[i], Script(theirs)[j];
    if DirectionKey(secret, a, x.0) == DirectionKey(secret, b, y.0) && x.1 == y.1 {
      KeysNeverCollide(secret, a, x.0, b, y.0);
      ScriptRises(mine);
      assert i < j ==> InOrder(x, y);
      assert j < i ==> InOrder(y, x);
    }
  }

  // ----- Delivery -----

  /** The frame that says number `n` of what `role` has said in its current epoch. */
  function SaidFrame(secret: Key, role: Role, acts: seq<Act>, n: nat): Frame
    requires n < |Said(acts)|
  {
    FrameFor(secret, role, (Epoch(acts), n, Said(acts)[n].0, Said(acts)[n].1))
  }

  lemma {:induction false} SaidFrameWasSent(secret: Key, role: Role, acts: seq<Act>, n: nat)
    requires n < |Said(acts)|
    ensures SaidFrame(secret, role, acts, n) in Sent(NewSession(secret, role), acts)
  {
    hide Sent, Script, Said, FrameFor, Epoch;
    SealsFollowTheScript(secret, role, acts);
    ScriptIsNumbered(acts, n);
    var i :| 0 <= i < |Script(acts)| && Script(acts)[i] == (Epoch(acts), n, Said(acts)[n].0, Said(acts)[n].1);
    assert Sent(NewSession(secret, role), acts)[i] == SaidFrame(secret, role, acts, n);
  }

  lemma {:induction false} FrameForSays(secret: Key, role: Role, line: (nat, nat, Kind, Plain), s: Session)
    requires s.recvKey == DirectionKey(secret, role, line.0)
    ensures var f := FrameFor(secret, role, line); Contents(s.recvKey, f.n, f.body) == Some((line.2, line.3))
  {
    hide EpochKey;
    var inner := [Tag(line.2)] + line.3;
    assert KindOf(Tag(line.2)) == Some(line.2);
    assert inner[1..] == line.3;
  }

  /** The numbers of the authentic frames a party of the call was offered since its last rekey. */
  function Numbers(secret: Key, role: Role, acts: seq<Act>): seq<nat> {
    AuthenticNumbers(AtStart(secret, role, Epoch(acts)), Heard(acts))
  }

  /**
   A frame opens at the peer to its own number, kind and payload whatever the peer did and was offered before, forged,
   stale and replayed frames included, if both are in one epoch, the number is new there and it is within the window.
   */
  lemma {:induction false} EveryFrameOpens(secret: Key, role: Role, acts: seq<Act>, n: nat, peer: seq<Act>)
    requires n < |Said(acts)| && Epoch(peer) == Epoch(acts)
    requires var numbers := Numbers(secret, Other(role), peer);
             n !in numbers && (numbers != [] ==> Max(numbers) <= n + REPLAY_WINDOW)
    ensures OpenFrame(Lived(NewSession(secret, Other(role)), peer), SaidFrame(secret, role, acts, n)).1
            == Some((n, Said(acts)[n].0, Said(acts)[n].1))
  {
    hide EpochKey, Classify, Record, Contents, Lived, Said, Heard, Epoch, AuthenticNumbers, Opened, Slide, Max;
    var e, numbers := Epoch(acts), Numbers(secret, Other(role), peer);
    var f := SaidFrame(secret, role, acts, n);
    var blank := AtStart(secret, Other(role), e);
    SessionIs(secret, Other(role), peer);
    OnlyAuthenticFramesMatter(blank, Heard(peer), f);
    OpenedKeepsKeys(blank, Heard(peer));
    WindowsAgree(Lived(NewSession(secret, Other(role)), peer), Opened(blank, Heard(peer)), f);
    FrameForSays(secret, role, (e, n, Said(acts)[n].0, Said(acts)[n].1), blank);
    var run := numbers + [n];
    assert run[..|numbers|] == numbers;
    UnseenOpens(run, |numbers|);
    assert Authentic(blank, f);
    OpensToContents(Opened(blank, Heard(peer)), f);
  }

  lemma {:induction false} OpensToContents(s: Session, f: Frame)
    requires OpenFrame(s, f).1.Some?
    ensures f.Frame? && Contents(s.recvKey, f.n, f.body).Some?
    ensures OpenFrame(s, f).1 == Some((f.n, Contents(s.recvKey, f.n, f.body).value.0, Contents(s.recvKey, f.n, f.body).value.1))
  {
    hide Classify, Record, Contents;
  }

  /** The deliveries of a schedule of numbers. */
  function Deliveries(secret: Key, role: Role, acts: seq<Act>, order: seq<nat>): seq<Act>
    requires forall k :: 0 <= k < |order| ==> order[k] < |Said(acts)|
  {
    seq(|order|, k requires 0 <= k < |order| => Opens(SaidFrame(secret, role, acts, order[k])))
  }

  lemma {:induction false} DeliveredNumbers(secret: Key, role: Role, acts: seq<Act>, peer: seq<Act>, order: seq<nat>)
    requires forall k :: 0 <= k < |order| ==> order[k] < |Said(acts)|
    requires Heard(peer) == [] && Epoch(peer) == Epoch(acts)
    ensures var all := peer + Deliveries(secret, role, acts, order);
            Epoch(all) == Epoch(acts) && Numbers(secret, Other(role), all) == order
    decreases |order|
  {
    hide Said, SaidFrame, Epoch, Heard, Numbers, Authentic, AtStart;
    var all := peer + Deliveries(secret, role, acts, order);
    if order == [] {
      assert all == peer;
      NothingHeard(secret, Other(role), peer);
    } else {
      var k := |order| - 1;
      DeliveredNumbers(secret, role, acts, peer, order[..k]);
      var f := SaidFrame(secret, role, acts, order[k]);
      assert all[..|all| - 1] == peer + Deliveries(secret, role, acts, order[..k]);
      assert all[|all| - 1] == Opens(f);
      DeliveredIsAuthentic(secret, role, acts, order[k]);
      OneMoreHeard(secret, role, acts, all, f);
      assert order == order[..k] + [order[k]];
    }
  }

  lemma {:induction false} NothingHeard(secret: Key, role: Role, acts: seq<Act>)
    requires Heard(acts) == []
    ensures Numbers(secret, role, acts) == []
  {
    hide Heard, Authentic;
  }

  lemma {:induction false} DeliveredIsAuthentic(secret: Key, role: Role, acts: seq<Act>, n: nat)
    requires n < |Said(acts)|
    ensures var f := SaidFrame(secret, role, acts, n); f.Frame? && f.n == n && Authentic(AtStart(secret, Other(role), Epoch(acts)), f)
  {
    hide EpochKey, Contents, Said;
    FrameForSays(secret, role, (Epoch(acts), n, Said(acts)[n].0, Said(acts)[n].1), AtStart(secret, Other(role), Epoch(acts)));
  }

  lemma {:induction false} OneMoreHeard(secret: Key, role: Role, acts: seq<Act>, all: seq<Act>, f: Frame)
    requires all != [] && all[|all| - 1] == Opens(f) && f.Frame? && Epoch(all[..|all| - 1]) == Epoch(acts)
    requires Authentic(AtStart(secret, Other(role), Epoch(acts)), f)
    ensures Epoch(all) == Epoch(acts)
    ensures Numbers(secret, Other(role), all) == Numbers(secret, Other(role), all[..|all| - 1]) + [f.n]
  {
    hide EpochKey, Contents, Authentic;
    var before := Heard(all[..|all| - 1]);
    assert Heard(all)[..|before|] == before;
  }

  /**
   Any order within the window: a peer that has just entered the epoch, after whatever went before, opens every frame of a
   schedule to what was said, as long as each comes once and no more than 64 behind the newest before it.
   */
  lemma {:induction false} AnyOrderWithinTheWindowOpens(
    secret: Key, role: Role, acts: seq<Act>, peer: seq<Act>, order: seq<nat>, i: nat)
    requires i < |order| && (forall k :: 0 <= k < |order| ==> order[k] < |Said(acts)|)
    requires Heard(peer) == [] && Epoch(peer) == Epoch(acts)
    requires order[i] !in order[..i] && (i > 0 ==> Max(order[..i]) <= order[i] + REPLAY_WINDOW)
    ensures var before := Lived(NewSession(secret, Other(role)), peer + Deliveries(secret, role, acts, order[..i]));
            OpenFrame(before, SaidFrame(secret, role, acts, order[i])).1
            == Some((order[i], Said(acts)[order[i]].0, Said(acts)[order[i]].1))
  {
    hide Lived, Said, Heard, Epoch, Numbers, SaidFrame, Max, OpenFrame;
    DeliveredNumbers(secret, role, acts, peer, order[..i]);
    EveryFrameOpens(secret, role, acts, order[i], peer + Deliveries(secret, role, acts, order[..i]));
  }

  /** The first frame after a rekey opens at once, whatever was opened before it. */
  lemma {:induction false} TheFirstFrameAfterARekeyOpens(
    secret: Key, role: Role, acts: seq<Act>, peer: seq<Act>, kind: Kind, payload: Plain)
    requires Epoch(acts) == Epoch(peer)
    ensures var sender := Lived(NewSession(secret, role), acts + [Rekeys]);
            var receiver := Lived(NewSession(secret, Other(role)), peer + [Rekeys]);
            OpenFrame(receiver, SealFrame(sender, kind, payload).1).1 == Some((0, kind, payload))
  {
    hide Lived, OpenFrame, EpochKey;
    var speaks := acts + [Rekeys] + [Seals(kind, payload)];
    assert speaks[..|speaks| - 1] == acts + [Rekeys] && (acts + [Rekeys])[..|acts|] == acts;
    assert (peer + [Rekeys])[..|peer|] == peer;
    SessionIs(secret, role, acts + [Rekeys]);
    EveryFrameOpens(secret, role, speaks, 0, peer + [Rekeys]);
  }

  /** Whatever opens is a frame of the epoch that was sealed under the receive key, with that number, kind and payload. */
  lemma {:induction false} WhatOpensWasSealed(s: Session, f: Frame)
    requires OpenFrame(s, f).1.Some?
    ensures var (n, kind, payload) := OpenFrame(s, f).1.value;
            f == Frame(s.epoch, n, Sealed(s.recvKey, n, [Tag(kind)] + payload))
  {
    hide Classify, Record;
    var inner := f.body.plain;
    assert inner == [inner[0]] + inner[1..];
  }

  // ----- Frames that came too late -----

  /** The frames of the current epoch that arrived more than 64 behind the newest authentic one. */
  ghost function TooLate(secret: Key, role: Role, acts: seq<Act>): nat {
    if acts == [] then 0
    else
      var k := |acts| - 1;
      var numbers := Numbers(secret, role, acts[..k]);
      TooLate(secret, role, acts[..k]) +
      if acts[k].Opens? && acts[k].frame.Frame? && acts[k].frame.epoch == Epoch(acts[..k])
         && numbers != [] && acts[k].frame.n + REPLAY_WINDOW < Max(numbers) then 1 else 0
  }

  /** The session counts exactly those. */
  lemma {:induction false} LateFramesAreCounted(secret: Key, role: Role, acts: seq<Act>)
    ensures Lived(NewSession(secret, role), acts).pastWindow == TooLate(secret, role, acts)
    decreases |acts|
  {
    hide EpochKey, Record, Contents, Classify, Numbers, Heard, Epoch, Max;
    if acts != [] {
      var k := |acts| - 1;
      LateFramesAreCounted(secret, role, acts[..k]);
      SessionIs(secret, role, acts[..k]);
      if acts[k].Opens? && acts[k].frame.Frame? { LateIsPast(secret, role, acts[..k], acts[k].frame.n); }
    }
  }

  lemma {:induction false} LateIsPast(secret: Key, role: Role, acts: seq<Act>, n: nat)
    ensures var numbers := Numbers(secret, role, acts);
            Classify(Lived(NewSession(secret, role), acts).window, n) == PastWindow <==>
            numbers != [] && n + REPLAY_WINDOW < Max(numbers)
  {
    hide EpochKey, Record, Contents, Classify, Heard, Lived, Opened, AuthenticNumbers, Slide, Ran, Max, Refines;
    var numbers := Numbers(secret, role, acts);
    SessionIs(secret, role, acts);
    OnlyAuthenticFramesMatter(AtStart(secret, role, Epoch(acts)), Heard(acts), ShortFrame);
    RunRefines(numbers);
    VerdictsAgree(Slide(numbers), Ran(numbers), n);
    RanIsOk(numbers);
  }
}
