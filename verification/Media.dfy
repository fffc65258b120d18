/**
 The media session of a call: frames sealed under a per-direction epoch key, opened in any order, each
 checked against a 64-bit sliding replay window (section 3.3.2 of RFC 3711).

 The window is compared with an `Ideal` receiver that remembers every number.  They agree except on one
 number: when the highest number advances by exactly 64, the old highest is still in the window and its
 bit has just been cleared.
 */
module Media {
  import opened Symbolic

  const REPLAY_WINDOW: nat := 64

  function Zeros(n: nat): (z: seq<bool>)
    ensures |z| == n && forall i :: 0 <= i < n ==> !z[i]
  {
    if n == 0 then [] else Zeros(n - 1) + [false]
  }

  /** A `u64` as its bits, least significant first. */
  type Word = w: seq<bool> | |w| == REPLAY_WINDOW witness Zeros(REPLAY_WINDOW)

  const ZERO: Word := Zeros(REPLAY_WINDOW)

  function ShiftLeft(w: Word, places: nat): Word
    requires places <= REPLAY_WINDOW
  {
    Zeros(places) + w[..REPLAY_WINDOW - places]
  }

  function SetBit(w: Word, k: nat): Word
    requires k < REPLAY_WINDOW
  {
    w[k := true]
  }

  datatype Kind = Audio | Video | Data
  datatype Freshness = Fresh | AlreadySeen | PastWindow

  /** `bits[i]` is for number `highest - 1 - i`. */
  datatype Window = Window(highest: Option<nat>, bits: Word)

  const EMPTY: Window := Window(None, ZERO)

  function Classify(w: Window, n: nat): Freshness {
    if w.highest.None? || w.highest.value < n then Fresh
    else
      var d := w.highest.value - n;
      if d == 0 then AlreadySeen
      else if d <= REPLAY_WINDOW then if w.bits[d - 1] then AlreadySeen else Fresh
      else PastWindow
  }

  function Record(w: Window, n: nat): Window
    requires Classify(w, n) == Fresh
  {
    if w.highest.None? then w.(highest := Some(n))
    else
      var top := w.highest.value;
      if n <= top then w.(bits := SetBit(w.bits, top - n - 1))
      else
        var advance := n - top;
        Window(Some(n), if advance >= REPLAY_WINDOW then ZERO else SetBit(ShiftLeft(w.bits, advance), advance - 1))
  }

  // ----- The session -----

  /** A parsed frame, or bytes too short to be one. */
  datatype Frame = Frame(epoch: nat, n: nat, body: Body) | ShortFrame

  datatype Session = Session(sendKey: Key, recvKey: Key, epoch: nat, sendSeq: nat, window: Window, pastWindow: nat)

  datatype Role = Caller | Callee

  function SendLabel(role: Role): Label { if role == Caller then CallerLabel else CalleeLabel }

  function RecvLabel(role: Role): Label { if role == Caller then CalleeLabel else CallerLabel }

  function NewSession(secret: Key, role: Role): Session {
    Session(Hash(SendLabel(role), secret), Hash(RecvLabel(role), secret), 0, 0, EMPTY, 0)
  }

  function Rekey(s: Session): Session {
    Session(Hash(NextEpochLabel, s.sendKey), Hash(NextEpochLabel, s.recvKey), s.epoch + 1, 0, EMPTY, s.pastWindow)
  }

  function Tag(kind: Kind): bv8 { match kind case Audio => 0 case Video => 1 case Data => 2 }

  function KindOf(tag: bv8): Option<Kind> {
    if tag == 0 then Some(Audio) else if tag == 1 then Some(Video) else if tag == 2 then Some(Data) else None
  }

  function SealFrame(s: Session, kind: Kind, payload: Plain): (Session, Frame) {
    (s.(sendSeq := s.sendSeq + 1), Frame(s.epoch, s.sendSeq, Sealed(s.sendKey, s.sendSeq, [Tag(kind)] + payload)))
  }

  /** What a frame's body says under the receive key: kind and payload, if it is authentic. */
  function Contents(key: Key, n: nat, body: Body): Option<(Kind, Plain)> {
    match AeadOpen(key, n, body)
    case None => None
    case Some(inner) =>
      if inner == [] || KindOf(inner[0]).None? then None else Some((KindOf(inner[0]).value, inner[1..]))
  }

  predicate Authentic(s: Session, f: Frame) {
    f.Frame? && f.epoch == s.epoch && Contents(s.recvKey, f.n, f.body).Some?
  }

  function OpenFrame(s: Session, f: Frame): (Session, Option<(nat, Kind, Plain)>) {
    if f.ShortFrame? || f.epoch != s.epoch then (s, None)
    else
      match Classify(s.window, f.n)
      case AlreadySeen => (s, None)
      case PastWindow => (s.(pastWindow := s.pastWindow + 1), None)
      case Fresh =>
        match Contents(s.recvKey, f.n, f.body)
        case None => (s, None)
        case Some((kind, payload)) => (s.(window := Record(s.window, f.n)), Some((f.n, kind, payload)))
  }

  class MediaSession {
    var sendKey: Key
    var recvKey: Key
    var epoch: nat
    var sendSeq: nat
    var highestSeen: Option<nat>
    var seenBelow: Word
    var reorderedPastWindow: nat

    function View(): Session
      reads this
    {
      Session(sendKey, recvKey, epoch, sendSeq, Window(highestSeen, seenBelow), reorderedPastWindow)
    }

    constructor (secret: Key, role: Role)
      ensures View() == NewSession(secret, role)
    {
      sendKey, recvKey := Hash(SendLabel(role), secret), Hash(RecvLabel(role), secret);
      epoch, sendSeq, reorderedPastWindow := 0, 0, 0;
      highestSeen, seenBelow := None, ZERO;
    }

    method RekeySession()
      modifies this
      ensures View() == Rekey(old(View()))
    {
      sendKey := Hash(NextEpochLabel, sendKey);
      recvKey := Hash(NextEpochLabel, recvKey);
      epoch := epoch + 1;
      sendSeq := 0;
      highestSeen := None;
      seenBelow := ZERO;
    }

    method Seal(kind: Kind, payload: Plain) returns (f: Frame)
      modifies this
      ensures (View(), f) == SealFrame(old(View()), kind, payload)
    {
      f := Frame(epoch, sendSeq, Sealed(sendKey, sendSeq, [Tag(kind)] + payload));
      sendSeq := sendSeq + 1;
    }

    /** Authenticate before recording: only an accepted frame moves the window. */
    method Open(f: Frame) returns (r: Option<(nat, Kind, Plain)>)
      modifies this
      ensures (View(), r) == OpenFrame(old(View()), f)
    {
      if f.ShortFrame? || f.epoch != epoch { return None; }
      var freshness := Classify(Window(highestSeen, seenBelow), f.n);
      if freshness == AlreadySeen { return None; }
      if freshness == PastWindow {
        reorderedPastWindow := reorderedPastWindow + 1;
        return None;
      }
      var inner := AeadOpen(recvKey, f.n, f.body);
      if inner.None? || inner.value == [] { return None; }
      var kind := KindOf(inner.value[0]);
      if kind.None? { return None; }
      RecordSeen(f.n);
      return Some((f.n, kind.value, inner.value[1..]));
    }

    method RecordSeen(n: nat)
      requires Classify(View().window, n) == Fresh
      modifies this`highestSeen, this`seenBelow
      ensures View().window == Record(old(View().window), n)
    {
      if highestSeen.None? {
        highestSeen := Some(n);
      } else if n <= highestSeen.value {
        seenBelow := SetBit(seenBelow, highestSeen.value - n - 1);
      } else {
        var advance := n - highestSeen.value;
        seenBelow := if advance >= REPLAY_WINDOW then ZERO else SetBit(ShiftLeft(seenBelow, advance), advance - 1);
        highestSeen := Some(n);
      }
    }
  }

  // ----- The receiver that forgets nothing -----

  /** `lapsed` is the one number that is in range, was seen, and whose bit the window has lost. */
  datatype Ideal = Ideal(seen: set<nat>, top: Option<nat>, lapsed: Option<nat>)

  const BLANK: Ideal := Ideal({}, None, None)

  ghost function Judge(m: Ideal, n: nat): Freshness {
    if m.top.None? || m.top.value < n then Fresh
    else if m.top.value - n > REPLAY_WINDOW then PastWindow
    else if n in m.seen && m.lapsed != Some(n) then AlreadySeen
    else Fresh
  }

  ghost function Accept(m: Ideal, n: nat): Ideal {
    if m.top.None? || m.top.value < n then
      Ideal(m.seen + {n}, Some(n), if m.top == Some(n - REPLAY_WINDOW) then m.top else None)
    else Ideal(m.seen + {n}, m.top, if m.lapsed == Some(n) then None else m.lapsed)
  }

  ghost predicate IdealOk(m: Ideal) {
    && (m.top.None? ==> m.seen == {} && m.lapsed.None?)
    && (m.top.Some? ==> m.top.value in m.seen && forall i :: i in m.seen ==> i <= m.top.value)
    && (m.lapsed.Some? ==> m.lapsed.value in m.seen && m.top == Some(m.lapsed.value + REPLAY_WINDOW))
  }

  /** The bitmap says of each number in range whether it was seen, the lapsed one excepted. */
  ghost predicate Refines(w: Window, m: Ideal) {
    && IdealOk(m)
    && w.highest == m.top
    && (m.top.None? ==> w.bits == ZERO)
    && (m.top.Some? ==>
          forall i :: 0 <= i < REPLAY_WINDOW ==>
            (w.bits[i] <==> NumberAt(m.top.value, i) in m.seen && m.lapsed != Some(NumberAt(m.top.value, i))))
  }

  function NumberAt(top: nat, i: nat): int { top - 1 - i }

  /** The window gives the ideal receiver's verdict on every number. */
  lemma {:induction false} VerdictsAgree(w: Window, m: Ideal, n: nat)
    requires Refines(w, m)
    ensures Classify(w, n) == Judge(m, n)
  {
    if m.top.Some? && n < m.top.value && m.top.value - n <= REPLAY_WINDOW {
      assert NumberAt(m.top.value, m.top.value - n - 1) == n;
    }
  }

  /** Recording an accepted number is accepting it, bit by bit. */
  lemma {:induction false} RecordRefines(w: Window, m: Ideal, n: nat)
    requires Refines(w, m) && Classify(w, n) == Fresh
    ensures Refines(Record(w, n), Accept(m, n))
  {
    var w', m' := Record(w, n), Accept(m, n);
    if m.top.Some? {
      var top := m.top.value;
      forall i | 0 <= i < REPLAY_WINDOW
        ensures w'.bits[i] <==> NumberAt(m'.top.value, i) in m'.seen && m'.lapsed != Some(NumberAt(m'.top.value, i))
      {
        if top < n {
          var advance := n - top;
          if advance <= i { assert NumberAt(n, i) == NumberAt(top, i - advance); }
        }
      }
    }
  }

  // ----- Runs within an epoch -----

  /** The ideal receiver after offering it a run of authentic numbers, in order. */
  ghost function Ran(run: seq<nat>): Ideal {
    if run == [] then BLANK
    else
      var m, n := Ran(run[..|run| - 1]), run[|run| - 1];
      if Judge(m, n) == Fresh then Accept(m, n) else m
  }

  function Slide(run: seq<nat>): Window {
    if run == [] then EMPTY
    else
      var w, n := Slide(run[..|run| - 1]), run[|run| - 1];
      if Classify(w, n) == Fresh then Record(w, n) else w
  }

  /** The window refines the ideal receiver over every run. */
  lemma {:induction false} RunRefines(run: seq<nat>)
    ensures Refines(Slide(run), Ran(run))
    decreases |run|
  {
    hide Refines, Record, Accept;
    if run != [] {
      var k := |run| - 1;
      RunRefines(run[..k]);
      VerdictsAgree(Slide(run[..k]), Ran(run[..k]), run[k]);
      if Classify(Slide(run[..k]), run[k]) == Fresh { RecordRefines(Slide(run[..k]), Ran(run[..k]), run[k]); }
    } else {
      EmptyRefines();
    }
  }

  lemma {:induction false} EmptyRefines()
    ensures Refines(EMPTY, BLANK)
  {}

  predicate OpensAt(run: seq<nat>, i: nat)
    requires i < |run|
  {
    Classify(Slide(run[..i]), run[i]) == Fresh
  }

  /** The largest number of a run. */
  function Max(run: seq<nat>): (m: nat)
    requires run != []
    ensures m in run && forall i :: 0 <= i < |run| ==> run[i] <= m
  {
    var k := |run| - 1;
    if k == 0 then run[0]
    else if Max(run[..k]) < run[k] then run[k] else Max(run[..k])
  }

  /** A run's history in the ideal receiver: it saw what the run offered in time, and its top is the maximum. */
  lemma {:induction false} RanIsOk(run: seq<nat>)
    ensures IdealOk(Ran(run))
    ensures Ran(run).top == if run == [] then None else Some(Max(run))
    decreases |run|
  {
    if run != [] {
      var k := |run| - 1;
      RanIsOk(run[..k]);
    }
  }

  lemma {:induction false} OpensIffJudged(run: seq<nat>, i: nat)
    requires i < |run|
    ensures OpensAt(run, i) <==> Judge(Ran(run[..i]), run[i]) == Fresh
  {
    RunRefines(run[..i]);
    VerdictsAgree(Slide(run[..i]), Ran(run[..i]), run[i]);
  }

  /** Whatever was not seen before and is not past the window opens, in any order. */
  lemma {:induction false} UnseenOpens(run: seq<nat>, i: nat)
    requires i < |run|
    requires run[i] !in run[..i]
    requires i > 0 ==> Max(run[..i]) <= run[i] + REPLAY_WINDOW
    ensures OpensAt(run, i)
  {
    OpensIffJudged(run, i);
    RanIsOk(run[..i]);
    SeenWasOffered(run[..i], run[i]);
  }

  lemma {:induction false} SeenWasOffered(run: seq<nat>, n: nat)
    ensures n in Ran(run).seen ==> n in run
    decreases |run|
  {
    if run != [] {
      var k := |run| - 1;
      SeenWasOffered(run[..k], n);
      assert run == run[..k] + [run[k]];
    }
  }

  /** What opened stays seen. */
  lemma {:induction false} OpenedIsSeen(run: seq<nat>, i: nat)
    requires i < |run| && OpensAt(run, i)
    ensures run[i] in Ran(run).seen
    decreases |run|
  {
    var k := |run| - 1;
    if i == k {
      OpensIffJudged(run, i);
    } else {
      assert run[..k][..i] == run[..i];
      OpenedIsSeen(run[..k], i);
    }
  }

  /**
   The one hole, read off the numbers alone: the maximum moves from `run[j]` to exactly 64 above it at `i`,
   and `run[j]` arrives again before the maximum moves on and before it was let in once more.
   */
  ghost predicate Hole(run: seq<nat>, i: nat, j: nat) {
    && 0 < i < j < |run|
    && run[j] == Max(run[..i])
    && run[i] == run[j] + REPLAY_WINDOW
    && forall k :: i < k < j ==> run[k] <= run[i] && run[k] != run[j]
  }

  /** The lapsed number of a run is the old maximum of an advance by exactly 64. */
  lemma {:induction false} LapsedIsAHole(run: seq<nat>) returns (i: nat)
    requires Ran(run).lapsed.Some?
    ensures 0 < i < |run| && Max(run[..i]) == Ran(run).lapsed.value && run[i] == Max(run[..i]) + REPLAY_WINDOW
    ensures forall k :: i < k < |run| ==> run[k] <= run[i] && run[k] != Max(run[..i])
    decreases |run|
  {
    hide Max;
    var k := |run| - 1;
    var m, n := Ran(run[..k]), run[k];
    RanIsOk(run[..k]);
    if m.top.None? || m.top.value < n {
      i := k;
    } else {
      i := LapsedIsAHole(run[..k]);
      assert run[..k][..i] == run[..i];
    }
  }

  lemma {:induction false} HoleLapses(run: seq<nat>, i: nat)
    requires 0 < i < |run| && run[i] == Max(run[..i]) + REPLAY_WINDOW
    requires forall k :: i < k < |run| ==> run[k] <= run[i] && run[k] != Max(run[..i])
    ensures Ran(run).lapsed == Some(Max(run[..i])) && Ran(run).top == Some(run[i])
    decreases |run|
  {
    hide Max;
    var k := |run| - 1;
    RanIsOk(run[..k]);
    if i < k {
      assert run[..k][..i] == run[..i];
      HoleLapses(run[..k], i);
    }
  }

  lemma {:induction false} AgainIsAHole(run: seq<nat>, i: nat, j: nat) returns (a: nat)
    requires i < j < |run| && run[i] == run[j] && OpensAt(run, i) && OpensAt(run, j)
    ensures Hole(run, a, j)
  {
    hide Ran, Max, Slide;
    OpensIffJudged(run, j);
    assert run[..j][..i] == run[..i];
    OpenedIsSeen(run[..j], i);
    RanIsOk(run[..j]);
    a := LapsedIsAHole(run[..j]);
    assert run[..j][..a] == run[..a];
  }

  lemma {:induction false} HoleOpensAgain(run: seq<nat>, i: nat, j: nat) returns (first: nat)
    requires Hole(run, i, j)
    ensures first < j && run[first] == run[j] && OpensAt(run, first) && OpensAt(run, j)
  {
    hide Ran, Max, Slide;
    assert run[..j][..i] == run[..i];
    HoleLapses(run[..j], i);
    OpensIffJudged(run, j);
    first := FirstOf(run[..i], run[j]);
    assert run[..i][..first] == run[..first];
    UnseenTopOpens(run, i, first);
  }

  /** A number opens a second time exactly through the hole. */
  lemma {:induction false} OpensAgainIffHole(run: seq<nat>, j: nat)
    requires j < |run|
    ensures (OpensAt(run, j) && exists i :: 0 <= i < j && run[i] == run[j] && OpensAt(run, i))
            <==> exists i :: Hole(run, i, j)
  {
    hide OpensAt, Hole;
    if i :| 0 <= i < j && run[i] == run[j] && OpensAt(run, i) && OpensAt(run, j) {
      var a := AgainIsAHole(run, i, j);
    }
    if i :| Hole(run, i, j) {
      var first := HoleOpensAgain(run, i, j);
    }
  }

  /** The first place a number occurs. */
  lemma {:induction false} FirstOf(run: seq<nat>, n: nat) returns (i: nat)
    requires n in run
    ensures i < |run| && run[i] == n && n !in run[..i]
    decreases |run|
  {
    var k := |run| - 1;
    if n in run[..k] {
      i := FirstOf(run[..k], n);
      assert run[..k][..i] == run[..i];
    } else {
      i := k;
      assert run == run[..k] + [run[k]];
    }
  }

  lemma {:induction false} UnseenTopOpens(run: seq<nat>, i: nat, first: nat)
    requires first < i <= |run| && run[first] == Max(run[..i]) && run[first] !in run[..first]
    ensures OpensAt(run, first)
  {
    if first > 0 {
      var top := Max(run[..first]);
      var k :| 0 <= k < first && run[..first][k] == top;
      assert run[..i][k] == top;
    }
    UnseenOpens(run, first);
  }

  /** How often a number opened in a run. */
  ghost function Times(run: seq<nat>, n: nat): nat {
    if run == [] then 0
    else
      var k := |run| - 1;
      Times(run[..k], n) + if run[k] == n && OpensAt(run, k) then 1 else 0
  }

  /** No number opens more than twice, and one that may still lapse has opened once. */
  lemma {:induction false} OpensAtMostTwice(run: seq<nat>, n: nat)
    ensures Times(run, n) <= 2
    ensures n !in Ran(run).seen ==> Times(run, n) == 0
    ensures Ran(run).top == Some(n) || Ran(run).lapsed == Some(n) ==> Times(run, n) <= 1
    decreases |run|
  {
    if run != [] {
      var k := |run| - 1;
      OpensAtMostTwice(run[..k], n);
      OpensIffJudged(run, k);
      RanIsOk(run[..k]);
      assert run[..k] == run[..k][..k];
    }
  }

  /** The hole is real: numbers 0, 64, 0 all open. */
  lemma {:induction false} AnAdvanceOf64ReadmitsTheOldHighest()
    ensures OpensAt([0, 64, 0], 0) && OpensAt([0, 64, 0], 1) && OpensAt([0, 64, 0], 2)
  {
    var run: seq<nat> := [0, 64, 0];
    assert run[..1] == [0] && run[..2] == [0, 64];
    UnseenOpens(run, 0);
    UnseenOpens(run, 1);
    assert Hole(run, 1, 2);
    OpensAgainIffHole(run, 2);
  }

  // ----- Frames -----

  /** The session after a run of arbitrary frames. */
  function Opened(s: Session, frames: seq<Frame>): Session {
    if frames == [] then s else OpenFrame(Opened(s, frames[..|frames| - 1]), frames[|frames| - 1]).0
  }

  /** The numbers of a run's authentic frames. */
  function AuthenticNumbers(s: Session, frames: seq<Frame>): seq<nat> {
    if frames == [] then []
    else
      var k := |frames| - 1;
      AuthenticNumbers(s, frames[..k]) + if Authentic(s, frames[k]) then [frames[k].n] else []
  }

  /**
   Over any frames of an epoch (forged, stale, malformed or replayed among them) the window moves as over
   the authentic numbers alone, and a frame opens exactly when it is authentic and its number opens there.
   */
  lemma {:induction false} OnlyAuthenticFramesMatter(s: Session, frames: seq<Frame>, f: Frame)
    requires s.window == EMPTY
    ensures var s', run := Opened(s, frames), AuthenticNumbers(s, frames);
            && s'.window == Slide(run)
            && s'.(window := s.window, pastWindow := s.pastWindow) == s
            && (OpenFrame(s', f).1.Some? <==> Authentic(s, f) && OpensAt(run + [f.n], |run|))
    decreases |frames|
  {
    hide Record;
    var run := AuthenticNumbers(s, frames);
    if frames != [] {
      var k := |frames| - 1;
      OnlyAuthenticFramesMatter(s, frames[..k], frames[k]);
      var before := AuthenticNumbers(s, frames[..k]);
      if Authentic(s, frames[k]) {
        assert run == before + [frames[k].n];
        assert run[..|run| - 1] == before;
      } else {
        assert run == before;
      }
    }
    if f.Frame? { assert (run + [f.n])[..|run|] == run; }
  }

  // ----- Keys -----

  /** A key after `e` rekeys. */
  function EpochKey(key: Key, e: nat): Key { if e == 0 then key else Hash(NextEpochLabel, EpochKey(key, e - 1)) }

  /** No two (direction, epoch) pairs of a call share a key. */
  lemma {:induction false} KeysNeverCollide(secret: Key, a: Role, i: nat, b: Role, j: nat)
    requires EpochKey(Hash(SendLabel(a), secret), i) == EpochKey(Hash(SendLabel(b), secret), j)
    ensures a == b && i == j
    decreases i
  {
    if i > 0 && j > 0 { KeysNeverCollide(secret, a, i - 1, b, j - 1); }
  }

  /** A session of `role` after `e` rekeys of a call with this secret. */
  predicate InCall(s: Session, secret: Key, role: Role, e: nat) {
    && s.epoch == e
    && s.sendKey == EpochKey(Hash(SendLabel(role), secret), e)
    && s.recvKey == EpochKey(Hash(RecvLabel(role), secret), e)
  }

  /** Sealing and opening keep a session's keys, and rekeying steps both. */
  lemma {:induction false} SessionsStayInTheCall(s: Session, secret: Key, role: Role, e: nat, kind: Kind, payload: Plain, f: Frame)
    requires InCall(s, secret, role, e)
    ensures InCall(SealFrame(s, kind, payload).0, secret, role, e)
    ensures InCall(OpenFrame(s, f).0, secret, role, e)
    ensures InCall(Rekey(s), secret, role, e + 1)
    ensures InCall(NewSession(secret, role), secret, role, 0)
  {
    hide Classify, Contents, Record;
  }

  function Other(role: Role): Role { if role == Caller then Callee else Caller }

  /**
   A frame sealed by one party is authentic to the other party in the same epoch, with its own kind and payload,
   and to no other session of the call: not reflected to its sender, and not in another epoch.
   */
  lemma {:induction false} FramesAreForThePeer(
    secret: Key, a: Role, i: nat, s: Session, b: Role, j: nat, r: Session, kind: Kind, payload: Plain)
    requires InCall(s, secret, a, i) && InCall(r, secret, b, j)
    ensures var f := SealFrame(s, kind, payload).1;
            && (Authentic(r, f) <==> b == Other(a) && i == j)
            && (Authentic(r, f) ==> Contents(r.recvKey, f.n, f.body) == Some((kind, payload)))
  {
    hide EpochKey;
    var f := SealFrame(s, kind, payload).1;
    assert f.body.plain == [Tag(kind)] + payload;
    assert KindOf(Tag(kind)) == Some(kind);
    assert ([Tag(kind)] + payload)[1..] == payload;
    if r.recvKey == s.sendKey { KeysNeverCollide(secret, a, i, Other(b), j); }
  }

  /** A sealed frame opens at the peer, to its own number, kind and payload, exactly when the window takes its number. */
  lemma {:induction false} FrameRoundTrip(
    secret: Key, a: Role, e: nat, s: Session, r: Session, kind: Kind, payload: Plain)
    requires InCall(s, secret, a, e) && InCall(r, secret, Other(a), e)
    ensures var f := SealFrame(s, kind, payload).1;
            OpenFrame(r, f).1 == if Classify(r.window, f.n) == Fresh then Some((s.sendSeq, kind, payload)) else None
  {
    hide Classify, Record, EpochKey, Contents;
    FramesAreForThePeer(secret, a, e, s, Other(a), e, r, kind, payload);
  }
}
