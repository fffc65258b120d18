/**
 A run of two honest parties on a network that only delays, in which the epoch retired last is the one dropped.
 Every round trip leaves one message of the initiator behind; with the fifth epoch retired, the retired epoch whose
 key comes first is dropped, here the newest, and its late message is refused.
 */
module RatchetEviction {
  import opened Symbolic
  import opened Ratchet
  import opened RatchetRuns
  import Chain

  /** A byte order of keys in which `newest` comes first. */
  function NewestFirst(newest: Pub, q: Pub): nat { if q == newest then 0 else if q.Pub? then q.id + 2 else 1 }

  ghost function Order(newest: Pub): Pub -> nat { q => NewestFirst(newest, q) }

  lemma {:induction false} NewestIsFirst(newest: Pub, keys: set<Pub>)
    ensures Injective(Order(newest)) && IsFirst(newest, keys + {newest}, Order(newest))
  {
  }

  // ----- One more event -----

  lemma {:induction false} OneMore(start: World, run: seq<Event>, e: Event)
    requires Feasible(start, run) && Enabled(After(start, run), e)
    ensures Feasible(start, run + [e]) && After(start, run + [e]) == Step(After(start, run), e)
  {
    hide Enabled, Step;
    var more := run + [e];
    assert more[..|run|] == run;
    forall i | 0 <= i < |more|
      ensures Enabled(After(start, more[..i]), more[i])
    {
      if i < |run| { assert more[..i] == run[..i]; }
    }
  }

  /** What a party's own sealing leaves alone. */
  ghost predicate SameReceiving(p: Party, q: Party) { q.recv == p.recv && q.past == p.past && q.order == p.order }

  lemma {:induction false} SealKeepsReceiving(p: Party, coin: nat, newKey: nat, plain: Plain)
    ensures SameReceiving(p, Seal(p, coin, newKey, plain).0)
  {
  }

  lemma {:induction false} Ratchets(w: World, role: Role, plain: Plain)
    requires Sound(w) && SideOf(w, role).party.mustRatchet
    ensures var w', K := Step(w, Sealing(role, plain)), |w.h.epochs|;
            && Sound(w') && Extends(w.h, w'.h)
            && w'.h == w.h.(epochs := w.h.epochs + [NewEpoch(w.h, plain)], next := w.h.next + 2)
            && InHistory(w'.h, K, 0) && Packet(K, 0, MsgAt(w'.h, K, 0)) in w'.wire
            && SideOf(w', Other(role)) == SideOf(w, Other(role))
            && SameReceiving(SideOf(w, role).party, SideOf(w', role).party)
  {
    hide HistoryOk, RecvOk, PastOk, ReceiptsOk, MsgAt, NewEpoch, Seal, Extends, SideOk;
    StepIsSound(w, Sealing(role, plain));
    RatchetExtends(w.h, plain);
    OwnSideRatchets(w.h, role, SideOf(w, role), plain);
    SealKeepsReceiving(SideOf(w, role).party, w.h.next, w.h.next + 1, plain);
  }

  lemma {:induction false} NotWaiting(w: World, role: Role)
    requires Sound(w)
    ensures MadeLast(w.h, role) ==> !SideOf(w, role).party.mustRatchet
  {
    hide HistoryOk, WireOk, RecvOk, PastOk, ReceiptsOk;
  }

  lemma {:induction false} Sends(w: World, role: Role, plain: Plain)
    requires Sound(w) && MadeLast(w.h, role) && Mine(w.h, role) >= 0
    ensures var w', mine := Step(w, Sealing(role, plain)), Mine(w.h, role);
            && Sound(w') && w'.h == Append(w.h, mine, plain) && Extends(w.h, w'.h)
            && w.wire <= w'.wire
            && SideOf(w', Other(role)) == SideOf(w, Other(role))
            && SameReceiving(SideOf(w, role).party, SideOf(w', role).party)
  {
    hide HistoryOk, SideOk, WireOk, MsgAt, Seal, Extends, Append;
    NotWaiting(w, role);
    StepIsSound(w, Sealing(role, plain));
    AppendExtends(w.h, Mine(w.h, role), plain);
    OwnSideSends(w.h, role, SideOf(w, role), plain);
    SealKeepsReceiving(SideOf(w, role).party, w.h.next, w.h.next + 1, plain);
  }

  /** The first message of the latest epoch, as its maker sealed it, on its way to the other party. */
  function Greeting(w: World, role: Role): Event {
    var k := |w.h.epochs| - 1;
    if k < 0 || !InHistory(w.h, k, 0) then Forgery(role, MalformedMsg)
    else Delivery(role, Packet(k, 0, MsgAt(w.h, k, 0)), MsgAt(w.h, k, 0))
  }

  /** `role` is as before but for its move into epoch `k`. */
  ghost predicate Entering(w: World, w': World, role: Role, k: nat)
    requires InHistory(w.h, k, 0)
  {
    var p, e := SideOf(w, role).party, w.h.epochs[k];
    && w'.h == w.h && w'.wire == w.wire && SideOf(w', Other(role)) == SideOf(w, Other(role))
    && SideOf(w', role).party
       == p.(root := RootAt(w.h, k + 1), recv := Some(Entered(e)), peer := Some(Pub(e.id)),
             past := Retire(p, PnOf(MsgAt(w.h, k, 0))), mustRatchet := true)
  }

  lemma {:induction false} Enters(w: World, role: Role, k: nat)
    requires k == |w.h.epochs| - 1 && InHistory(w.h, k, 0) && Packet(k, 0, MsgAt(w.h, k, 0)) in w.wire
    requires Sound(w) && !MadeLast(w.h, role) && !SideOf(w, role).party.mustRatchet
    ensures var w' := Step(w, Greeting(w, role)); Enabled(w, Greeting(w, role)) && Sound(w') && Entering(w, w', role, k)
  {
    hide HistoryOk, RecvOk, PastOk, ReceiptsOk, Open, Retire, Entered, Chain.KeyOf;
    assert Maker(k) != role;
    NewGoesToKem(w.h, role, SideOf(w, role), k, 0, PnOf(MsgAt(w.h, k, 0)));
    StepIsSound(w, Greeting(w, role));
  }

  // ----- Round trips -----

  ghost predicate Numbered(h: History, id: nat) {
    h.next == id + 1 + 2 * |h.epochs| && forall k :: 0 <= k <= |h.epochs| ==> IdAt(h, k) == id + 2 * k
  }

  lemma {:induction false} RatchetIsNumbered(h: History, h': History, id: nat, plain: Plain)
    requires Numbered(h, id) && Extends(h, h') && |h'.epochs| == |h.epochs| + 1 && h'.next == h.next + 2
    requires h'.epochs[|h.epochs|] == NewEpoch(h, plain)
    ensures Numbered(h', id)
  {
    hide Extends;
    forall k | 0 <= k <= |h'.epochs|
      ensures IdAt(h', k) == id + 2 * k
    {
      if k <= |h.epochs| { StableIds(h, h', k); }
    }
  }

  lemma {:induction false} AppendIsNumbered(h: History, id: nat, k: nat, plain: Plain)
    requires Numbered(h, id) && k < |h.epochs|
    ensures Numbered(Append(h, k, plain), id)
  {
    assert forall j :: 0 <= j <= |h.epochs| ==> IdAt(Append(h, k, plain), j) == IdAt(h, j);
  }

  /** The responder is in the initiator's latest epoch, of whose two messages it opened the first. */
  ghost predicate OwedOne(h: History, k: nat, p: Party) {
    k < |h.epochs| && |h.epochs[k].plains| == 2 && p.recv == Some(Entered(h.epochs[k]))
  }

  /** After `t` round trips, each of which left one message behind. */
  ghost predicate Ready(w: World, newest: Pub, id: nat, t: nat) {
    && Sound(w) && |w.h.epochs| == 2 * t && Numbered(w.h, id) && w.a.party.mustRatchet
    && w.b.party.order == Order(newest)
    && |w.b.party.past| == (if t == 0 then 0 else t - 1)
    && (t > 0 ==> OwedOne(w.h, 2 * t - 2, w.b.party))
  }

  /** In the next round trip the initiator sealed two messages. */
  ghost predicate Sent(w: World, newest: Pub, id: nat, t: nat) {
    && Sound(w) && |w.h.epochs| == 2 * t + 1 && Numbered(w.h, id)
    && |w.h.epochs[2 * t].plains| == 2 && Packet(2 * t, 0, MsgAt(w.h, 2 * t, 0)) in w.wire
    && w.b.party.order == Order(newest) && !w.b.party.mustRatchet
    && |w.b.party.past| == (if t == 0 then 0 else t - 1)
    && (t > 0 ==> OwedOne(w.h, 2 * t - 2, w.b.party))
  }

  lemma {:induction false} StaysOnTheWire(w: World, w': World, k: nat)
    requires Sound(w) && Sound(w') && w.wire <= w'.wire && InHistory(w.h, k, 0) && Packet(k, 0, MsgAt(w.h, k, 0)) in w.wire
    ensures InHistory(w'.h, k, 0) && Packet(k, 0, MsgAt(w'.h, k, 0)) in w'.wire
  {
    hide HistoryOk, SideOk, MsgAt;
    var x := Packet(k, 0, MsgAt(w.h, k, 0));
    assert x in w'.wire;
    assert x.msg == MsgAt(w'.h, k, 0);
  }

  lemma {:induction false} InitiatorSendsTwo(w: World, newest: Pub, id: nat, t: nat, plain: Plain)
    requires Ready(w, newest, id, t)
    ensures Sent(Step(Step(w, Sealing(Initiator, plain)), Sealing(Initiator, plain)), newest, id, t)
  {
    hide HistoryOk, SideOk, Step, MsgAt, Extends, OwedOne, Numbered, WireOk;
    NotWaiting(w, Responder);
    var w1 := Step(w, Sealing(Initiator, plain));
    Ratchets(w, Initiator, plain);
    RatchetIsNumbered(w.h, w1.h, id, plain);
    var w2 := Step(w1, Sealing(Initiator, plain));
    Sends(w1, Initiator, plain);
    AppendIsNumbered(w1.h, id, 2 * t, plain);
    StaysOnTheWire(w1, w2, 2 * t);
    if t > 0 { OwedThrough(w.h, 2 * t - 2, w.b.party, NewEpoch(w.h, plain), w1.h.next, plain); }
  }

  lemma {:induction false} OwedThrough(h: History, k: nat, p: Party, e: Epoch, next: nat, plain: Plain)
    requires OwedOne(h, k, p) && k + 2 == |h.epochs|
    ensures OwedOne(Append(h.(epochs := h.epochs + [e], next := next), k + 2, plain), k, p)
  {
    hide Entered;
  }

  lemma {:induction false} EnteredIs(e: Epoch)
    requires e.plains != []
    ensures Entered(e).n == 1 && Entered(e).skipped == map[]
  {
    hide Chain.Cut, Chain.Retain, Chain.Advance, Chain.Banked, Chain.LiveKey, Chain.KeyOf;
    var c := Chain.NewRecv(e.chain);
    FreshIsLive(e.chain);
    Chain.NothingToEvict(Chain.Banked(c, 0));
  }

  lemma {:induction false} FreshIsLive(root: Key)
    ensures var c := Chain.NewRecv(root); Chain.Banked(c, 0) == map[] && Chain.LiveKey(c, 0) == Chain.KeyOf(root, 0)
  {
  }

  lemma {:induction false} BanksOne(c: Chain.Recv)
    requires c.n == 1 && c.skipped == map[]
    ensures Chain.BankThrough(c, 2).skipped != map[]
  {
    hide Chain.Cut, Chain.Retain, Chain.Advance, Chain.LiveKey;
    var all := Chain.Banked(c, 2);
    assert all.Keys == {1};
    assert |all| == |all.Keys|;
    Chain.NothingToEvict(all);
    assert 1 in Chain.BankThrough(c, 2).skipped;
  }

  /** The current epoch's key is not among the retired ones. */
  lemma {:induction false} CurrentIsNotRetired(w: World)
    requires Sound(w) && 0 <= Heard(w.h, Responder, w.b.party)
    ensures w.b.party.peer.Some? && w.b.party.peer.value !in w.b.party.past
  {
    hide HistoryOk, WireOk, RecvOk, ReceiptsOk, Chain.Tied, Got;
    assert w.b.party.peer == Some(Pub(w.h.epochs[Heard(w.h, Responder, w.b.party)].id));
  }

  /** Retiring an epoch with a message owed adds it to the retired ones while there is room. */
  lemma {:induction false} RetireAddsOne(p: Party)
    requires p.peer.Some? && p.recv.Some? && p.peer.value !in p.past && |p.past| < MAX_PAST_EPOCHS
    requires Chain.BankThrough(p.recv.value, 2).skipped != map[]
    ensures |Retire(p, 2)| == |p.past| + 1
  {
    hide Chain.BankThrough;
    var all := p.past[p.peer.value := Chain.BankThrough(p.recv.value, 2)];
    assert all.Keys == p.past.Keys + {p.peer.value};
    assert |all| == |all.Keys| && |p.past| == |p.past.Keys|;
  }

  /** The responder entered the initiator's latest epoch and retired the one before it. */
  ghost predicate Received(w: World, newest: Pub, id: nat, t: nat) {
    && Sound(w) && |w.h.epochs| == 2 * t + 1 && Numbered(w.h, id)
    && w.b.party.mustRatchet && w.b.party.order == Order(newest)
    && |w.b.party.past| == t && OwedOne(w.h, 2 * t, w.b.party)
  }

  lemma {:induction false} ResponderEnters(w: World, newest: Pub, id: nat, t: nat)
    requires Sent(w, newest, id, t) && t <= MAX_PAST_EPOCHS
    ensures Enabled(w, Greeting(w, Responder)) && Received(Step(w, Greeting(w, Responder)), newest, id, t)
  {
    hide HistoryOk, SideOk, Step, Entered, Numbered, WireOk, Retire, Enabled, Chain.KeyOf;
    Enters(w, Responder, 2 * t);
    if t > 0 {
      EnteredIs(w.h.epochs[2 * t - 2]);
      BanksOne(w.b.party.recv.value);
      CurrentIsNotRetired(w);
      RetireAddsOne(w.b.party);
    } else {
      NothingToRetire(w, PnOf(MsgAt(w.h, 0, 0)));
    }
  }

  lemma {:induction false} NothingToRetire(w: World, pn: nat)
    requires Sound(w) && Heard(w.h, Responder, w.b.party) < 0
    ensures Retire(w.b.party, pn) == w.b.party.past
  {
    hide HistoryOk, WireOk, ReceiptsOk, PastOk;
  }

  lemma {:induction false} ResponderAnswers(w: World, newest: Pub, id: nat, t: nat, plain: Plain)
    requires Received(w, newest, id, t)
    ensures var w1 := Step(w, Sealing(Responder, plain));
            Enabled(w1, Greeting(w1, Initiator)) && Ready(Step(w1, Greeting(w1, Initiator)), newest, id, t + 1)
  {
    hide HistoryOk, SideOk, Step, MsgAt, Extends, Entered, Numbered, WireOk, Retire, Enabled;
    var w1 := Step(w, Sealing(Responder, plain));
    Ratchets(w, Responder, plain);
    RatchetIsNumbered(w.h, w1.h, id, plain);
    NotWaiting(w, Initiator);
    Enters(w1, Initiator, 2 * t + 1);
  }

  lemma {:induction false} RoundTrip(start: World, run: seq<Event>, newest: Pub, id: nat, t: nat, plain: Plain)
    returns (more: seq<Event>)
    requires Feasible(start, run) && Ready(After(start, run), newest, id, t) && t <= MAX_PAST_EPOCHS
    ensures Feasible(start, more) && Ready(After(start, more), newest, id, t + 1)
  {
    hide Feasible, Ready, After, Step, Sent, Received, Greeting;
    more := SendTwo(start, run, newest, id, t, plain);
    var w := After(start, more);
    ResponderEnters(w, newest, id, t);
    OneMore(start, more, Greeting(w, Responder));
    more := more + [Greeting(w, Responder)];
    var w1 := After(start, more);
    ResponderAnswers(w1, newest, id, t, plain);
    OneMore(start, more, Sealing(Responder, plain));
    more := more + [Sealing(Responder, plain)];
    var w2 := After(start, more);
    OneMore(start, more, Greeting(w2, Initiator));
    more := more + [Greeting(w2, Initiator)];
  }

  lemma {:induction false} SendTwo(start: World, run: seq<Event>, newest: Pub, id: nat, t: nat, plain: Plain)
    returns (more: seq<Event>)
    requires Feasible(start, run) && Ready(After(start, run), newest, id, t)
    ensures Feasible(start, more) && Sent(After(start, more), newest, id, t)
  {
    hide Feasible, Ready, After, Step, Sent;
    InitiatorSendsTwo(After(start, run), newest, id, t, plain);
    OneMore(start, run, Sealing(Initiator, plain));
    OneMore(start, run + [Sealing(Initiator, plain)], Sealing(Initiator, plain));
    more := run + [Sealing(Initiator, plain)] + [Sealing(Initiator, plain)];
  }

  lemma {:induction false} RoundTrips(start: World, newest: Pub, id: nat, t: nat, plain: Plain) returns (run: seq<Event>)
    requires Ready(start, newest, id, 0) && t <= MAX_PAST_EPOCHS + 1
    ensures Feasible(start, run) && Ready(After(start, run), newest, id, t)
  {
    hide Ready;
    if t == 0 {
      run := [];
    } else {
      run := RoundTrips(start, newest, id, t - 1, plain);
      run := RoundTrip(start, run, newest, id, t - 1, plain);
    }
  }

  lemma {:induction false} GenesisIsReady(orderA: Pub -> nat, newest: Pub, id: nat, coin: nat)
    ensures Ready(Genesis(orderA, Order(newest), id, coin), newest, id, 0)
  {
    hide Sound;
    GenesisIsSound(orderA, Order(newest), id, coin);
  }

  /**
   In the world `w`, the responder opens the initiator's late message of epoch `k`; but once it has opened the first
   message of the epoch that follows, as it was sealed, it refuses the late one.
   */
  ghost predicate LateIsLost(w: World, k: nat) {
    && InHistory(w.h, k, 1) && InHistory(w.h, k + 2, 0)
    && Packet(k + 2, 0, MsgAt(w.h, k + 2, 0)) in w.wire
    && var b, late := w.b.party, MsgAt(w.h, k, 1);
       && Open(b, late).1 == Some(w.h.epochs[k].plains[1])
       && var b' := Open(b, MsgAt(w.h, k + 2, 0)).0;
          b'.past == b.past && |b'.past| == MAX_PAST_EPOCHS && Open(b', late) == (b', None)
  }

  lemma {:induction false} LateOpensNow(w: World, k: nat)
    requires Sound(w) && Heard(w.h, Responder, w.b.party) == k && OwedOne(w.h, k, w.b.party)
    ensures Open(w.b.party, MsgAt(w.h, k, 1)).1 == Some(w.h.epochs[k].plains[1])
  {
    hide HistoryOk, WireOk, PastOk, ReceiptsOk, Chain.Tied, Got, Chain.Open, Chain.KeyOf, Entered;
    EnteredIs(w.h.epochs[k]);
    Chain.HonestOpensIff(w.b.party.recv.value, w.h.epochs[k].chain, Got(w.b.got, k), 1, w.h.epochs[k].plains[1]);
  }

  lemma {:induction false} CurrentKey(w: World, k: nat)
    requires Sound(w) && Heard(w.h, Responder, w.b.party) == k
    ensures k < |w.h.epochs| && w.b.party.peer == Some(Pub(w.h.epochs[k].id)) == Some(Pub(IdAt(w.h, k + 1)))
  {
    hide HistoryOk, WireOk, PastOk, ReceiptsOk, RecvOk;
  }

  lemma {:induction false} LateIsRefused(h: History, p: Party, k: nat)
    requires InHistory(h, k, 1) && p.peer != Some(Pub(h.epochs[k].id)) && Pub(h.epochs[k].id) !in p.past
    ensures Open(p, MsgAt(h, k, 1)) == (p, None)
  {
    hide Chain.KeyOf, Chain.OpenSkipped;
  }

  lemma {:induction false} NewestIsDropped(w: World, newest: Pub)
    requires Sound(w) && Heard(w.h, Responder, w.b.party) == 8 && OwedOne(w.h, 8, w.b.party)
    requires w.b.party.order == Order(newest) && w.b.party.peer == Some(newest) && |w.b.party.past| == MAX_PAST_EPOCHS
    ensures Retire(w.b.party, 2) == w.b.party.past && newest !in w.b.party.past
  {
    hide Sound, Retire, Entered, Chain.BankThrough, IsFirst, Injective;
    EnteredIs(w.h.epochs[8]);
    BanksOne(w.b.party.recv.value);
    CurrentIsNotRetired(w);
    NewestIsFirst(newest, w.b.party.past.Keys);
    NewestIsDroppedIff(w.b.party, 2);
  }

  lemma {:induction false} FifthIsLost(w: World, id: nat)
    requires Sent(w, Pub(id + 18), id, 5)
    ensures LateIsLost(w, 8)
  {
    hide Sound, Step, Retire, Open, Entered, Enabled;
    LateOpensNow(w, 8);
    CurrentKey(w, 8);
    NewestIsDropped(w, Pub(id + 18));
    Enters(w, Responder, 10);
    GreetingOpens(w);
    assert Pub(IdAt(w.h, 11)) != Pub(id + 18);
    LateIsRefused(w.h, Open(w.b.party, MsgAt(w.h, 10, 0)).0, 8);
  }

  lemma {:induction false} GreetingOpens(w: World)
    requires |w.h.epochs| == 11 && InHistory(w.h, 10, 0)
    ensures Step(w, Greeting(w, Responder)).b.party == Open(w.b.party, MsgAt(w.h, 10, 0)).0
  {
    hide Open, MsgAt;
  }

  /**
   A run in which the epoch retired last is the one dropped: two honest parties, a network that loses and changes
   nothing but delivers one message of every epoch late, and keys whose bytes put the fifth epoch's before the others.
   */
  lemma {:induction false} TheNewestMayBeDropped(orderA: Pub -> nat, id: nat, coin: nat, plain: Plain) returns (run: seq<Event>)
    ensures var start := Genesis(orderA, Order(Pub(id + 18)), id, coin);
            Feasible(start, run) && LateIsLost(After(start, run), 8)
  {
    hide Genesis, Feasible, After, Ready, Sent, LateIsLost;
    var start := Genesis(orderA, Order(Pub(id + 18)), id, coin);
    GenesisIsReady(orderA, Pub(id + 18), id, coin);
    run := RoundTrips(start, Pub(id + 18), id, 5, plain);
    run := SendTwo(start, run, Pub(id + 18), id, 5, plain);
    FifthIsLost(After(start, run), id);
  }
}
