/**
 One party of the post-quantum double ratchet.

 `Party` is the value of a session.  A chain inside a session is an owned value, so the session holds
 `Chain.Recv` values, and each operation on one runs on a `Chain.RecvChain` of its own.
 */
module Ratchet {
  import opened Symbolic
  import Chain

  /** How many left-behind peer chains stay readable. */
  const MAX_PAST_EPOCHS: nat := 4

  /** A parsed message; `pub` is absent when the header's key does not decode. */
  datatype Msg =
    | RatchetMsg(pub: Option<Pub>, ct: KemText, pn: nat, n: nat, body: Body)
    | InChainMsg(pid: Pub, n: nat, body: Body)
    | MalformedMsg

  datatype Send = Send(key: Key, n: nat)

  /** `order` is the byte order of the 32-byte key ids; ids are collision-free, so a key is its own id. */
  datatype Party = Party(
    order: Pub -> nat,
    root: Key,
    self: Option<nat>,
    peer: Option<Pub>,
    send: Option<Send>,
    recv: Option<Chain.Recv>,
    past: map<Pub, Chain.Recv>,
    mustRatchet: bool)

  /** The KEM-ratchet KDF: the next root and the chain key. */
  function NextRoot(root: Key, shared: Key): Key { Hash(RkRootLabel, Hash(MixLabel, Pair(root, shared))) }
  function ChainKey(root: Key, shared: Key): Key { Hash(RkChainLabel, Hash(MixLabel, Pair(root, shared))) }

  predicate IsChain(k: Key) { k.Hash? && k.domain == RkChainLabel }

  /** A message key belongs to one number of one chain. */
  lemma {:induction false} KeyIsForOne(a: Key, i: nat, b: Key, j: nat)
    requires IsChain(a) && IsChain(b) && Chain.KeyOf(a, i) == Chain.KeyOf(b, j)
    ensures a == b && i == j
    decreases i
  {
    if i > 0 && j > 0 { KeyIsForOne(a, i - 1, b, j - 1); }
  }

  /** How many constructors a key is built from; each KEM step builds on the last. */
  function Size(k: Key): nat {
    match k
    case Hash(_, input) => 1 + Size(input)
    case Pair(l, r) => 1 + Size(l) + Size(r)
    case _ => 0
  }

  function Initiate(order: Pub -> nat, recipient: Pub, coin: nat): Option<(Party, KemText)> {
    match Encapsulate(recipient, coin)
    case None => None
    case Some((ct, shared)) =>
      Some((Party(order, Hash(RootLabel, shared), None, Some(recipient), None, None, map[], true), ct))
  }

  function Respond(order: Pub -> nat, secret: nat, handshake: KemText): Option<Party> {
    match Decapsulate(secret, handshake)
    case None => None
    case Some(shared) =>
      Some(Party(order, Hash(RootLabel, shared), Some(secret), None, None, None, map[], false))
  }

  /** Seal the next message; `coin` and `newKey` are the randomness of a ratchet step. */
  function Seal(p: Party, coin: nat, newKey: nat, plain: Plain): (Party, Option<Msg>) {
    if p.mustRatchet || p.send.None? then SealRatchet(p, coin, newKey, plain) else SealInChain(p, plain)
  }

  function SealRatchet(p: Party, coin: nat, newKey: nat, plain: Plain): (Party, Option<Msg>) {
    if p.peer.None? then (p, None)
    else
      match Encapsulate(p.peer.value, coin)
      case None => (p, None)
      case Some((ct, shared)) =>
        var chain := ChainKey(p.root, shared);
        var pn := if p.send.Some? then p.send.value.n else 0;
        var body := Sealed(Chain.MessageKey(chain), 0, plain);
        (p.(root := NextRoot(p.root, shared), self := Some(newKey), send := Some(Send(Chain.NextKey(chain), 1)),
            mustRatchet := false),
         Some(RatchetMsg(Some(Pub(newKey)), ct, pn, 0, body)))
  }

  function SealInChain(p: Party, plain: Plain): (Party, Option<Msg>) {
    if p.self.None? || p.send.None? then (p, None)
    else
      var s := p.send.value;
      (p.(send := Some(Send(Chain.NextKey(s.key), s.n + 1))),
       Some(InChainMsg(Pub(p.self.value), s.n, Sealed(Chain.MessageKey(s.key), s.n, plain))))
  }

  ghost function Open(p: Party, m: Msg): (Party, Option<Plain>) {
    match m
    case MalformedMsg => (p, None)
    case InChainMsg(pid, n, body) =>
      if p.peer == Some(pid) then OpenCurrent(p, n, body) else OpenPast(p, pid, n, body)
    case RatchetMsg(pub, ct, pn, n, body) =>
      if pub.None? then (p, None)
      else if p.peer == pub then OpenCurrent(p, n, body)
      else if pub.value in p.past then OpenPast(p, pub.value, n, body)
      else if n != 0 then (p, None)
      else OpenFresh(p, pub.value, ct, pn, body)
  }

  /** Open on the live receive chain. */
  ghost function OpenCurrent(p: Party, n: nat, body: Body): (Party, Option<Plain>) {
    if p.recv.None? then (p, None)
    else
      var (c, r) := Chain.Open(p.recv.value, n, body);
      (p.(recv := Some(c)), r)
  }

  /** Try the keys kept for a chain left behind, which is forgotten with its last key. */
  ghost function OpenPast(p: Party, pid: Pub, n: nat, body: Body): (Party, Option<Plain>) {
    if pid !in p.past then (p, None)
    else
      var (c, r) := Chain.OpenSkipped(p.past[pid], n, body);
      if r.None? then (p, None)
      else (p.(past := if c.skipped == map[] then p.past - {pid} else p.past[pid := c]), r)
  }

  /** The first message of a peer chain not seen before: run the KEM step. */
  ghost function OpenFresh(p: Party, pub: Pub, ct: KemText, pn: nat, body: Body): (Party, Option<Plain>) {
    if p.self.None? then (p, None)
    else
      match Decapsulate(p.self.value, ct)
      case None => (p, None)
      case Some(shared) =>
        var (c, r) := Chain.Open(Chain.NewRecv(ChainKey(p.root, shared)), 0, body);
        if r.None? then (p, None)
        else
          (p.(root := NextRoot(p.root, shared), recv := Some(c), peer := Some(pub), past := Retire(p, pn),
              mustRatchet := true),
           r)
  }

  /** The retired epochs once the current receive chain is left: bank what it owes, then prune. */
  ghost function Retire(p: Party, pn: nat): map<Pub, Chain.Recv> {
    if p.peer.None? || p.recv.None? then p.past
    else
      var left := Chain.BankThrough(p.recv.value, pn);
      if left.skipped == map[] then p.past
      else Prune(p.past[p.peer.value := left], p.order)
  }

  ghost predicate IsFirst(q: Pub, s: set<Pub>, order: Pub -> nat) {
    q in s && forall x :: x in s ==> order(q) <= order(x)
  }

  ghost function First(s: set<Pub>, order: Pub -> nat): (q: Pub)
    requires s != {}
    ensures IsFirst(q, s, order)
  {
    FirstExists(s, order);
    var q :| IsFirst(q, s, order);
    q
  }

  lemma {:induction false} FirstExists(s: set<Pub>, order: Pub -> nat)
    requires s != {}
    ensures exists q :: IsFirst(q, s, order)
  {
    var q :| q in s;
    if s == {q} {
      assert IsFirst(q, s, order);
    } else {
      FirstExists(s - {q}, order);
      var x :| IsFirst(x, s - {q}, order);
      assert IsFirst(if order(q) <= order(x) then q else x, s, order);
    }
  }

  /** Drop the smallest-id epochs past the cap; what stays is unchanged and within the cap. */
  ghost function Prune(past: map<Pub, Chain.Recv>, order: Pub -> nat): (r: map<Pub, Chain.Recv>)
    ensures r.Keys <= past.Keys && forall q :: q in r ==> r[q] == past[q]
    ensures |r| == if |past| <= MAX_PAST_EPOCHS then |past| else MAX_PAST_EPOCHS
    ensures |past| <= MAX_PAST_EPOCHS ==> r == past
    decreases |past|
  {
    if |past| <= MAX_PAST_EPOCHS then past
    else
      var q := First(past.Keys, order);
      assert (past - {q}).Keys == past.Keys - {q};
      Prune(past - {q}, order)
  }

  /** Distinct ids have distinct bytes. */
  ghost predicate Injective(order: Pub -> nat) {
    forall x, y :: order(x) == order(y) ==> x == y
  }

  /** Run one operation of an owned chain. */
  method ChainOpen(c: Chain.Recv, n: nat, body: Body) returns (c': Chain.Recv, r: Option<Plain>)
    ensures c' == Chain.Open(c, n, body).0
    ensures r == Chain.Open(c, n, body).1
  {
    var o := new Chain.RecvChain(c);
    r := o.OpenMessage(n, body);
    c' := Chain.Recv(o.key, o.n, o.skipped);
  }

  class DoubleRatchet {
    const order: Pub -> nat
    var root: Key
    var self: Option<nat>
    var peer: Option<Pub>
    var send: Option<Send>
    var recv: Option<Chain.Recv>
    var past: map<Pub, Chain.Recv>
    var mustRatchet: bool

    ghost function View(): Party
      reads this
    {
      Party(order, root, self, peer, send, recv, past, mustRatchet)
    }

    constructor (p: Party)
      ensures View() == p
    {
      order := p.order;
      root, self, peer, send := p.root, p.self, p.peer, p.send;
      recv, past, mustRatchet := p.recv, p.past, p.mustRatchet;
    }

    method SealMessage(coin: nat, newKey: nat, plain: Plain) returns (m: Option<Msg>)
      modifies this
      ensures View() == Seal(old(View()), coin, newKey, plain).0
      ensures m == Seal(old(View()), coin, newKey, plain).1
    {
      if mustRatchet || send.None? {
        if peer.None? { return None; }
        var kem := Encapsulate(peer.value, coin);
        if kem.None? { return None; }
        var (ct, shared) := kem.value;
        var chain := ChainKey(root, shared);
        var pn := if send.Some? then send.value.n else 0;
        m := Some(RatchetMsg(Some(Pub(newKey)), ct, pn, 0, Sealed(Chain.MessageKey(chain), 0, plain)));
        root := NextRoot(root, shared);
        self := Some(newKey);
        send := Some(Send(Chain.NextKey(chain), 1));
        mustRatchet := false;
      } else {
        if self.None? { return None; }
        var s := send.value;
        m := Some(InChainMsg(Pub(self.value), s.n, Sealed(Chain.MessageKey(s.key), s.n, plain)));
        send := Some(Send(Chain.NextKey(s.key), s.n + 1));
      }
    }

    method OpenMessage(m: Msg) returns (r: Option<Plain>)
      requires Injective(order)
      modifies this
      ensures View() == Open(old(View()), m).0
      ensures r == Open(old(View()), m).1
    {
      match m
      case MalformedMsg => return None;
      case InChainMsg(pid, n, body) =>
        if peer == Some(pid) { r := OnCurrent(n, body); } else { r := OnPast(pid, n, body); }
      case RatchetMsg(pub, ct, pn, n, body) =>
        if pub.None? { return None; }
        if peer == pub { r := OnCurrent(n, body); return; }
        if pub.value in past { r := OnPast(pub.value, n, body); return; }
        if n != 0 { return None; }
        r := OnFresh(pub.value, ct, pn, body);
    }

    method OnCurrent(n: nat, body: Body) returns (r: Option<Plain>)
      modifies this
      ensures View() == OpenCurrent(old(View()), n, body).0
      ensures r == OpenCurrent(old(View()), n, body).1
    {
      if recv.None? { return None; }
      var c;
      c, r := ChainOpen(recv.value, n, body);
      recv := Some(c);
    }

    method OnPast(pid: Pub, n: nat, body: Body) returns (r: Option<Plain>)
      modifies this
      ensures View() == OpenPast(old(View()), pid, n, body).0
      ensures r == OpenPast(old(View()), pid, n, body).1
    {
      if pid !in past { return None; }
      var chain := new Chain.RecvChain(past[pid]);
      r := chain.OpenBanked(n, body);
      if r.None? { return; }
      var c := Chain.Recv(chain.key, chain.n, chain.skipped);
      past := if c.skipped == map[] then past - {pid} else past[pid := c];
    }

    method OnFresh(pub: Pub, ct: KemText, pn: nat, body: Body) returns (r: Option<Plain>)
      requires Injective(order)
      modifies this
      ensures View() == OpenFresh(old(View()), pub, ct, pn, body).0
      ensures r == OpenFresh(old(View()), pub, ct, pn, body).1
    {
      if self.None? { return None; }
      var shared := Decapsulate(self.value, ct);
      if shared.None? { return None; }
      var c;
      c, r := ChainOpen(Chain.NewRecv(ChainKey(root, shared.value)), 0, body);
      if r.None? { return; }
      RetireCurrent(pn);
      root := NextRoot(root, shared.value);
      recv := Some(c);
      peer := Some(pub);
      mustRatchet := true;
    }

    method RetireCurrent(pn: nat)
      requires Injective(order)
      modifies this`past
      ensures past == Retire(old(View()), pn)
    {
      if peer.None? || recv.None? { return; }
      var leaving := new Chain.RecvChain(recv.value);
      var _ := leaving.Bank(pn);
      var c := Chain.Recv(leaving.key, leaving.n, leaving.skipped);
      if c.skipped == map[] { return; }
      past := past[peer.value := c];
      PrunePast();
    }

    method PrunePast()
      requires Injective(order)
      modifies this`past
      ensures past == Prune(old(past), order)
    {
      ghost var all := past;
      while |past| > MAX_PAST_EPOCHS
        invariant Prune(past, order) == Prune(all, order)
        decreases |past|
      {
        var q := FindFirst(past.Keys, order);
        assert q == First(past.Keys, order);
        assert (past - {q}).Keys == past.Keys - {q};
        past := past - {q};
      }
    }
  }

  /** Read the smallest id of a non-empty set. */
  method FindFirst(s: set<Pub>, order: Pub -> nat) returns (q: Pub)
    requires s != {}
    ensures IsFirst(q, s, order)
  {
    q :| q in s;
    var rest := s - {q};
    while rest != {}
      invariant q in s && rest <= s
      invariant forall x :: x in s ==> x in rest || order(q) <= order(x)
      decreases |rest|
    {
      var x :| x in rest;
      rest := rest - {x};
      if order(x) < order(q) { q := x; }
    }
  }

  /** A refused message, whatever it is, leaves the whole session as it was. */
  lemma {:induction false} RefusalChangesNothing(p: Party, m: Msg)
    requires Open(p, m).1.None?
    ensures Open(p, m).0 == p
  {}

  /** A message that no key holder sealed is always refused. */
  lemma {:induction false} ForgeryIsRefused(p: Party, m: Msg)
    requires m.MalformedMsg? || m.body.Forged?
    ensures Open(p, m) == (p, None)
  {}

  /** At most `MAX_PAST_EPOCHS` retired epochs are kept, whatever arrives. */
  lemma {:induction false} PastStaysBounded(p: Party, m: Msg)
    requires |p.past| <= MAX_PAST_EPOCHS
    ensures |Open(p, m).0.past| <= MAX_PAST_EPOCHS
  {
    match m
    case MalformedMsg =>
    case InChainMsg(pid, n, body) => OpenPastShrinks(p, pid, n, body);
    case RatchetMsg(pub, ct, pn, n, body) => if pub.Some? { OpenPastShrinks(p, pub.value, n, body); }
  }

  lemma {:induction false} OpenPastShrinks(p: Party, pid: Pub, n: nat, body: Body)
    ensures |OpenPast(p, pid, n, body).0.past| <= |p.past|
  {
    if pid in p.past {
      var c := Chain.OpenSkipped(p.past[pid], n, body).0;
      assert (p.past - {pid}).Keys == p.past.Keys - {pid};
      assert p.past[pid := c].Keys == p.past.Keys;
    }
  }

  // ----- No header moves a chain far -----

  /** A chain of `after` is one of `before` moved on by at most `bound` numbers. */
  predicate MovedAtMost(before: Chain.Recv, after: Chain.Recv, bound: nat) { before.n <= after.n <= before.n + bound }

  /**
   Whatever a message says, it moves the live chain it opens on by at most the skip bound and itself, and the chain it
   leaves behind by at most the skip bound; a retired chain stays where it was.
   */
  lemma {:induction false} NoMessageMovesAChainFar(p: Party, m: Msg)
    ensures var p' := Open(p, m).0;
            && (p'.peer == p.peer && p.recv.Some? ==>
                  p'.recv.Some? && MovedAtMost(p.recv.value, p'.recv.value, Chain.MAX_SKIP_PER_MESSAGE + 1))
            && (p'.peer != p.peer ==> p'.recv.Some? && p'.recv.value.n == 1)
            && (forall q :: q in p'.past ==>
                  || (q in p.past && p'.past[q].n == p.past[q].n)
                  || (p.peer == Some(q) && p.recv.Some? && MovedAtMost(p.recv.value, p'.past[q], Chain.MAX_SKIP_PER_MESSAGE)))
  {
    hide Chain.Open, Chain.OpenSkipped, OpenFresh, OpenPast;
    match m
    case MalformedMsg =>
    case InChainMsg(pid, n, body) =>
      if p.recv.Some? { Chain.OpenMovesWithinTheBound(p.recv.value, n, body); }
      PastStaysPut(p, pid, n, body);
    case RatchetMsg(pub, ct, pn, n, body) =>
      if pub.Some? {
        if p.recv.Some? { Chain.OpenMovesWithinTheBound(p.recv.value, n, body); }
        PastStaysPut(p, pub.value, n, body);
        FreshMovesLittle(p, pub.value, ct, pn, body);
      }
  }

  lemma {:induction false} PastStaysPut(p: Party, pid: Pub, n: nat, body: Body)
    ensures var p' := OpenPast(p, pid, n, body).0;
            p'.peer == p.peer && p'.recv == p.recv && forall q :: q in p'.past ==> q in p.past && p'.past[q].n == p.past[q].n
  {
    if pid in p.past { SkippedStaysPut(p.past[pid], n, body); }
    hide Chain.OpenSkipped;
  }

  lemma {:induction false} SkippedStaysPut(c: Chain.Recv, n: nat, body: Body)
    ensures Chain.OpenSkipped(c, n, body).0.n == c.n
  {
  }

  lemma {:induction false} FreshMovesLittle(p: Party, pub: Pub, ct: KemText, pn: nat, body: Body)
    ensures var (p', r) := OpenFresh(p, pub, ct, pn, body);
            if r.None? then p' == p
            else
              && p'.peer == Some(pub) && p'.recv.Some? && p'.recv.value.n == 1
              && (forall q :: q in p'.past ==>
                    || (q in p.past && p'.past[q] == p.past[q])
                    || (p.peer == Some(q) && p.recv.Some? && MovedAtMost(p.recv.value, p'.past[q], Chain.MAX_SKIP_PER_MESSAGE)))
  {
    hide Chain.BankThrough, Prune, Chain.Retain, Chain.Advance;
    if p.recv.Some? { Chain.BankMovesWithinTheBound(p.recv.value, pn); }
    RetiredChains(p, pn);
  }

  lemma {:induction false} RetiredChains(p: Party, pn: nat)
    ensures forall q :: q in Retire(p, pn) ==>
              || (q in p.past && Retire(p, pn)[q] == p.past[q])
              || (p.peer == Some(q) && p.recv.Some? && Retire(p, pn)[q] == Chain.BankThrough(p.recv.value, pn))
  {
    hide Chain.BankThrough, Prune;
  }

  // ----- Which retired epoch is dropped -----

  /** Pruning five epochs drops exactly the one whose id comes first. */
  lemma {:induction false} FifthIsTheLeast(past: map<Pub, Chain.Recv>, order: Pub -> nat, q: Pub)
    requires Injective(order) && |past| == MAX_PAST_EPOCHS + 1 && q in past
    ensures Prune(past, order) == past - {q} <==> IsFirst(q, past.Keys, order)
  {
    var first := First(past.Keys, order);
    assert (past - {first}).Keys == past.Keys - {first};
    assert |past - {first}| == MAX_PAST_EPOCHS by { assert |past - {first}| == |(past - {first}).Keys|; assert |past| == |past.Keys|; }
    assert Prune(past, order) == past - {first};
    if IsFirst(q, past.Keys, order) { assert order(q) == order(first); }
    if Prune(past, order) == past - {q} { assert q !in (past - {first}).Keys; }
  }

  /**
   A ratchet that retires a fifth epoch keeps all but `oldest` if and only if `oldest` has the least id of the five,
   the newest included; the age of an epoch plays no part.
   */
  lemma {:induction false} OldestIsDroppedIff(p: Party, pn: nat, oldest: Pub)
    requires Injective(p.order) && p.peer.Some? && p.recv.Some? && p.peer.value !in p.past
    requires |p.past| == MAX_PAST_EPOCHS && oldest in p.past && Chain.BankThrough(p.recv.value, pn).skipped != map[]
    ensures Retire(p, pn).Keys == p.past.Keys + {p.peer.value} - {oldest} <==>
            IsFirst(oldest, p.past.Keys + {p.peer.value}, p.order)
  {
    hide Chain.BankThrough, Prune;
    var all := p.past[p.peer.value := Chain.BankThrough(p.recv.value, pn)];
    assert all.Keys == p.past.Keys + {p.peer.value};
    assert |all| == |all.Keys| == |p.past.Keys| + 1 == |p.past| + 1;
    FifthIsTheLeast(all, p.order, oldest);
    var kept := Retire(p, pn);
    assert kept == Prune(all, p.order);
    assert (all - {oldest}).Keys == all.Keys - {oldest};
    if kept.Keys == all.Keys - {oldest} { assert kept == all - {oldest}; }
  }

  /** The epoch just left, the newest, is dropped at once if and only if its own id is the least. */
  lemma {:induction false} NewestIsDroppedIff(p: Party, pn: nat)
    requires Injective(p.order) && p.peer.Some? && p.recv.Some? && p.peer.value !in p.past
    requires |p.past| == MAX_PAST_EPOCHS && Chain.BankThrough(p.recv.value, pn).skipped != map[]
    ensures Retire(p, pn) == p.past <==> IsFirst(p.peer.value, p.past.Keys + {p.peer.value}, p.order)
  {
    hide Chain.BankThrough, Prune;
    var all := p.past[p.peer.value := Chain.BankThrough(p.recv.value, pn)];
    assert all.Keys == p.past.Keys + {p.peer.value};
    assert |all| == |all.Keys| == |p.past.Keys| + 1 == |p.past| + 1;
    FifthIsTheLeast(all, p.order, p.peer.value);
    assert all - {p.peer.value} == p.past;
  }
}
