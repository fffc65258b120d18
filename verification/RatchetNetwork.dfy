/**
 One party of the double ratchet against any network at all: arbitrary messages, with any header around any body,
 between arbitrary seals.  No body opens twice, none of the party's own opens, and between two parties whatever
 opens was sealed by the other.  These hold with no condition on the headers, also where the session is lost.
 */
module RatchetNetwork {
  import opened Symbolic
  import opened Ratchet
  import Chain

  /** Message `n` of the chain that starts at `root`. */
  datatype Letter = Letter(root: Key, n: nat, plain: Plain)

  function BodyOf(x: Letter): Body { Sealed(Chain.KeyOf(x.root, x.n), x.n, x.plain) }

  /** A party with the roots of the chains it holds, every chain it entered or made, and what it opened and sealed. */
  datatype Diary = Diary(
    party: Party,
    recvRoot: Key,
    pastRoots: map<Pub, Key>,
    sendRoot: Key,
    entered: set<Key>,
    made: set<Key>,
    got: seq<Letter>,
    sent: seq<Letter>)

  datatype Act = Writes(coin: nat, newKey: nat, plain: Plain) | Reads(msg: Msg)

  // ----- What each act does -----

  datatype Path = Current | Past(q: Pub) | Fresh(pub: Pub, root: Key) | Nowhere

  /** Which chain a message is tried on. */
  function Route(p: Party, m: Msg): Path {
    match m
    case MalformedMsg => Nowhere
    case InChainMsg(pid, _, _) => if p.peer == Some(pid) then Current else Past(pid)
    case RatchetMsg(pub, ct, _, n, _) =>
      if pub.None? then Nowhere
      else if p.peer == pub then Current
      else if pub.value in p.past then Past(pub.value)
      else if n != 0 || p.self.None? || Decapsulate(p.self.value, ct).None? then Nowhere
      else Fresh(pub.value, ChainKey(p.root, Decapsulate(p.self.value, ct).value))
  }

  function Restrict(m: map<Pub, Key>, keys: set<Pub>): map<Pub, Key> { map q | q in m && q in keys :: m[q] }

  /** The roots of the retired chains once the current one is left, before pruning. */
  ghost function RetiredRoots(d: Diary, pn: nat): map<Pub, Key> {
    if d.party.peer.None? || d.party.recv.None? || Chain.BankThrough(d.party.recv.value, pn).skipped == map[] then d.pastRoots
    else d.pastRoots[d.party.peer.value := d.recvRoot]
  }

  ghost function AfterRead(d: Diary, m: Msg): Diary {
    var (p, r) := Open(d.party, m);
    if r.None? || m.MalformedMsg? then d
    else
      match Route(d.party, m)
      case Nowhere => d
      case Current => d.(party := p, got := d.got + [Letter(d.recvRoot, m.n, r.value)])
      case Past(q) =>
        if q !in d.pastRoots then d
        else
          d.(party := p, pastRoots := Restrict(d.pastRoots, p.past.Keys),
             got := d.got + [Letter(d.pastRoots[q], m.n, r.value)])
      case Fresh(_, root) =>
        d.(party := p, pastRoots := Restrict(RetiredRoots(d, m.pn), p.past.Keys), recvRoot := root, entered := d.entered + {root},
           got := d.got + [Letter(root, m.n, r.value)])
  }

  function AfterWrite(d: Diary, coin: nat, newKey: nat, plain: Plain): Diary {
    var (p, m) := Seal(d.party, coin, newKey, plain);
    if m.None? then d
    else if m.value.RatchetMsg? && d.party.peer.Some? && d.party.peer.value.Pub? then
      var root := ChainKey(d.party.root, Shared(d.party.peer.value.id, coin));
      d.(party := p, sendRoot := root, made := d.made + {root}, sent := d.sent + [Letter(root, 0, plain)])
    else if d.party.send.None? then d
    else d.(party := p, sent := d.sent + [Letter(d.sendRoot, d.party.send.value.n, plain)])
  }

  ghost function Step(d: Diary, act: Act): Diary {
    match act
    case Writes(coin, newKey, plain) => AfterWrite(d, coin, newKey, plain)
    case Reads(m) => AfterRead(d, m)
  }

  ghost function After(d: Diary, acts: seq<Act>): Diary {
    if acts == [] then d else Step(After(d, acts[..|acts| - 1]), acts[|acts| - 1])
  }

  /** A session right after the handshake. */
  function Start(p: Party): Diary { Diary(p, Secret(0), map[], Secret(0), {}, {}, [], []) }

  predicate IsNew(p: Party) { p.recv.None? && p.send.None? && p.past == map[] }

  lemma {:induction false} HandshakesAreNew(order: Pub -> nat, recipient: Pub, coin: nat, secret: nat, text: KemText)
    ensures Initiate(order, recipient, coin).Some? ==> IsNew(Initiate(order, recipient, coin).value.0)
    ensures Respond(order, secret, text).Some? ==> IsNew(Respond(order, secret, text).value)
  {
  }

  // ----- Keys -----

  /** A new chain is larger than everything before it, and so is the new root. */
  lemma {:induction false} NewChainsAreLarger(root: Key, shared: Key)
    ensures IsChain(ChainKey(root, shared)) && Size(root) < Size(ChainKey(root, shared)) == Size(NextRoot(root, shared))
  {
    var mixed := Hash(MixLabel, Pair(root, shared));
    assert Size(mixed) > Size(root);
  }

  // ----- The invariant -----

  ghost function Used(got: seq<Letter>, root: Key): set<nat> {
    set i | 0 <= i < |got| && got[i].root == root :: got[i].n
  }

  /** Chains entered and made are apart, and none is larger than the root. */
  ghost predicate RootsOk(d: Diary) {
    && d.entered !! d.made
    && (forall r :: r in d.entered || r in d.made ==> IsChain(r) && Size(r) <= Size(d.party.root))
  }

  ghost predicate RecvOk(d: Diary) {
    d.party.recv.Some? ==>
      d.recvRoot in d.entered && Chain.Tied(d.party.recv.value, d.recvRoot, Used(d.got, d.recvRoot))
  }

  ghost predicate PastOk(d: Diary) {
    && d.pastRoots.Keys == d.party.past.Keys
    && (forall q :: q in d.party.past ==>
          d.pastRoots[q] in d.entered && Chain.Tied(d.party.past[q], d.pastRoots[q], Used(d.got, d.pastRoots[q])))
    && (forall q :: q in d.party.past && d.party.recv.Some? ==> d.pastRoots[q] != d.recvRoot)
    && (forall q, q' :: q in d.party.past && q' in d.party.past && q != q' ==> d.pastRoots[q] != d.pastRoots[q'])
  }

  ghost predicate GotOk(d: Diary) {
    && (forall i :: 0 <= i < |d.got| ==> d.got[i].root in d.entered)
    && (forall i, j :: 0 <= i < j < |d.got| ==> d.got[i].root != d.got[j].root || d.got[i].n != d.got[j].n)
  }

  ghost predicate SentOk(d: Diary) {
    && (forall i :: 0 <= i < |d.sent| ==> d.sent[i].root in d.made)
    && (d.party.send.Some? ==>
          d.sendRoot in d.made && d.party.send.value.key == Chain.Advance(d.sendRoot, d.party.send.value.n))
  }

  ghost predicate Inv(d: Diary) { RootsOk(d) && RecvOk(d) && PastOk(d) && GotOk(d) && SentOk(d) }

  lemma {:induction false} StartIsOk(p: Party)
    requires IsNew(p)
    ensures Inv(Start(p))
  {
  }

  lemma {:induction false} UsedGrows(got: seq<Letter>, x: Letter, root: Key)
    ensures Used(got + [x], root) == if x.root == root then Used(got, root) + {x.n} else Used(got, root)
  {
    var more := got + [x];
    forall n | n in Used(got, root)
      ensures n in Used(more, root)
    {
      var i :| 0 <= i < |got| && got[i].root == root && got[i].n == n;
      assert more[i].root == root && more[i].n == n;
    }
    if x.root == root { assert more[|got|].root == root && more[|got|].n == x.n; }
  }

  lemma {:induction false} NothingUsed(d: Diary, root: Key)
    requires GotOk(d) && root !in d.entered
    ensures Used(d.got, root) == {}
  {
  }

  lemma {:induction false} GotMore(d: Diary, x: Letter, d': Diary)
    requires GotOk(d) && x.n !in Used(d.got, x.root)
    requires d'.got == d.got + [x] && x.root in d'.entered && d.entered <= d'.entered
    ensures GotOk(d')
  {
    forall i | 0 <= i < |d.got|
      ensures d.got[i].root != x.root || d.got[i].n != x.n
    {
      if d.got[i].root == x.root { assert d.got[i].n in Used(d.got, x.root); }
    }
  }

  /** `x` is what the message carried, under a key not used before. */
  ghost predicate Consumes(d: Diary, m: Msg, x: Letter) {
    !m.MalformedMsg? && m.body == BodyOf(x) && x.n !in Used(d.got, x.root)
  }

  // ----- Reading keeps it -----

  lemma {:induction false} CurrentKeeps(d: Diary, m: Msg)
    requires Inv(d) && Route(d.party, m).Current? && Open(d.party, m).1.Some?
    ensures var d' := AfterRead(d, m);
            Inv(d') && |d'.got| == |d.got| + 1 && Consumes(d, m, d'.got[|d.got|])
  {
    hide Chain.Tied, Chain.Open, Chain.KeyOf, Used, GotOk, RootsOk;
    var c, root := d.party.recv.value, d.recvRoot;
    var used := Used(d.got, root);
    Chain.OpenIsSound(c, root, used, m.n, m.body);
    var (c', r) := Chain.Open(c, m.n, m.body);
    var x, d' := Letter(root, m.n, r.value), AfterRead(d, m);
    assert d'.got == d.got + [x];
    UsedGrows(d.got, x, root);
    GotMore(d, x, d');
    PastAfterLetter(d, d', x);
    RootsAfter(d, d');
  }

  lemma {:induction false} RootsAfter(d: Diary, d': Diary)
    requires RootsOk(d) && d'.entered == d.entered && d'.made == d.made && d'.party.root == d.party.root
    ensures RootsOk(d')
  {
  }

  /** Opening on the current chain leaves the retired ones alone. */
  lemma {:induction false} PastAfterLetter(d: Diary, d': Diary, x: Letter)
    requires PastOk(d) && d'.got == d.got + [x] && d'.pastRoots == d.pastRoots && d'.party.past == d.party.past
    requires d.entered <= d'.entered && d'.recvRoot == d.recvRoot && d'.party.recv.Some? && d.party.recv.Some?
    requires x.root == d.recvRoot
    ensures PastOk(d')
  {
    hide Chain.Tied, Used;
    forall q | q in d.party.past
      ensures Used(d'.got, d.pastRoots[q]) == Used(d.got, d.pastRoots[q])
    {
      UsedGrows(d.got, x, d.pastRoots[q]);
    }
  }

  lemma {:induction false} PastKeeps(d: Diary, m: Msg)
    requires Inv(d) && Route(d.party, m).Past? && Open(d.party, m).1.Some?
    ensures var d' := AfterRead(d, m);
            Inv(d') && |d'.got| == |d.got| + 1 && Consumes(d, m, d'.got[|d.got|])
  {
    hide Chain.Tied, Chain.OpenSkipped, Chain.KeyOf, Used, GotOk, RootsOk;
    var q := Route(d.party, m).q;
    assert q in d.party.past && Open(d.party, m) == OpenPast(d.party, q, m.n, m.body);
    var c, root := d.party.past[q], d.pastRoots[q];
    Chain.OpenSkippedIsSound(c, root, Used(d.got, root), m.n, m.body);
    var (c', r) := Chain.OpenSkipped(c, m.n, m.body);
    var x, d' := Letter(root, m.n, r.value), AfterRead(d, m);
    assert d'.got == d.got + [x];
    GotMore(d, x, d');
    RootsAfter(d, d');
    UsedGrows(d.got, x, d.recvRoot);
    UsedGrows(d.got, x, root);
    RetiredAfterLetter(d, d', q, x, c');
  }

  lemma {:induction false} RetiredAfterLetter(d: Diary, d': Diary, q: Pub, x: Letter, c: Chain.Recv)
    requires PastOk(d) && q in d.party.past && x.root == d.pastRoots[q] && d'.got == d.got + [x]
    requires d'.party.past == (if c.skipped == map[] then d.party.past - {q} else d.party.past[q := c])
    requires Chain.Tied(c, x.root, Used(d.got + [x], x.root))
    requires d'.pastRoots == Restrict(d.pastRoots, d'.party.past.Keys) && d'.entered == d.entered
    requires d'.recvRoot == d.recvRoot && d'.party.recv == d.party.recv
    ensures PastOk(d')
  {
    hide Chain.Tied, Used;
    forall o | o in d'.party.past
      ensures d'.pastRoots[o] in d'.entered
      ensures Chain.Tied(d'.party.past[o], d'.pastRoots[o], Used(d'.got, d'.pastRoots[o]))
    {
      UsedGrows(d.got, x, d.pastRoots[o]);
    }
  }

  lemma {:induction false} FreshKeeps(d: Diary, m: Msg)
    requires Inv(d) && Route(d.party, m).Fresh? && Open(d.party, m).1.Some?
    ensures var d' := AfterRead(d, m);
            Inv(d') && |d'.got| == |d.got| + 1 && Consumes(d, m, d'.got[|d.got|])
  {
    hide Chain.Tied, Chain.Open, Chain.KeyOf, Used, GotOk, RootsOk, PastOk, RecvOk, Retire, Restrict;
    var p, root := d.party, Route(d.party, m).root;
    var d' := AfterRead(d, m);
    FreshRoot(d, m);
    NothingUsed(d, root);
    NewIsTied(root);
    Chain.OpenIsSound(Chain.NewRecv(root), root, {}, 0, m.body);
    var (c, r) := Chain.Open(Chain.NewRecv(root), 0, m.body);
    var x := Letter(root, 0, r.value);
    assert d'.got == d.got + [x] && d'.party.recv == Some(c);
    GotMore(d, x, d');
    UsedGrows(d.got, x, root);
    assert RecvOk(d') by { assert {} + {0} == {0}; RecvIs(d', c, root); }
    RetireKeeps(d, m.pn, x, d');
    SentAfter(d, d');
  }

  lemma {:induction false} RecvIs(d: Diary, c: Chain.Recv, root: Key)
    requires d.party.recv == Some(c) && d.recvRoot == root && root in d.entered && Chain.Tied(c, root, Used(d.got, root))
    ensures RecvOk(d)
  {
  }

  lemma {:induction false} SentAfter(d: Diary, d': Diary)
    requires SentOk(d) && d'.sent == d.sent && d'.made == d.made && d'.sendRoot == d.sendRoot && d'.party.send == d.party.send
    ensures SentOk(d')
  {
  }

  lemma {:induction false} NewIsTied(root: Key)
    ensures Chain.Tied(Chain.NewRecv(root), root, {})
  {
  }

  /** The chain of a fresh message is new, and the root moves past it. */
  lemma {:induction false} FreshRoot(d: Diary, m: Msg)
    requires Inv(d) && Route(d.party, m).Fresh? && Open(d.party, m).1.Some?
    ensures var root := Route(d.party, m).root;
            root !in d.entered && root !in d.made && RootsOk(AfterRead(d, m))
  {
    hide Chain.Open, Retire, Restrict, RecvOk, PastOk, GotOk, SentOk;
    var p := d.party;
    var shared := Decapsulate(p.self.value, m.ct).value;
    NewChainsAreLarger(p.root, shared);
  }

  /** Retired chains, before pruning: each of its own root, none of them the new one. */
  ghost predicate Retired(d: Diary, past: map<Pub, Chain.Recv>, roots: map<Pub, Key>) {
    && roots.Keys == past.Keys
    && (forall q :: q in past ==> roots[q] in d.entered && Chain.Tied(past[q], roots[q], Used(d.got, roots[q])))
    && (forall q, q' :: q in past && q' in past && q != q' ==> roots[q] != roots[q'])
  }

  lemma {:induction false} PutAway(d: Diary, c: Chain.Recv, q: Pub)
    requires PastOk(d) && d.party.recv.Some? && d.recvRoot in d.entered
    requires Chain.Tied(c, d.recvRoot, Used(d.got, d.recvRoot))
    ensures Retired(d, d.party.past[q := c], d.pastRoots[q := d.recvRoot])
  {
    hide Chain.Tied, Used;
  }

  lemma {:induction false} Pruned(d: Diary, past: map<Pub, Chain.Recv>, roots: map<Pub, Key>, x: Letter, d': Diary)
    requires Retired(d, past, roots) && x.root !in d.entered && d.entered <= d'.entered && d'.recvRoot == x.root
    requires d'.got == d.got + [x] && d'.party.past.Keys <= past.Keys
    requires forall q :: q in d'.party.past ==> d'.party.past[q] == past[q]
    requires d'.pastRoots == Restrict(roots, d'.party.past.Keys)
    ensures PastOk(d')
  {
    hide Chain.Tied, Used;
    forall q | q in d'.party.past
      ensures d'.pastRoots[q] in d'.entered && d'.pastRoots[q] != x.root
      ensures Chain.Tied(d'.party.past[q], d'.pastRoots[q], Used(d'.got, d'.pastRoots[q]))
    {
      UsedGrows(d.got, x, roots[q]);
    }
  }

  lemma {:induction false} RetireKeeps(d: Diary, pn: nat, x: Letter, d': Diary)
    requires PastOk(d) && RecvOk(d) && x.root !in d.entered && d.entered <= d'.entered && d'.recvRoot == x.root
    requires d'.got == d.got + [x] && d'.party.past == Retire(d.party, pn)
    requires d'.pastRoots == Restrict(RetiredRoots(d, pn), d'.party.past.Keys)
    ensures PastOk(d')
  {
    hide Chain.Tied, Used, Chain.BankThrough, Restrict, PastOk, Retired, Prune;
    var p := d.party;
    RetiredNow(d);
    if p.peer.None? || p.recv.None? {
      Pruned(d, p.past, d.pastRoots, x, d');
    } else {
      var left := Chain.BankThrough(p.recv.value, pn);
      Chain.BankKeepsTied(p.recv.value, d.recvRoot, Used(d.got, d.recvRoot), pn);
      PutAway(d, left, p.peer.value);
      if left.skipped == map[] {
        Pruned(d, p.past, d.pastRoots, x, d');
      } else {
        Pruned(d, p.past[p.peer.value := left], d.pastRoots[p.peer.value := d.recvRoot], x, d');
      }
    }
  }

  lemma {:induction false} RetiredNow(d: Diary)
    requires PastOk(d)
    ensures Retired(d, d.party.past, d.pastRoots)
  {
    hide Chain.Tied, Used;
  }

  lemma {:induction false} ReadKeeps(d: Diary, m: Msg)
    requires Inv(d)
    ensures Inv(AfterRead(d, m)) && AfterRead(d, m).party == Open(d.party, m).0
    ensures AfterRead(d, m).sent == d.sent && AfterRead(d, m).made == d.made
    ensures if Open(d.party, m).1.None? then AfterRead(d, m) == d
            else |AfterRead(d, m).got| == |d.got| + 1 && AfterRead(d, m).got[..|d.got|] == d.got
                 && Consumes(d, m, AfterRead(d, m).got[|d.got|])
                 && AfterRead(d, m).got[|d.got|].plain == Open(d.party, m).1.value
  {
    hide Inv, Chain.Open, Chain.OpenSkipped, Retire, Restrict, Consumes;
    if Open(d.party, m).1.Some? {
      match Route(d.party, m)
      case Current => CurrentKeeps(d, m);
      case Past(q) =>
        PastKeeps(d, m);
        assert q in d.pastRoots by { PastRoots(d, q); }
      case Fresh(_, _) => FreshKeeps(d, m);
      case Nowhere =>
    } else {
      RefusalChangesNothing(d.party, m);
    }
  }

  lemma {:induction false} PastRoots(d: Diary, q: Pub)
    requires Inv(d)
    ensures q in d.pastRoots <==> q in d.party.past
  {
  }

  // ----- Writing keeps it -----

  lemma {:induction false} WriteKeeps(d: Diary, coin: nat, newKey: nat, plain: Plain)
    requires Inv(d)
    ensures var d' := AfterWrite(d, coin, newKey, plain);
            var (p, m) := Seal(d.party, coin, newKey, plain);
            && Inv(d') && d'.party == p && d'.got == d.got
            && (if m.None? then d'.sent == d.sent
                else |d'.sent| == |d.sent| + 1 && d'.sent[..|d.sent|] == d.sent && m.value.body == BodyOf(d'.sent[|d.sent|]))
  {
    hide Chain.Tied, Used, GotOk, PastOk, RecvOk, RootsOk;
    var p, d' := d.party, AfterWrite(d, coin, newKey, plain);
    if (p.mustRatchet || p.send.None?) && p.peer.Some? && p.peer.value.Pub? {
      var shared := Shared(p.peer.value.id, coin);
      NewChainsAreLarger(p.root, shared);
      Chain.AdvanceStep(ChainKey(p.root, shared), 0);
      RootsWithMade(d, d', ChainKey(p.root, shared));
    } else {
      if p.send.Some? { Chain.AdvanceStep(d.sendRoot, p.send.value.n); }
      RootsAfter(d, d');
    }
    ReceivedSame(d, d');
  }

  lemma {:induction false} RootsWithMade(d: Diary, d': Diary, root: Key)
    requires RootsOk(d) && d'.entered == d.entered && d'.made == d.made + {root} && IsChain(root)
    requires Size(d.party.root) < Size(root) <= Size(d'.party.root)
    ensures RootsOk(d')
  {
  }

  lemma {:induction false} ReceivedSame(d: Diary, d': Diary)
    requires GotOk(d) && PastOk(d) && RecvOk(d) && d'.got == d.got && d'.entered == d.entered
    requires d'.pastRoots == d.pastRoots && d'.recvRoot == d.recvRoot
    requires d'.party.recv == d.party.recv && d'.party.past == d.party.past
    ensures GotOk(d') && PastOk(d') && RecvOk(d')
  {
    hide Chain.Tied, Used;
  }

  lemma {:induction false} RunKeeps(d: Diary, acts: seq<Act>)
    requires Inv(d)
    ensures Inv(After(d, acts))
    decreases |acts|
  {
    hide Inv, AfterRead, AfterWrite;
    if acts != [] {
      RunKeeps(d, acts[..|acts| - 1]);
      var before := After(d, acts[..|acts| - 1]);
      match acts[|acts| - 1]
      case Writes(coin, newKey, plain) => WriteKeeps(before, coin, newKey, plain);
      case Reads(m) => ReadKeeps(before, m);
    }
  }

  // ----- The theorems -----

  /**
   Over every run of seals and arbitrary messages, no body opens twice: not under another header, number, key or
   kind of message, and not in another epoch.
   */
  lemma {:induction false} NoBodyOpensTwice(p: Party, acts: seq<Act>, i: nat, j: nat)
    requires IsNew(p) && i < j < |After(Start(p), acts).got|
    ensures BodyOf(After(Start(p), acts).got[i]) != BodyOf(After(Start(p), acts).got[j])
  {
    hide After, RecvOk, PastOk, SentOk, Chain.KeyOf;
    StartIsOk(p);
    RunKeeps(Start(p), acts);
    var d := After(Start(p), acts);
    var x, y := d.got[i], d.got[j];
    if Chain.KeyOf(x.root, x.n) == Chain.KeyOf(y.root, y.n) { KeyIsForOne(x.root, x.n, y.root, y.n); }
  }

  /** No message with a body this party sealed opens here, under any header. */
  lemma {:induction false} OwnBodiesNeverOpen(p: Party, acts: seq<Act>, i: nat, m: Msg)
    requires IsNew(p) && i < |After(Start(p), acts).sent|
    requires !m.MalformedMsg? && m.body == BodyOf(After(Start(p), acts).sent[i])
    ensures Open(After(Start(p), acts).party, m).1.None?
  {
    hide After, Chain.KeyOf, Open, AfterRead;
    StartIsOk(p);
    RunKeeps(Start(p), acts);
    var d := After(Start(p), acts);
    ReadKeeps(d, m);
    if Open(d.party, m).1.Some? { OwnIsNotEntered(d, m, i); }
  }

  lemma {:induction false} OwnIsNotEntered(d: Diary, m: Msg, i: nat)
    requires Inv(d) && i < |d.sent| && !m.MalformedMsg?
    requires |AfterRead(d, m).got| == |d.got| + 1 && Inv(AfterRead(d, m)) && AfterRead(d, m).made == d.made
    requires Consumes(d, m, AfterRead(d, m).got[|d.got|])
    ensures m.body != BodyOf(d.sent[i])
  {
    hide AfterRead, RecvOk, PastOk, Chain.KeyOf, Used;
    var x, y := AfterRead(d, m).got[|d.got|], d.sent[i];
    if Chain.KeyOf(x.root, x.n) == Chain.KeyOf(y.root, y.n) { KeyIsForOne(x.root, x.n, y.root, y.n); }
  }

  // ----- Two parties -----

  datatype Side = Left | Right

  datatype Both = Both(left: Diary, right: Diary)

  function At(w: Both, side: Side): Diary { if side == Left then w.left else w.right }

  function Across(side: Side): Side { if side == Left then Right else Left }

  datatype Event = Event(side: Side, act: Act)

  ghost function Move(w: Both, e: Event): Both {
    if e.side == Left then w.(left := Step(w.left, e.act)) else w.(right := Step(w.right, e.act))
  }

  ghost predicate SealedBy(d: Diary, body: Body) { exists i :: 0 <= i < |d.sent| && body == BodyOf(d.sent[i]) }

  /** What the network can deliver: any header around a body that one of the parties sealed, or that nobody did. */
  ghost predicate Possible(w: Both, e: Event) {
    match e.act
    case Writes(_, _, _) => true
    case Reads(m) => m.MalformedMsg? || m.body.Forged? || SealedBy(w.left, m.body) || SealedBy(w.right, m.body)
  }

  ghost function AfterAll(w: Both, run: seq<Event>): Both {
    if run == [] then w else Move(AfterAll(w, run[..|run| - 1]), run[|run| - 1])
  }

  ghost predicate Feasible(w: Both, run: seq<Event>) {
    forall i :: 0 <= i < |run| ==> Possible(AfterAll(w, run[..i]), run[i])
  }

  /** Everything either party opened was sealed by the other. */
  ghost predicate FromThePeer(w: Both) {
    && (forall i :: 0 <= i < |w.left.got| ==> SealedBy(w.right, BodyOf(w.left.got[i])))
    && (forall i :: 0 <= i < |w.right.got| ==> SealedBy(w.left, BodyOf(w.right.got[i])))
  }

  lemma {:induction false} SealedStays(d: Diary, d': Diary, body: Body)
    requires SealedBy(d, body) && |d.sent| <= |d'.sent| && d'.sent[..|d.sent|] == d.sent
    ensures SealedBy(d', body)
  {
    hide BodyOf;
    var i :| 0 <= i < |d.sent| && body == BodyOf(d.sent[i]);
    assert d'.sent[i] == d.sent[i];
  }

  lemma {:induction false} StepGrows(d: Diary, act: Act)
    requires Inv(d)
    ensures var d' := Step(d, act); Inv(d') && |d.sent| <= |d'.sent| && d'.sent[..|d.sent|] == d.sent
  {
    hide Inv, AfterRead, AfterWrite, Consumes, Open, Seal;
    match act
    case Writes(coin, newKey, plain) =>
      WriteKeeps(d, coin, newKey, plain);
      assert d.sent[..|d.sent|] == d.sent;
    case Reads(m) =>
      ReadKeeps(d, m);
      assert d.sent[..|d.sent|] == d.sent;
  }

  /** What a step opens, if anything, is not the party's own and is in what it read. */
  lemma {:induction false} StepOpens(d: Diary, act: Act, i: nat)
    requires Inv(d) && i < |Step(d, act).got|
    ensures i < |d.got| ==> Step(d, act).got[i] == d.got[i]
    ensures i >= |d.got| ==>
            && act.Reads? && !act.msg.MalformedMsg? && act.msg.body == BodyOf(Step(d, act).got[i])
            && !SealedBy(d, act.msg.body)
  {
    hide Inv, AfterRead, AfterWrite, Open, Seal, Chain.KeyOf, Used;
    match act
    case Writes(coin, newKey, plain) => WriteKeeps(d, coin, newKey, plain);
    case Reads(m) =>
      ReadKeeps(d, m);
      var d' := AfterRead(d, m);
      if i < |d.got| {
        if d' != d { assert d'.got[..|d.got|][i] == d.got[i]; }
      } else {
        forall k | 0 <= k < |d.sent|
          ensures m.body != BodyOf(d.sent[k])
        {
          OwnIsNotEntered(d, m, k);
        }
      }
  }

  lemma {:induction false} MoveIsFromThePeer(w: Both, e: Event)
    requires Inv(w.left) && Inv(w.right) && FromThePeer(w) && Possible(w, e)
    ensures var w' := Move(w, e); Inv(w'.left) && Inv(w'.right) && FromThePeer(w')
  {
    hide Inv, Step, BodyOf, SealedBy;
    var w', d, o := Move(w, e), At(w, e.side), At(w, Across(e.side));
    var d' := Step(d, e.act);
    StepGrows(d, e.act);
    forall i | 0 <= i < |d'.got|
      ensures SealedBy(o, BodyOf(d'.got[i]))
    {
      StepOpens(d, e.act, i);
      if i >= |d.got| { ForgedIsNotSealed(d'.got[i]); }
    }
    forall i | 0 <= i < |o.got|
      ensures SealedBy(d', BodyOf(o.got[i]))
    {
      SealedStays(d, d', BodyOf(o.got[i]));
    }
  }

  lemma {:induction false} ForgedIsNotSealed(x: Letter)
    ensures !BodyOf(x).Forged?
  {
  }

  lemma {:induction false} RunIsFromThePeer(w: Both, run: seq<Event>)
    requires Inv(w.left) && Inv(w.right) && FromThePeer(w) && Feasible(w, run)
    ensures var w' := AfterAll(w, run); Inv(w'.left) && Inv(w'.right) && FromThePeer(w')
    decreases |run|
  {
    hide Inv, Move, FromThePeer, Possible;
    if run != [] {
      var k := |run| - 1;
      forall i | 0 <= i < k
        ensures Possible(AfterAll(w, run[..k][..i]), run[..k][i])
      {
        assert run[..k][..i] == run[..i];
      }
      RunIsFromThePeer(w, run[..k]);
      MoveIsFromThePeer(AfterAll(w, run[..k]), run[k]);
    }
  }

  /**
   Two new sessions and any network that can put any header around any body the parties sealed: everything a party
   opens is a body its peer sealed, to that body's plaintext, and it opens each at most once.
   */
  lemma {:induction false} OnlyThePeersBodiesOnce(a: Party, b: Party, run: seq<Event>, side: Side, i: nat, j: nat)
    requires IsNew(a) && IsNew(b) && Feasible(Both(Start(a), Start(b)), run)
    ensures var w := AfterAll(Both(Start(a), Start(b)), run);
            var got := At(w, side).got;
            && (i < |got| ==> SealedBy(At(w, Across(side)), BodyOf(got[i])))
            && (i < j < |got| ==> BodyOf(got[i]) != BodyOf(got[j]))
  {
    hide AfterAll, Feasible, RecvOk, PastOk, SentOk, Chain.KeyOf, SealedBy;
    StartIsOk(a);
    StartIsOk(b);
    RunIsFromThePeer(Both(Start(a), Start(b)), run);
    var d := At(AfterAll(Both(Start(a), Start(b)), run), side);
    if i < j < |d.got| {
      var x, y := d.got[i], d.got[j];
      if Chain.KeyOf(x.root, x.n) == Chain.KeyOf(y.root, y.n) { KeyIsForOne(x.root, x.n, y.root, y.n); }
    }
  }
}
