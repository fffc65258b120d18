/**
 The symmetric ratchet chain: a one-way key chain that a sender pops in order and a receiver opens in
 order, ahead of a gap (banking the keys it skips) or behind (from a banked key).

 `Recv` is the value of a receiving chain.  The functions on it say what each operation does in closed
 form; the classes `SendChain` and `RecvChain` do it step by step and are proved against them.
 */
module Chain {
  import opened Symbolic
  import opened LeastNumber

  /** The most keys one message may skip past. */
  const MAX_SKIP_PER_MESSAGE: nat := 1024
  /** The most skipped keys a chain retains. */
  const MAX_SKIPPED_STORED: nat := 2048

  function MessageKey(chain: Key): Key { Hash(MessageLabel, chain) }
  function NextKey(chain: Key): Key { Hash(NextLabel, chain) }

  /** The chain key `n` steps after `chain`. */
  function Advance(chain: Key, n: nat): Key {
    if n == 0 then chain else NextKey(Advance(chain, n - 1))
  }

  lemma {:induction false} AdvanceStep(chain: Key, n: nat)
    ensures Advance(chain, 0) == chain
    ensures Advance(chain, n + 1) == NextKey(Advance(chain, n))
  {}

  /** The key of message `n` on the chain that starts at `root`. */
  function KeyOf(root: Key, n: nat): Key { MessageKey(Advance(root, n)) }

  datatype Recv = Recv(key: Key, n: nat, skipped: map<nat, Key>)

  const NO_KEYS: map<nat, Key> := map[]

  function NewRecv(key: Key): Recv { Recv(key, 0, NO_KEYS) }

  /** The keys of messages `c.n .. until`. */
  function Gap(c: Recv, until: nat): map<nat, Key> {
    map i: nat | c.n <= i < until :: LiveKey(c, i)
  }

  /** The key a chain would derive for message `i`, at or ahead of its next number. */
  function LiveKey(c: Recv, i: nat): Key
    requires c.n <= i
  {
    KeyOf(c.key, i - c.n)
  }

  /** The store once the keys up to `until` are banked, before eviction. */
  function Banked(c: Recv, until: nat): map<nat, Key> { c.skipped + Gap(c, until) }

  lemma {:induction false} BankedGrows(c: Recv, until: nat)
    requires c.n <= until
    ensures Banked(c, c.n) == c.skipped
    ensures Banked(c, until + 1) == Banked(c, until)[until := LiveKey(c, until)]
  {
    hide KeyOf;
    assert Gap(c, until + 1) == Gap(c, until)[until := LiveKey(c, until)];
    assert Gap(c, c.n) == map[];
  }

  // ----- Eviction: drop the smallest number while the store is over capacity -----

  /** The part of a store from number `cut` on. */
  function From(m: map<nat, Key>, cut: nat): map<nat, Key> {
    map i | i in m && cut <= i :: m[i]
  }

  /** The size of a store after eviction. */
  function Retained(m: map<nat, Key>): nat {
    if |m| <= MAX_SKIPPED_STORED then |m| else MAX_SKIPPED_STORED
  }

  lemma {:induction false} CutExists(m: map<nat, Key>, from: nat, size: nat)
    requires size <= |From(m, from)|
    ensures exists cut :: from <= cut && |From(m, cut)| == size
    decreases |From(m, from)| - size, Top(m.Keys) - from
  {
    if size < |From(m, from)| {
      if from in m {
        DropOne(From(m, from), from);
        assert From(m, from + 1) == From(m, from) - {from};
      } else {
        assert From(m, from + 1) == From(m, from);
      }
      var i :| i in From(m, from);
      assert i in m.Keys;
      CutExists(m, from + 1, size);
    }
  }

  /** The numbers below this are evicted: as few of the oldest as the capacity demands. */
  ghost function Cut(m: map<nat, Key>): (cut: nat)
    ensures |From(m, cut)| == Retained(m)
  {
    assert From(m, 0) == m;
    CutExists(m, 0, Retained(m));
    var cut :| |From(m, cut)| == Retained(m);
    cut
  }

  /** What eviction leaves of a store. */
  ghost function Retain(m: map<nat, Key>): map<nat, Key> { From(m, Cut(m)) }

  lemma {:induction false} DropOne(m: map<nat, Key>, i: nat)
    requires i in m
    ensures |m - {i}| == |m| - 1
  {
    assert (m - {i}).Keys == m.Keys - {i};
  }

  lemma {:induction false} FromShrinks(m: map<nat, Key>, a: nat, b: nat)
    requires a <= b
    ensures From(m, b) == From(m, a) || |From(m, b)| < |From(m, a)|
  {
    var x, y := From(m, b).Keys, From(m, a).Keys;
    if y - x == {} {
      assert From(m, b) == From(m, a);
    } else {
      assert y == x + (y - x);
    }
  }

  /** Eviction is determined by its size: any cut that leaves as many entries leaves the same ones. */
  lemma {:induction false} CutsAgree(m: map<nat, Key>, cut: nat)
    requires |From(m, cut)| == Retained(m)
    ensures From(m, cut) == Retain(m)
  {
    if cut <= Cut(m) { FromShrinks(m, cut, Cut(m)); } else { FromShrinks(m, Cut(m), cut); }
  }

  /** Within capacity nothing is evicted. */
  lemma {:induction false} NothingToEvict(m: map<nat, Key>)
    requires |m| <= MAX_SKIPPED_STORED
    ensures Retain(m) == m
  {
    assert From(m, 0) == m;
    CutsAgree(m, 0);
  }

  /** One past the largest number of a set. */
  ghost function Top(numbers: set<nat>): (top: nat)
    ensures forall i :: i in numbers ==> i < top
    ensures top > 0 ==> top - 1 in numbers
  {
    if numbers == {} then 0
    else
      var i :| i in numbers;
      var rest := Top(numbers - {i});
      assert numbers == (numbers - {i}) + {i};
      if rest <= i then i + 1 else rest
  }

  // ----- The receiving chain -----

  /** Open message `target`: the new chain and the plaintext. */
  ghost function Open(c: Recv, target: nat, body: Body): (Recv, Option<Plain>) {
    if target < c.n then OpenSkipped(c, target, body) else OpenAhead(c, target, body)
  }

  ghost function OpenAhead(c: Recv, target: nat, body: Body): (Recv, Option<Plain>)
    requires c.n <= target
  {
    if target - c.n > MAX_SKIP_PER_MESSAGE then (c, None)
    else
      match AeadOpen(LiveKey(c, target), target, body)
      case None => (c, None)
      case Some(plain) =>
        (Recv(Advance(c.key, target - c.n + 1), target + 1, Retain(Banked(c, target))), Some(plain))
  }

  /** Open message `target` from the banked keys only. */
  ghost function OpenSkipped(c: Recv, target: nat, body: Body): (Recv, Option<Plain>) {
    if target !in c.skipped then (c, None)
    else
      match AeadOpen(c.skipped[target], target, body)
      case None => (c, None)
      case Some(plain) => (c.(skipped := c.skipped - {target}), Some(plain))
  }

  /** Bank the keys owed up to `until`; a gap past the bound leaves the chain as it is. */
  ghost function BankThrough(c: Recv, until: nat): Recv {
    if until <= c.n || until - c.n > MAX_SKIP_PER_MESSAGE then c
    else Recv(Advance(c.key, until - c.n), until, Retain(Banked(c, until)))
  }

  /** Step the chain over a gap, banking the message keys passed on the way. */
  method Derive(ghost c: Recv, key: Key, n: nat, skipped: map<nat, Key>, until: nat)
    returns (chain: Key, banked: map<nat, Key>)
    requires c == Recv(key, n, skipped) && n <= until
    ensures chain == Advance(c.key, until - c.n)
    ensures banked == Banked(c, until)
  {
    hide Advance, Banked;
    chain, banked := key, skipped;
    BankedGrows(c, n);
    AdvanceStep(key, 0);
    for i := n to until
      invariant chain == Advance(c.key, i - c.n)
      invariant banked == Banked(c, i)
    {
      BankedGrows(c, i);
      AdvanceStep(c.key, i - c.n);
      banked := banked[i := MessageKey(chain)];
      chain := NextKey(chain);
    }
  }

  class SendChain {
    ghost const root: Key
    var key: Key
    var n: nat

    /** The live key is `n` steps along from the chain's root. */
    ghost predicate Valid()
      reads this
    {
      key == Advance(root, n)
    }

    constructor (key: Key)
      ensures Valid() && root == key && n == 0
    {
      root := key;
      this.key := key;
      n := 0;
    }

    /** Build the next message with `f`, under its own number's key; the chain moves only if `f` succeeds. */
    method SealWith<T>(f: (nat, Key) -> Option<T>) returns (r: Option<T>)
      requires Valid()
      modifies this
      ensures Valid()
      ensures r == f(old(n), KeyOf(root, old(n)))
      ensures n == if r.Some? then old(n) + 1 else old(n)
    {
      r := f(n, MessageKey(key));
      if r.None? { return; }
      key := NextKey(key);
      n := n + 1;
    }
  }

  class RecvChain {
    var key: Key
    var n: nat
    var skipped: map<nat, Key>

    ghost function View(): Recv
      reads this
    {
      Recv(key, n, skipped)
    }

    constructor (c: Recv)
      ensures View() == c
    {
      key, n, skipped := c.key, c.n, c.skipped;
    }

    /** In-order, skip-ahead or banked; nothing is committed unless the body opens. */
    method OpenMessage(target: nat, body: Body) returns (r: Option<Plain>)
      modifies this
      ensures View() == Open(old(View()), target, body).0
      ensures r == Open(old(View()), target, body).1
    {
      hide Advance, Banked, Retain;
      if target < n {
        r := OpenBanked(target, body);
        return;
      }
      if target - n > MAX_SKIP_PER_MESSAGE { return None; }
      ghost var before := View();
      var chain, banked := Derive(before, key, n, skipped, target);
      assert LiveKey(before, target) == MessageKey(chain);
      AdvanceStep(before.key, target - before.n);
      r := AeadOpen(MessageKey(chain), target, body);
      if r.None? { return; }
      key, n, skipped := NextKey(chain), target + 1, banked;
      EvictOverCapacity();
    }

    method OpenBanked(target: nat, body: Body) returns (r: Option<Plain>)
      modifies this
      ensures (View(), r) == OpenSkipped(old(View()), target, body)
    {
      if target !in skipped { return None; }
      r := AeadOpen(skipped[target], target, body);
      if r.Some? { skipped := skipped - {target}; }
    }

    method Bank(until: nat) returns (ok: bool)
      modifies this
      ensures View() == BankThrough(old(View()), until)
      ensures ok <==> until <= old(n) + MAX_SKIP_PER_MESSAGE
    {
      if until <= n { return true; }
      if until - n > MAX_SKIP_PER_MESSAGE { return false; }
      ghost var before := View();
      var chain, banked := Derive(before, key, n, skipped, until);
      key, n, skipped := chain, until, banked;
      EvictOverCapacity();
      return true;
    }

    method EvictOverCapacity()
      modifies this`skipped
      ensures skipped == Retain(old(skipped))
    {
      ghost var all := skipped;
      ghost var cut := 0;
      assert From(all, 0) == all;
      while |skipped| > MAX_SKIPPED_STORED
        invariant skipped == From(all, cut)
        invariant Retained(all) <= |skipped|
        decreases |skipped|
      {
        var oldest := FindLeast(skipped.Keys);
        DropOne(skipped, oldest);
        skipped := skipped - {oldest};
        cut := oldest + 1;
      }
      CutsAgree(all, cut);
    }
  }

  // ----- What every operation keeps -----

  lemma {:induction false} AdvanceAdds(k: Key, a: nat, b: nat)
    ensures Advance(Advance(k, a), b) == Advance(k, a + b)
    decreases b
  {
    if b > 0 { AdvanceAdds(k, a, b - 1); }
  }

  /** How many times the chain was stepped to reach a key. */
  function Steps(k: Key): nat {
    if k.Hash? && k.domain == NextLabel then 1 + Steps(k.input) else 0
  }

  lemma {:induction false} StepsOfAdvance(k: Key, n: nat)
    ensures Steps(Advance(k, n)) == Steps(k) + n
  {
    if n > 0 { StepsOfAdvance(k, n - 1); }
  }

  /** Message keys never repeat along a chain. */
  lemma {:induction false} KeysAreDistinct(root: Key, i: nat, j: nat)
    requires KeyOf(root, i) == KeyOf(root, j)
    ensures i == j
  {
    StepsOfAdvance(root, i);
    StepsOfAdvance(root, j);
  }

  /**
   The chain invariant.  The live key is `n` steps along from `root`; every banked key is the key of a
   number below `n` and belongs to it; and no opened number is still banked or still ahead.
   */
  ghost predicate Tied(c: Recv, root: Key, used: set<nat>) {
    && c.key == Advance(root, c.n)
    && (forall i :: i in c.skipped ==> i < c.n && c.skipped[i] == KeyOf(root, i))
    && (forall i :: i in used ==> i < c.n && i !in c.skipped)
    && |c.skipped| <= MAX_SKIPPED_STORED
  }

  /** On a tied chain, the live keys are those of the chain's root. */
  lemma {:induction false} LiveKeys(c: Recv, root: Key, i: nat)
    requires c.key == Advance(root, c.n) && c.n <= i
    ensures LiveKey(c, i) == KeyOf(root, i)
    ensures Advance(c.key, i - c.n) == Advance(root, i)
    ensures Advance(c.key, i - c.n + 1) == Advance(root, i + 1)
  {
    AdvanceAdds(root, c.n, i - c.n);
    AdvanceAdds(root, c.n, i - c.n + 1);
  }

  lemma {:induction false} GapIsTied(c: Recv, root: Key, used: set<nat>, until: nat)
    requires Tied(c, root, used) && c.n <= until
    ensures Tied(Recv(Advance(root, until), until, Retain(Banked(c, until))), root, used)
  {
    hide Advance, KeyOf, LiveKey;
    var all := Banked(c, until);
    forall i | i in all
      ensures i < until && i !in used && all[i] == KeyOf(root, i)
    {
      if c.n <= i { LiveKeys(c, root, i); }
    }
    assert forall i :: i in Retain(all) ==> i in all && Retain(all)[i] == all[i];
  }

  lemma {:induction false} LandingIsTied(c: Recv, root: Key, used: set<nat>, target: nat)
    requires Tied(c, root, used) && c.n <= target
    ensures Tied(Recv(Advance(root, target + 1), target + 1, Retain(Banked(c, target))), root, used + {target})
  {
    hide Advance, KeyOf, Banked, Retain;
    GapIsTied(c, root, used, target);
  }

  /** Banking at a ratchet boundary keeps the invariant. */
  lemma {:induction false} BankKeepsTied(c: Recv, root: Key, used: set<nat>, until: nat)
    requires Tied(c, root, used)
    ensures Tied(BankThrough(c, until), root, used)
  {
    if c.n < until && until - c.n <= MAX_SKIP_PER_MESSAGE {
      LiveKeys(c, root, until);
      GapIsTied(c, root, used, until);
    }
  }

  /** Banking moves the chain by at most the skip bound, and a gap past the bound leaves it where it was. */
  lemma {:induction false} BankMovesWithinTheBound(c: Recv, until: nat)
    ensures c.n <= BankThrough(c, until).n <= c.n + MAX_SKIP_PER_MESSAGE
    ensures until > c.n + MAX_SKIP_PER_MESSAGE ==> BankThrough(c, until) == c
  {
    hide Advance, Retain;
  }

  /** So does an open, which lands one past the number it opens. */
  lemma {:induction false} OpenMovesWithinTheBound(c: Recv, target: nat, body: Body)
    ensures var n := Open(c, target, body).0.n; c.n <= n <= c.n + MAX_SKIP_PER_MESSAGE + 1
  {
    hide Advance, Retain;
  }

  /** What banking through `until` would hold, and the store has room for it. */
  ghost predicate HasRoom(c: Recv, until: nat) {
    until <= c.n + MAX_SKIP_PER_MESSAGE ==> |Banked(c, until)| <= MAX_SKIPPED_STORED
  }

  /** With room in the store, a number is banked after the ratchet exactly if it was, or lies in a gap within the bound. */
  lemma {:induction false} BankedIff(c: Recv, root: Key, used: set<nat>, until: nat, n: nat)
    requires Tied(c, root, used) && HasRoom(c, until)
    ensures n in BankThrough(c, until).skipped <==> n in c.skipped || c.n <= n < until <= c.n + MAX_SKIP_PER_MESSAGE
    ensures n in BankThrough(c, until).skipped ==> BankThrough(c, until).skipped[n] == KeyOf(root, n)
  {
    hide Advance, Retain, LiveKey, KeyOf;
    if c.n < until <= c.n + MAX_SKIP_PER_MESSAGE { NothingToEvict(Banked(c, until)); }
    BankKeepsTied(c, root, used, until);
  }

  /** `r` and `c'` are a sound answer to a delivery on a chain from which `used` was opened so far. */
  ghost predicate SoundOpen(c: Recv, root: Key, used: set<nat>, target: nat, body: Body, c': Recv, r: Option<Plain>) {
    match r
    case None => c' == c
    case Some(plain) =>
      && Tied(c', root, used + {target})
      && body == Sealed(KeyOf(root, target), target, plain)
      && target !in used
  }

  lemma {:induction false} OpenSkippedIsSound(c: Recv, root: Key, used: set<nat>, target: nat, body: Body)
    requires Tied(c, root, used)
    ensures var (c', r) := OpenSkipped(c, target, body); SoundOpen(c, root, used, target, body, c', r)
  {
    hide Advance, KeyOf;
    if target in c.skipped { DropOne(c.skipped, target); }
  }

  lemma {:induction false} OpenAheadIsSound(c: Recv, root: Key, used: set<nat>, target: nat, body: Body)
    requires Tied(c, root, used) && c.n <= target
    ensures var (c', r) := OpenAhead(c, target, body); SoundOpen(c, root, used, target, body, c', r)
  {
    LiveKeys(c, root, target);
    LandingIsTied(c, root, used, target);
  }

  /**
   One open, whatever arrives.  Success means the body is exactly what the holder of this chain sealed
   as number `target`, and that this number was never opened before; failure changes nothing.
   */
  lemma {:induction false} OpenIsSound(c: Recv, root: Key, used: set<nat>, target: nat, body: Body)
    requires Tied(c, root, used)
    ensures var (c', r) := Open(c, target, body); SoundOpen(c, root, used, target, body, c', r)
  {
    if target < c.n {
      OpenSkippedIsSound(c, root, used, target, body);
    } else {
      OpenAheadIsSound(c, root, used, target, body);
    }
  }

  /** An honest message opens exactly when it is ahead within the skip bound or its key is banked. */
  lemma {:induction false} HonestOpensIff(c: Recv, root: Key, used: set<nat>, target: nat, plain: Plain)
    requires Tied(c, root, used)
    ensures var r := Open(c, target, Sealed(KeyOf(root, target), target, plain)).1;
            r == (if (c.n <= target <= c.n + MAX_SKIP_PER_MESSAGE) || target in c.skipped
                  then Some(plain) else None)
    ensures var r := OpenSkipped(c, target, Sealed(KeyOf(root, target), target, plain)).1;
            r == (if target in c.skipped then Some(plain) else None)
  {
    if c.n <= target { LiveKeys(c, root, target); }
  }

  // ----- Whole runs -----

  datatype Delivery = Delivery(target: nat, body: Body)

  /** The chain after a run of deliveries. */
  ghost function After(c: Recv, run: seq<Delivery>): Recv {
    if run == [] then c
    else
      var last := run[|run| - 1];
      Open(After(c, run[..|run| - 1]), last.target, last.body).0
  }

  /** What the `i`-th delivery of a run returned. */
  ghost function Result(c: Recv, run: seq<Delivery>, i: nat): Option<Plain>
    requires i < |run|
  {
    Open(After(c, run[..i]), run[i].target, run[i].body).1
  }

  /** The numbers a run opened. */
  ghost function Opened(c: Recv, run: seq<Delivery>): set<nat> {
    if run == [] then {}
    else
      var k := |run| - 1;
      Opened(c, run[..k]) + if Result(c, run, k).Some? then {run[k].target} else {}
  }

  lemma {:induction false} OpenedHas(c: Recv, run: seq<Delivery>, i: nat)
    requires i < |run| && Result(c, run, i).Some?
    ensures run[i].target in Opened(c, run)
    decreases |run|
  {
    hide Open;
    var k := |run| - 1;
    if i < k {
      assert run[..k][..i] == run[..i];
      OpenedHas(c, run[..k], i);
    }
  }

  lemma {:induction false} RunIsTied(root: Key, run: seq<Delivery>)
    ensures Tied(After(NewRecv(root), run), root, Opened(NewRecv(root), run))
    decreases |run|
  {
    var c := NewRecv(root);
    if run != [] {
      var k := |run| - 1;
      RunIsTied(root, run[..k]);
      OpenIsSound(After(c, run[..k]), root, Opened(c, run[..k]), run[k].target, run[k].body);
    }
  }

  // ----- What is banked, exactly -----

  /** The banked numbers are exactly the unopened ones from a low-water mark up to `n`. */
  ghost predicate Holds(c: Recv, used: set<nat>, mark: nat) {
    mark <= c.n && forall i :: i in c.skipped <==> mark <= i < c.n && i !in used
  }

  /** Stepping over a gap moves the mark up, and only if it evicts. */
  lemma {:induction false} GapHolds(c: Recv, root: Key, used: set<nat>, mark: nat, until: nat) returns (raised: nat)
    requires Tied(c, root, used) && Holds(c, used, mark) && c.n <= until
    ensures mark <= raised <= until && (mark < raised ==> |Banked(c, until)| > MAX_SKIPPED_STORED)
    ensures forall i :: i in Retain(Banked(c, until)) <==> raised <= i < until && i !in used
  {
    hide Advance, KeyOf, LiveKey, Retain, Cut;
    var all := Banked(c, until);
    assert forall i :: i in all <==> mark <= i < until && i !in used;
    raised := mark;
    if |all| <= MAX_SKIPPED_STORED {
      NothingToEvict(all);
    } else {
      RetainedFrom(all);
      if mark < Cut(all) { raised := Cut(all); }
    }
  }

  lemma {:induction false} RetainedFrom(m: map<nat, Key>)
    ensures forall i :: i in Retain(m) <==> i in m && Cut(m) <= i
    ensures |m| > MAX_SKIPPED_STORED ==> exists i :: i in m && Cut(m) <= i
  {
    hide Cut;
    if |m| > MAX_SKIPPED_STORED {
      var i :| i in Retain(m);
    }
  }

  /** One open: a refusal changes nothing, and a success removes its own number and moves the mark only by eviction. */
  lemma {:induction false} OpenHolds(c: Recv, root: Key, used: set<nat>, mark: nat, target: nat, body: Body)
    returns (raised: nat)
    requires Tied(c, root, used) && Holds(c, used, mark)
    ensures var (c', r) := Open(c, target, body);
            && mark <= raised
            && (mark < raised ==> c.n <= target && r.Some? && |Banked(c, target)| > MAX_SKIPPED_STORED)
            && Holds(c', if r.Some? then used + {target} else used, raised)
  {
    hide Advance, KeyOf, LiveKey, Retain, Banked;
    raised := mark;
    if c.n <= target && Open(c, target, body).1.Some? { raised := GapHolds(c, root, used, mark, target); }
  }

  /** The same at a ratchet boundary. */
  lemma {:induction false} BankHolds(c: Recv, root: Key, used: set<nat>, mark: nat, until: nat) returns (raised: nat)
    requires Tied(c, root, used) && Holds(c, used, mark)
    ensures Holds(BankThrough(c, until), used, raised)
    ensures mark <= raised && (mark < raised ==> |Banked(c, until)| > MAX_SKIPPED_STORED)
  {
    hide Advance, KeyOf, LiveKey, Retain, Banked;
    raised := mark;
    if c.n < until && until - c.n <= MAX_SKIP_PER_MESSAGE { raised := GapHolds(c, root, used, mark, until); }
  }

  /** After any run of deliveries the chain holds the keys of exactly the unopened numbers from some mark on. */
  lemma {:induction false} RunHolds(root: Key, run: seq<Delivery>) returns (mark: nat)
    ensures var c := NewRecv(root); Holds(After(c, run), Opened(c, run), mark)
    decreases |run|
  {
    hide Open, Tied;
    var c := NewRecv(root);
    mark := 0;
    if run != [] {
      var k := |run| - 1;
      mark := RunHolds(root, run[..k]);
      RunIsTied(root, run[..k]);
      mark := OpenHolds(After(c, run[..k]), root, Opened(c, run[..k]), mark, run[k].target, run[k].body);
    }
  }

  /**
   At most once, for every run of arbitrary deliveries (reordered, replayed, renumbered or forged): a
   success is the body sealed under that number, and no number succeeds twice.
   */
  lemma {:induction false} OpensAtMostOnce(root: Key, run: seq<Delivery>, i: nat, j: nat)
    requires i < |run|
    requires Result(NewRecv(root), run, i).Some?
    ensures run[i].body == Sealed(KeyOf(root, run[i].target), run[i].target, Result(NewRecv(root), run, i).value)
    ensures i < j < |run| && run[j].target == run[i].target ==> Result(NewRecv(root), run, j).None?
  {
    var c := NewRecv(root);
    RunIsTied(root, run[..i]);
    OpenIsSound(After(c, run[..i]), root, Opened(c, run[..i]), run[i].target, run[i].body);
    if i < j < |run| && run[j].target == run[i].target {
      var upTo := run[..j];
      assert upTo[..i] == run[..i];
      assert Result(c, upTo, i).Some?;
      OpenedHas(c, upTo, i);
      RunIsTied(root, upTo);
      OpenIsSound(After(c, upTo), root, Opened(c, upTo), run[j].target, run[j].body);
    }
  }

  // ----- Receive order is irrelevant -----

  lemma {:induction false} TopGrows(numbers: set<nat>, i: nat)
    ensures Top(numbers + {i}) == if i < Top(numbers) then Top(numbers) else i + 1
  {
    var more := numbers + {i};
    assert i in more;
    assert Top(numbers) > 0 ==> Top(numbers) - 1 in more;
  }

  /** The numbers below the top that have not arrived. */
  ghost function Missing(numbers: set<nat>): set<nat> {
    set i | 0 <= i < Top(numbers) && i !in numbers
  }

  /** The chain that a set of delivered numbers leaves, whatever their order. */
  ghost function Canonical(root: Key, numbers: set<nat>): Recv {
    Recv(Advance(root, Top(numbers)), Top(numbers), map i | i in Missing(numbers) :: KeyOf(root, i))
  }

  ghost function Honest(root: Key, plains: nat -> Plain, schedule: seq<nat>): seq<Delivery> {
    seq(|schedule|, i requires 0 <= i < |schedule| =>
      Delivery(schedule[i], Sealed(KeyOf(root, schedule[i]), schedule[i], plains(schedule[i]))))
  }

  ghost function Numbers(schedule: seq<nat>): set<nat> {
    set i | i in schedule
  }

  lemma {:induction false} NumbersSplit(schedule: seq<nat>)
    requires schedule != []
    ensures var k := |schedule| - 1;
            Numbers(schedule) == Numbers(schedule[..k]) + {schedule[k]}
  {
    var k := |schedule| - 1;
    assert schedule == schedule[..k] + [schedule[k]];
  }

  /** No delivery skips past the bound, and the store never has to evict. */
  ghost predicate WithinBounds(schedule: seq<nat>) {
    forall k :: 0 <= k < |schedule| ==> StepWithinBounds(Numbers(schedule[..k]), schedule[k])
  }

  ghost predicate StepWithinBounds(numbers: set<nat>, i: nat) {
    && i <= Top(numbers) + MAX_SKIP_PER_MESSAGE
    && |Missing(numbers + {i})| <= MAX_SKIPPED_STORED
  }

  lemma {:induction false} CanonicalStep(root: Key, numbers: set<nat>, i: nat, plain: Plain)
    requires StepWithinBounds(numbers, i)
    ensures var (c, r) := Open(Canonical(root, numbers), i, Sealed(KeyOf(root, i), i, plain));
            && c == Canonical(root, numbers + {i})
            && r == if i in numbers then None else Some(plain)
  {
    if i < Top(numbers) {
      CanonicalBehind(root, numbers, i, plain);
    } else {
      CanonicalAhead(root, numbers, i, plain);
    }
  }

  lemma {:induction false} CanonicalBehind(root: Key, numbers: set<nat>, i: nat, plain: Plain)
    requires i < Top(numbers)
    ensures var (c, r) := OpenSkipped(Canonical(root, numbers), i, Sealed(KeyOf(root, i), i, plain));
            && c == Canonical(root, numbers + {i})
            && r == if i in numbers then None else Some(plain)
  {
    TopGrows(numbers, i);
    if i in numbers {
      assert numbers + {i} == numbers;
    } else {
      assert Missing(numbers + {i}) == Missing(numbers) - {i};
      assert Canonical(root, numbers).skipped - {i} == Canonical(root, numbers + {i}).skipped;
    }
  }

  lemma {:induction false} CanonicalAhead(root: Key, numbers: set<nat>, i: nat, plain: Plain)
    requires Top(numbers) <= i && StepWithinBounds(numbers, i)
    ensures OpenAhead(Canonical(root, numbers), i, Sealed(KeyOf(root, i), i, plain))
            == (Canonical(root, numbers + {i}), Some(plain))
  {
    hide Advance, KeyOf, Missing, Retain, Banked;
    TopGrows(numbers, i);
    LiveKeys(Canonical(root, numbers), root, i);
    CanonicalGap(root, numbers, i);
    var after := Canonical(root, numbers + {i});
    assert after.skipped.Keys == Missing(numbers + {i});
    NothingToEvict(after.skipped);
  }

  lemma {:induction false} CanonicalGap(root: Key, numbers: set<nat>, i: nat)
    requires Top(numbers) <= i
    ensures var c := Canonical(root, numbers);
            Banked(c, i) == Canonical(root, numbers + {i}).skipped
  {
    hide Advance, KeyOf, LiveKey;
    TopGrows(numbers, i);
    var c, after := Canonical(root, numbers), Canonical(root, numbers + {i});
    forall j | j in Gap(c, i)
      ensures Gap(c, i)[j] == KeyOf(root, j)
    {
      LiveKeys(c, root, j);
    }
    assert (c.skipped + Gap(c, i)).Keys == after.skipped.Keys;
  }

  /**
   Every schedule within the bounds, duplicates included, ends in the canonical chain of the numbers it
   delivered, and each delivery succeeds, with its own plaintext, exactly when it is the first of its
   number.
   */
  lemma {:induction false} ScheduleIsCanonical(root: Key, plains: nat -> Plain, schedule: seq<nat>)
    requires WithinBounds(schedule)
    ensures var c, run := NewRecv(root), Honest(root, plains, schedule);
            && After(c, run) == Canonical(root, Numbers(schedule))
            && forall k :: 0 <= k < |schedule| ==>
                 Result(c, run, k) == if schedule[k] in schedule[..k] then None else Some(plains(schedule[k]))
  {
    var c, run := NewRecv(root), Honest(root, plains, schedule);
    ScheduleLeaves(root, plains, schedule);
    forall k | 0 <= k < |schedule|
      ensures Result(c, run, k) == if schedule[k] in schedule[..k] then None else Some(plains(schedule[k]))
    {
      ScheduleLeavesPrefix(root, plains, schedule, k);
      CanonicalStep(root, Numbers(schedule[..k]), schedule[k], plains(schedule[k]));
    }
  }

  lemma {:induction false} ScheduleLeavesPrefix(root: Key, plains: nat -> Plain, schedule: seq<nat>, k: nat)
    requires WithinBounds(schedule) && k <= |schedule|
    ensures WithinBounds(schedule[..k])
    ensures After(NewRecv(root), Honest(root, plains, schedule)[..k]) == Canonical(root, Numbers(schedule[..k]))
    decreases k, 1
  {
    var prefix := schedule[..k];
    forall j | 0 <= j < k
      ensures StepWithinBounds(Numbers(prefix[..j]), prefix[j])
    {
      assert prefix[..j] == schedule[..j];
      assert StepWithinBounds(Numbers(schedule[..j]), schedule[j]);
    }
    assert Honest(root, plains, prefix) == Honest(root, plains, schedule)[..k];
    ScheduleLeaves(root, plains, prefix);
  }

  lemma {:induction false} ScheduleLeaves(root: Key, plains: nat -> Plain, schedule: seq<nat>)
    requires WithinBounds(schedule)
    ensures After(NewRecv(root), Honest(root, plains, schedule)) == Canonical(root, Numbers(schedule))
    decreases |schedule|, 0
  {
    if schedule == [] {
      assert Missing(Numbers(schedule)) == {};
    } else {
      var k := |schedule| - 1;
      ScheduleLeavesPrefix(root, plains, schedule, k);
      assert StepWithinBounds(Numbers(schedule[..k]), schedule[k]);
      NumbersSplit(schedule);
      CanonicalStep(root, Numbers(schedule[..k]), schedule[k], plains(schedule[k]));
    }
  }

  /** Two schedules within the bounds that deliver the same numbers leave the same chain. */
  lemma {:induction false} ReceiveOrderIsIrrelevant(root: Key, plains: nat -> Plain, a: seq<nat>, b: seq<nat>)
    requires WithinBounds(a) && WithinBounds(b)
    requires Numbers(a) == Numbers(b)
    ensures After(NewRecv(root), Honest(root, plains, a)) == After(NewRecv(root), Honest(root, plains, b))
  {
    ScheduleIsCanonical(root, plains, a);
    ScheduleIsCanonical(root, plains, b);
  }
}
