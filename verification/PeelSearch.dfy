/**
 The combiner's budgeted search for a set of shares that peels a hop.

 A candidate is a threshold-sized set of shares with distinct indices, written as the increasing sequence
 of their positions.  Whether a set peels is an oracle: Shamir reconstruction followed by the AEAD.
 */
module PeelSearch {
  import opened Symbolic

  /** The most candidates tried for one search. */
  const MAX_PEEL_ATTEMPTS: nat := 256

  /** A Shamir share: its index `x` (1-based member position) and its evaluations. */
  datatype Share = Share(x: nat, y: seq<bv8>)

  predicate InRange(shares: seq<Share>, chosen: seq<nat>) {
    forall i :: 0 <= i < |chosen| ==> chosen[i] < |shares|
  }

  function Pick(shares: seq<Share>, chosen: seq<nat>): seq<Share>
    requires InRange(shares, chosen)
  {
    if chosen == [] then [] else Pick(shares, chosen[..|chosen| - 1]) + [shares[chosen[|chosen| - 1]]]
  }

  /** `chosen` are positions in increasing order, of shares with distinct indices. */
  ghost predicate IsChoice(shares: seq<Share>, chosen: seq<nat>) {
    && InRange(shares, chosen)
    && (forall i, j :: 0 <= i < j < |chosen| ==> chosen[i] < chosen[j] && shares[chosen[i]].x != shares[chosen[j]].x)
  }

  /** Whether share `i` may extend a choice: its index is not taken. */
  predicate Extends(shares: seq<Share>, chosen: seq<nat>, i: nat)
    requires i < |shares| && InRange(shares, chosen)
  {
    forall j :: 0 <= j < |chosen| ==> shares[chosen[j]].x != shares[i].x
  }

  /** The candidates that extend `chosen` by positions from `start` on. */
  ghost function Candidates(shares: seq<Share>, t: nat, start: nat, chosen: seq<nat>): set<seq<nat>>
    requires InRange(shares, chosen)
    decreases |shares| - start
  {
    if |chosen| == t then {chosen}
    else if start >= |shares| then {}
    else
      Candidates(shares, t, start + 1, chosen) +
      if Extends(shares, chosen, start) then Candidates(shares, t, start + 1, chosen + [start]) else {}
  }

  /** The search: the first candidate that peels, and the number of attempts so far. */
  function Search<O>(peel: seq<Share> -> Option<O>, shares: seq<Share>, t: nat,
                     start: nat, chosen: seq<nat>, attempts: nat): (Option<O>, nat)
    requires InRange(shares, chosen)
    decreases |shares| - start
  {
    if |chosen| == t then (peel(Pick(shares, chosen)), attempts + 1)
    else if start >= |shares| || attempts >= MAX_PEEL_ATTEMPTS then (None, attempts)
    else if Extends(shares, chosen, start) then
      var (r, tried) := Search(peel, shares, t, start + 1, chosen + [start], attempts);
      if r.Some? then (r, tried) else Search(peel, shares, t, start + 1, chosen, tried)
    else Search(peel, shares, t, start + 1, chosen, attempts)
  }

  function BestSubset<O>(peel: seq<Share> -> Option<O>, shares: seq<Share>, t: nat): Option<O> {
    if t == 0 || |shares| < t then None else Search(peel, shares, t, 0, [], 0).0
  }

  /** The recursive search as it runs: `chosen` is pushed and popped, and is as it was when nothing peels. */
  method PeelSearch<O>(peel: seq<Share> -> Option<O>, shares: seq<Share>, t: nat,
                       start: nat, chosen: seq<nat>, attempts: nat)
    returns (r: Option<O>, chosen': seq<nat>, attempts': nat)
    requires |chosen| <= t && InRange(shares, chosen)
    requires start <= |shares|
    ensures (r, attempts') == Search(peel, shares, t, start, chosen, attempts)
    ensures r.None? ==> chosen' == chosen
    ensures r.Some? ==> |chosen'| == t && InRange(shares, chosen') && r == peel(Pick(shares, chosen'))
    decreases |shares| - start
  {
    chosen', attempts' := chosen, attempts;
    if |chosen'| == t {
      attempts' := attempts' + 1;
      r := peel(Pick(shares, chosen'));
      return;
    }
    for i := start to |shares|
      invariant chosen' == chosen
      invariant Search(peel, shares, t, start, chosen, attempts) == Search(peel, shares, t, i, chosen, attempts')
    {
      if attempts' >= MAX_PEEL_ATTEMPTS { break; }
      if !Extends(shares, chosen', i) { continue; }
      chosen' := chosen' + [i];
      r, chosen', attempts' := PeelSearch(peel, shares, t, i + 1, chosen', attempts');
      if r.Some? { return; }
      chosen' := chosen'[..|chosen'| - 1];
    }
    r := None;
  }

  method PeelBestSubset<O>(peel: seq<Share> -> Option<O>, shares: seq<Share>, t: nat) returns (r: Option<O>)
    ensures r == BestSubset(peel, shares, t)
  {
    if t == 0 || |shares| < t { return None; }
    var chosen, attempts;
    r, chosen, attempts := PeelSearch(peel, shares, t, 0, [], 0);
  }

  // ----- The candidates are exactly the threshold-sized choices -----

  lemma {:induction false} CandidatesAreChoices(shares: seq<Share>, t: nat, start: nat, chosen: seq<nat>, c: seq<nat>)
    requires IsChoice(shares, chosen) && |chosen| <= t && forall j :: 0 <= j < |chosen| ==> chosen[j] < start
    ensures c in Candidates(shares, t, start, chosen) <==>
            && IsChoice(shares, c) && |c| == t && chosen <= c
            && (|chosen| < t ==> c[|chosen|] >= start)
    decreases |shares| - start
  {
    if |chosen| == t {
      if chosen <= c && |c| == t { assert c == chosen; }
    } else if start < |shares| {
      CandidatesAreChoices(shares, t, start + 1, chosen, c);
      if Extends(shares, chosen, start) {
        CandidatesAreChoices(shares, t, start + 1, chosen + [start], c);
        if IsChoice(shares, c) && |c| == t { ChoicesSplit(shares, t, start, chosen, c); }
      } else if IsChoice(shares, c) && |c| == t && chosen <= c {
        assert c[|chosen|] != start;
      }
    } else if IsChoice(shares, c) && |c| == t && chosen <= c {
      assert c[|chosen|] < |shares|;
    }
  }

  lemma {:induction false} ChoicesSplit(shares: seq<Share>, t: nat, start: nat, chosen: seq<nat>, c: seq<nat>)
    requires |chosen| < t == |c| && IsChoice(shares, c)
    ensures chosen <= c && c[|chosen|] == start <==>
            chosen + [start] <= c && (|chosen| + 1 < t ==> c[|chosen| + 1] >= start + 1)
  {
    if chosen <= c && c[|chosen|] == start {
      assert chosen + [start] <= c;
      if |chosen| + 1 < t { assert c[|chosen|] < c[|chosen| + 1]; }
    }
  }

  /** A candidate of the whole search is any threshold-sized choice, and nothing else. */
  lemma {:induction false} CandidatesOfAll(shares: seq<Share>, t: nat, c: seq<nat>)
    ensures c in Candidates(shares, t, 0, []) <==> IsChoice(shares, c) && |c| == t
  {
    CandidatesAreChoices(shares, t, 0, [], c);
  }

  // ----- What the search tries -----

  ghost predicate Refused<O>(peel: seq<Share> -> Option<O>, shares: seq<Share>, tried: set<seq<nat>>) {
    forall c :: c in tried ==> InRange(shares, c) && peel(Pick(shares, c)).None?
  }

  /**
   The candidates the search tried, all distinct, one attempt each.  Without a result none of them peels,
   and below the cap they are all the candidates there are; a result is some candidate's own outcome.
   */
  lemma {:induction false} SearchTries<O>(
    peel: seq<Share> -> Option<O>, shares: seq<Share>, t: nat, start: nat, chosen: seq<nat>, attempts: nat)
    returns (tried: set<seq<nat>>)
    requires IsChoice(shares, chosen) && |chosen| <= t && forall j :: 0 <= j < |chosen| ==> chosen[j] < start
    requires |chosen| == t ==> attempts < MAX_PEEL_ATTEMPTS
    ensures var (r, n) := Search(peel, shares, t, start, chosen, attempts);
            && tried <= Candidates(shares, t, start, chosen)
            && n == attempts + |tried|
            && (attempts <= MAX_PEEL_ATTEMPTS ==> n <= MAX_PEEL_ATTEMPTS)
            && (r.None? ==> Refused(peel, shares, tried))
            && (r.None? && n < MAX_PEEL_ATTEMPTS ==> tried == Candidates(shares, t, start, chosen))
            && (r.Some? ==> exists c :: c in tried && InRange(shares, c) && r == peel(Pick(shares, c)))
    decreases |shares| - start
  {
    if |chosen| == t {
      tried := {chosen};
      assert chosen in tried;
    } else if start >= |shares| || attempts >= MAX_PEEL_ATTEMPTS {
      tried := {};
    } else if Extends(shares, chosen, start) {
      tried := SearchBranches(peel, shares, t, start, chosen, attempts);
    } else {
      tried := SearchTries(peel, shares, t, start + 1, chosen, attempts);
    }
  }

  lemma {:induction false} SearchBranches<O>(
    peel: seq<Share> -> Option<O>, shares: seq<Share>, t: nat, start: nat, chosen: seq<nat>, attempts: nat)
    returns (tried: set<seq<nat>>)
    requires IsChoice(shares, chosen) && |chosen| < t && forall j :: 0 <= j < |chosen| ==> chosen[j] < start
    requires start < |shares| && attempts < MAX_PEEL_ATTEMPTS && Extends(shares, chosen, start)
    ensures var (r, n) := Search(peel, shares, t, start, chosen, attempts);
            && tried <= Candidates(shares, t, start, chosen)
            && n == attempts + |tried|
            && n <= MAX_PEEL_ATTEMPTS
            && (r.None? ==> Refused(peel, shares, tried))
            && (r.None? && n < MAX_PEEL_ATTEMPTS ==> tried == Candidates(shares, t, start, chosen))
            && (r.Some? ==> exists c :: c in tried && InRange(shares, c) && r == peel(Pick(shares, c)))
    decreases |shares| - start, 0
  {
    var longer := chosen + [start];
    var withIt := SearchTries(peel, shares, t, start + 1, longer, attempts);
    var (r, n) := Search(peel, shares, t, start + 1, longer, attempts);
    if r.Some? {
      tried := withIt;
    } else {
      var without := SearchTries(peel, shares, t, start + 1, chosen, n);
      forall c | c in withIt
        ensures c !in without
      {
        CandidatesAreChoices(shares, t, start + 1, longer, c);
        CandidatesAreChoices(shares, t, start + 1, chosen, c);
      }
      tried := withIt + without;
      assert withIt !! without;
    }
  }

  /**
   The whole search: at most `MAX_PEEL_ATTEMPTS` attempts; a result is the outcome of a threshold-sized
   choice; and if it fails with attempts to spare, or there were no more choices than attempts, no choice
   peels.
   */
  lemma {:induction false} SearchIsExact<O>(peel: seq<Share> -> Option<O>, shares: seq<Share>, t: nat)
    requires 0 < t <= |shares|
    ensures var (r, n) := Search(peel, shares, t, 0, [], 0);
            && r == BestSubset(peel, shares, t)
            && n <= MAX_PEEL_ATTEMPTS
            && (r.Some? ==> exists c :: IsChoice(shares, c) && |c| == t && r == peel(Pick(shares, c)))
            && (r.None? && (n < MAX_PEEL_ATTEMPTS || |Candidates(shares, t, 0, [])| <= MAX_PEEL_ATTEMPTS) ==>
                  forall c :: IsChoice(shares, c) && |c| == t ==> peel(Pick(shares, c)).None?)
  {
    hide Search, Candidates;
    var tried := SearchTries(peel, shares, t, 0, [], 0);
    var (r, n) := Search(peel, shares, t, 0, [], 0);
    var all := Candidates(shares, t, 0, []);
    if r.Some? {
      var c :| c in tried && InRange(shares, c) && r == peel(Pick(shares, c));
      CandidatesOfAll(shares, t, c);
    } else if n < MAX_PEEL_ATTEMPTS || |all| <= MAX_PEEL_ATTEMPTS {
      SameSize(tried, all);
      forall c | IsChoice(shares, c) && |c| == t
        ensures peel(Pick(shares, c)).None?
      {
        CandidatesOfAll(shares, t, c);
      }
    }
  }

  lemma {:induction false} SameSize(a: set<seq<nat>>, b: set<seq<nat>>)
    requires a <= b
    ensures |a| <= |b|
    ensures |a| == |b| ==> a == b
  {
    assert b == a + (b - a);
  }

  /**
   Forged shares cannot hide genuine ones.  If every set of shares peels to `genuine` or not at all (the
   AEAD opens under one key only), some threshold-sized choice peels, and there are no more choices than
   attempts, then the search returns `genuine`, whatever else is among the shares and in whatever order.
   */
  lemma {:induction false} GenuineIsFound<O>(
    peel: seq<Share> -> Option<O>, shares: seq<Share>, t: nat, genuine: O, c: seq<nat>)
    requires 0 < t
    requires forall s :: peel(s).Some? ==> peel(s) == Some(genuine)
    requires IsChoice(shares, c) && |c| == t && peel(Pick(shares, c)).Some?
    requires |Candidates(shares, t, 0, [])| <= MAX_PEEL_ATTEMPTS
    ensures BestSubset(peel, shares, t) == Some(genuine)
  {
    hide Search, Candidates;
    ChoiceFits(shares, c);
    SearchIsExact(peel, shares, t);
  }

  lemma {:induction false} ChoiceFits(shares: seq<Share>, c: seq<nat>)
    requires IsChoice(shares, c)
    ensures |c| <= |shares|
  {
    if c != [] { LastIsLarge(shares, c, |c| - 1); }
  }

  lemma {:induction false} LastIsLarge(shares: seq<Share>, c: seq<nat>, i: nat)
    requires IsChoice(shares, c) && i < |c|
    ensures i <= c[i]
    decreases i
  {
    if i > 0 { LastIsLarge(shares, c, i - 1); }
  }

  // ----- The first that peels -----

  /** `d` comes before `c`: at the first place where they part, it holds the smaller position. */
  ghost predicate ComesBefore(d: seq<nat>, c: seq<nat>) {
    exists i :: 0 <= i < |d| && i < |c| && d[..i] == c[..i] && d[i] < c[i]
  }

  lemma {:induction false} LaterBranchIsLater(c: seq<nat>, d: seq<nat>, chosen: seq<nat>)
    requires |chosen| < |c| == |d| && chosen <= c && chosen <= d && c[|chosen|] < d[|chosen|]
    ensures !ComesBefore(d, c)
  {
    assert forall j :: 0 <= j < |chosen| ==> c[j] == chosen[j] && d[j] == chosen[j];
    forall i | 0 <= i < |d| && d[i] < c[i]
      ensures d[..i] != c[..i]
    {
      assert |chosen| < i;
      assert d[..i][|chosen|] != c[..i][|chosen|];
    }
  }

  /** A result is that of the first candidate that peels, in the order of positions. */
  lemma {:induction false} SearchFindsTheFirst<O>(
    peel: seq<Share> -> Option<O>, shares: seq<Share>, t: nat, start: nat, chosen: seq<nat>, attempts: nat)
    returns (c: seq<nat>)
    requires IsChoice(shares, chosen) && |chosen| <= t && forall j :: 0 <= j < |chosen| ==> chosen[j] < start
    requires Search(peel, shares, t, start, chosen, attempts).0.Some? && attempts < MAX_PEEL_ATTEMPTS
    ensures c in Candidates(shares, t, start, chosen) && InRange(shares, c)
    ensures Search(peel, shares, t, start, chosen, attempts).0 == peel(Pick(shares, c))
    ensures forall d :: d in Candidates(shares, t, start, chosen) && ComesBefore(d, c) ==>
              InRange(shares, d) && peel(Pick(shares, d)).None?
    decreases |shares| - start
  {
    hide Pick, ComesBefore, Candidates;
    if |chosen| == t {
      c := chosen;
      OnlyItself(shares, t, start, chosen);
    } else if Extends(shares, chosen, start) {
      var longer := chosen + [start];
      var (r, n) := Search(peel, shares, t, start + 1, longer, attempts);
      CandidatesSplit(shares, t, start, chosen);
      var tried := SearchTries(peel, shares, t, start + 1, longer, attempts);
      if r.Some? {
        c := SearchFindsTheFirst(peel, shares, t, start + 1, longer, attempts);
        forall d | d in Candidates(shares, t, start + 1, chosen)
          ensures !ComesBefore(d, c)
        {
          CandidatesAreChoices(shares, t, start + 1, chosen, d);
          CandidatesAreChoices(shares, t, start + 1, longer, c);
          assert c[|chosen|] == longer[|chosen|] && chosen <= c;
          LaterBranchIsLater(c, d, chosen);
        }
      } else {
        c := SearchFindsTheFirst(peel, shares, t, start + 1, chosen, n);
      }
    } else {
      CandidatesSplit(shares, t, start, chosen);
      c := SearchFindsTheFirst(peel, shares, t, start + 1, chosen, attempts);
    }
  }

  lemma {:induction false} OnlyItself(shares: seq<Share>, t: nat, start: nat, chosen: seq<nat>)
    requires InRange(shares, chosen) && |chosen| == t
    ensures Candidates(shares, t, start, chosen) == {chosen} && !ComesBefore(chosen, chosen)
  {
  }

  lemma {:induction false} CandidatesSplit(shares: seq<Share>, t: nat, start: nat, chosen: seq<nat>)
    requires InRange(shares, chosen) && |chosen| != t && start < |shares|
    ensures Candidates(shares, t, start, chosen) == Candidates(shares, t, start + 1, chosen) +
            if Extends(shares, chosen, start) then Candidates(shares, t, start + 1, chosen + [start]) else {}
  {
  }

  /** The result of a search is that of the first choice, in the order of positions, that peels. */
  lemma {:induction false} TheFirstThatPeels<O>(peel: seq<Share> -> Option<O>, shares: seq<Share>, t: nat) returns (c: seq<nat>)
    requires BestSubset(peel, shares, t).Some?
    ensures IsChoice(shares, c) && |c| == t && BestSubset(peel, shares, t) == peel(Pick(shares, c))
    ensures forall d :: IsChoice(shares, d) && |d| == t && ComesBefore(d, c) ==> peel(Pick(shares, d)).None?
  {
    hide Search, Pick, ComesBefore, Candidates;
    c := SearchFindsTheFirst(peel, shares, t, 0, [], 0);
    CandidatesOfAll(shares, t, c);
    forall d | IsChoice(shares, d) && |d| == t && ComesBefore(d, c)
      ensures peel(Pick(shares, d)).None?
    {
      CandidatesOfAll(shares, t, d);
    }
  }
}
