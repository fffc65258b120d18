/**
 Weighted rendezvous hashing over a fleet: each healthy backend of positive weight scores
 `weight * hash(selector, key)`, the ranking is by descending score, and a later attempt walks down it.
 */
module Balance {
  import opened Symbolic

  type Bytes = seq<bv8>

  datatype Instance = Instance(pubkey: Bytes, weight: nat)

  /** A request: its selector, the hash the scores are drawn from, and which backends are healthy. */
  datatype Request = Request(selector: Bytes, hash: Bytes -> nat, healthy: Instance -> bool)

  function Score(req: Request, inst: Instance): nat { req.hash(req.selector + inst.pubkey) * inst.weight }

  predicate Eligible(req: Request, inst: Instance) { inst.weight > 0 && req.healthy(inst) }

  /** A ranked backend: its score and its position in the fleet. */
  datatype Entry = Entry(score: nat, index: nat)

  /** Highest score first; of equal scores the later position first. */
  predicate Before(a: Entry, b: Entry) {
    a.score > b.score || (a.score == b.score && a.index > b.index)
  }

  ghost predicate Ranked(r: seq<Entry>) {
    forall i, j :: 0 <= i < j < |r| ==> Before(r[i], r[j])
  }

  /** The entries of the eligible backends. */
  ghost function Entries(req: Request, fleet: seq<Instance>): set<Entry> {
    set i | 0 <= i < |fleet| && Eligible(req, fleet[i]) :: Entry(Score(req, fleet[i]), i)
  }

  ghost predicate IsRanking(r: seq<Entry>, entries: set<Entry>) {
    Ranked(r) && forall e :: e in r <==> e in entries
  }

  // ----- The ranking is unique -----

  lemma {:induction false} RankingIsUnique(r: seq<Entry>, s: seq<Entry>, entries: set<Entry>)
    requires IsRanking(r, entries) && IsRanking(s, entries)
    ensures r == s
    decreases |r|
  {
    EmptyIff(r, entries);
    EmptyIff(s, entries);
    if r != [] {
      SameFirst(r, s, entries);
      TailRanks(r, entries);
      TailRanks(s, entries);
      RankingIsUnique(r[1..], s[1..], entries - {r[0]});
      assert r == [r[0]] + r[1..] && s == [s[0]] + s[1..];
    }
  }

  lemma {:induction false} EmptyIff(r: seq<Entry>, entries: set<Entry>)
    requires IsRanking(r, entries)
    ensures r == [] <==> entries == {}
  {
    if r != [] { assert r[0] in entries; }
  }

  lemma {:induction false} SameFirst(r: seq<Entry>, s: seq<Entry>, entries: set<Entry>)
    requires IsRanking(r, entries) && IsRanking(s, entries) && r != [] && s != []
    ensures r[0] == s[0]
  {
    assert r[0] in entries && s[0] in entries;
    FirstIsBefore(r, entries);
    FirstIsBefore(s, entries);
  }

  lemma {:induction false} TailRanks(r: seq<Entry>, entries: set<Entry>)
    requires IsRanking(r, entries) && r != []
    ensures IsRanking(r[1..], entries - {r[0]})
  {
    forall e
      ensures e in r[1..] <==> e in entries && e != r[0]
    {
      assert r == [r[0]] + r[1..];
      if e in r[1..] {
        var i :| 0 <= i < |r[1..]| && r[1..][i] == e;
        assert Before(r[0], r[i + 1]);
      }
    }
  }

  // ----- Selection -----

  /** Insert an entry into a ranking. */
  method Insert(r: seq<Entry>, e: Entry, ghost entries: set<Entry>) returns (s: seq<Entry>)
    requires IsRanking(r, entries) && e !in entries
    ensures IsRanking(s, entries + {e})
  {
    var k := 0;
    while k < |r| && Before(r[k], e)
      invariant k <= |r| && forall i :: 0 <= i < k ==> Before(r[i], e)
    {
      k := k + 1;
    }
    s := r[..k] + [e] + r[k..];
    assert s[k] == e;
    assert r == r[..k] + r[k..];
    forall i | k <= i < |r|
      ensures Before(e, r[i])
    {
      assert r[k] in entries;
      assert i > k ==> Before(r[k], r[i]);
    }
  }

  /** The ranking of the eligible backends of a fleet. */
  method Rank(req: Request, fleet: seq<Instance>) returns (r: seq<Entry>)
    ensures IsRanking(r, Entries(req, fleet))
  {
    hide IsRanking, Score, Eligible;
    r := [];
    NothingRanked(req);
    for i := 0 to |fleet|
      invariant IsRanking(r, Entries(req, fleet[..i]))
    {
      OneMoreInstance(req, fleet, i);
      if Eligible(req, fleet[i]) { r := Insert(r, Entry(Score(req, fleet[i]), i), Entries(req, fleet[..i])); }
    }
    assert fleet[..|fleet|] == fleet;
  }

  lemma {:induction false} NothingRanked(req: Request)
    ensures IsRanking([], Entries(req, []))
  {
  }

  lemma {:induction false} OneMoreInstance(req: Request, fleet: seq<Instance>, i: nat)
    requires i < |fleet|
    ensures var e := Entry(Score(req, fleet[i]), i);
            && e !in Entries(req, fleet[..i])
            && Entries(req, fleet[..i + 1]) ==
               if Eligible(req, fleet[i]) then Entries(req, fleet[..i]) + {e} else Entries(req, fleet[..i])
  {
    hide Score, Eligible;
    var before, after := fleet[..i], fleet[..i + 1];
    forall e
      ensures e in Entries(req, after) <==> e in Entries(req, before) || (Eligible(req, fleet[i]) && e == Entry(Score(req, fleet[i]), i))
    {
      EntryOf(req, before, e);
      EntryOf(req, after, e);
    }
  }

  /** An entry names an eligible position and its score. */
  lemma {:induction false} EntryOf(req: Request, fleet: seq<Instance>, e: Entry)
    ensures e in Entries(req, fleet) <==>
            e.index < |fleet| && Eligible(req, fleet[e.index]) && e.score == Score(req, fleet[e.index])
  {
    hide Score, Eligible;
    if e.index < |fleet| && Eligible(req, fleet[e.index]) && e.score == Score(req, fleet[e.index]) {
      assert e == Entry(Score(req, fleet[e.index]), e.index);
    }
  }

  ghost function Ranking(req: Request, fleet: seq<Instance>): (r: seq<Entry>)
    ensures IsRanking(r, Entries(req, fleet))
  {
    RankingExists(req, fleet);
    var r :| IsRanking(r, Entries(req, fleet));
    r
  }

  lemma {:induction false} RankingExists(req: Request, fleet: seq<Instance>)
    ensures exists r :: IsRanking(r, Entries(req, fleet))
    decreases |fleet|
  {
    hide IsRanking, Score, Eligible;
    if fleet == [] {
      NothingRanked(req);
    } else {
      var k := |fleet| - 1;
      RankingExists(req, fleet[..k]);
      assert fleet[..k + 1] == fleet;
      OneMoreInstance(req, fleet, k);
      var r :| IsRanking(r, Entries(req, fleet[..k]));
      if Eligible(req, fleet[k]) {
        InsertExists(r, Entry(Score(req, fleet[k]), k), Entries(req, fleet[..k]));
      }
    }
  }

  lemma {:induction false} InsertExists(r: seq<Entry>, e: Entry, entries: set<Entry>)
    requires IsRanking(r, entries) && e !in entries
    ensures exists s :: IsRanking(s, entries + {e})
    decreases |r|
  {
    if r == [] {
      assert IsRanking([e], entries + {e});
    } else if Before(e, r[0]) {
      PutFirst(r, e, entries);
    } else {
      assert r[0] in entries;
      TailRanks(r, entries);
      InsertExists(r[1..], e, entries - {r[0]});
      var s :| IsRanking(s, (entries - {r[0]}) + {e});
      FirstIsBefore(r, entries);
      PutFirst(s, r[0], (entries - {r[0]}) + {e});
      assert ((entries - {r[0]}) + {e}) + {r[0]} == entries + {e};
    }
  }

  lemma {:induction false} FirstIsBefore(r: seq<Entry>, entries: set<Entry>)
    requires IsRanking(r, entries) && r != []
    ensures forall e :: e in entries && e != r[0] ==> Before(r[0], e)
  {
    forall e | e in entries && e != r[0]
      ensures Before(r[0], e)
    {
      var i :| 0 <= i < |r| && r[i] == e;
    }
  }

  lemma {:induction false} PutFirst(r: seq<Entry>, e: Entry, entries: set<Entry>)
    requires IsRanking(r, entries) && e !in entries
    requires (r != [] && Before(e, r[0])) || forall f :: f in entries ==> Before(e, f)
    ensures IsRanking([e] + r, entries + {e})
  {
    var s := [e] + r;
    forall j | 0 <= j < |r|
      ensures Before(e, r[j])
    {
      assert r[j] in entries;
      assert j > 0 ==> Before(r[0], r[j]);
    }
    assert forall i, j :: 0 <= i < j < |s| ==> Before(s[i], s[j]);
  }

  /** Select the backend at a rank: its position, or nothing past the end of the ranking. */
  method SelectInstanceWhere(req: Request, fleet: seq<Instance>, attempt: nat) returns (r: Option<nat>)
    ensures r == if attempt < |Ranking(req, fleet)| then Some(Ranking(req, fleet)[attempt].index) else None
  {
    hide IsRanking, Ranking;
    var ranked := Rank(req, fleet);
    RankingIsUnique(ranked, Ranking(req, fleet), Entries(req, fleet));
    return if attempt < |ranked| then Some(ranked[attempt].index) else None;
  }

  /** Selection with every backend taken as healthy. */
  method SelectInstance(req: Request, fleet: seq<Instance>, attempt: nat) returns (r: Option<nat>)
    ensures var all := req.(healthy := inst => true);
            r == if attempt < |Ranking(all, fleet)| then Some(Ranking(all, fleet)[attempt].index) else None
  {
    r := SelectInstanceWhere(req.(healthy := inst => true), fleet, attempt);
  }

  /** The backend an attempt selects. */
  ghost function Selected(req: Request, fleet: seq<Instance>, attempt: nat): Option<nat> {
    if attempt < |Ranking(req, fleet)| then Some(Ranking(req, fleet)[attempt].index) else None
  }

  // ----- Failover enumerates the eligible backends -----

  /** Successive attempts name each eligible backend exactly once, and nothing else, and then nothing. */
  lemma {:induction false} AttemptsEnumerate(req: Request, fleet: seq<Instance>)
    ensures forall a, b :: 0 <= a < b && Selected(req, fleet, b).Some? ==>
              Selected(req, fleet, a).Some? && Selected(req, fleet, a) != Selected(req, fleet, b)
    ensures forall i :: 0 <= i < |fleet| && Eligible(req, fleet[i]) ==> exists a: nat :: Selected(req, fleet, a) == Some(i)
    ensures forall a: nat :: Selected(req, fleet, a).Some? ==>
              Selected(req, fleet, a).value < |fleet| && Eligible(req, fleet[Selected(req, fleet, a).value])
  {
    hide Ranking, Score, Eligible, Entries;
    var r := Ranking(req, fleet);
    forall a, b | 0 <= a < b && Selected(req, fleet, b).Some?
      ensures Selected(req, fleet, a).Some? && Selected(req, fleet, a) != Selected(req, fleet, b)
    {
      assert Before(r[a], r[b]);
      EntryOf(req, fleet, r[a]);
      EntryOf(req, fleet, r[b]);
    }
    forall i | 0 <= i < |fleet| && Eligible(req, fleet[i])
      ensures exists a: nat :: Selected(req, fleet, a) == Some(i)
    {
      var e := Entry(Score(req, fleet[i]), i);
      EntryOf(req, fleet, e);
      assert e in r;
      var a: nat :| a < |r| && r[a] == e;
      assert Selected(req, fleet, a) == Some(i);
    }
    forall a: nat | Selected(req, fleet, a).Some?
      ensures Selected(req, fleet, a).value < |fleet| && Eligible(req, fleet[Selected(req, fleet, a).value])
    {
      assert r[a] in r;
      EntryOf(req, fleet, r[a]);
    }
  }

  // ----- Consistency -----

  /** A sequence of entries without the one at position `k`. */
  function Without(r: seq<Entry>, k: nat): seq<Entry> {
    if r == [] then []
    else Without(r[..|r| - 1], k) + if r[|r| - 1].index == k then [] else [r[|r| - 1]]
  }

  lemma {:induction false} WithoutHas(r: seq<Entry>, k: nat, e: Entry)
    ensures e in Without(r, k) <==> e in r && e.index != k
  {
    if r != [] {
      WithoutHas(r[..|r| - 1], k, e);
      assert r == r[..|r| - 1] + [r[|r| - 1]];
    }
  }

  lemma {:induction false} WithoutRanks(r: seq<Entry>, k: nat)
    requires Ranked(r)
    ensures Ranked(Without(r, k))
  {
    if r != [] {
      var last, before := r[|r| - 1], r[..|r| - 1];
      WithoutRanks(before, k);
      var s := Without(before, k);
      forall i | 0 <= i < |s|
        ensures Before(s[i], last)
      {
        WithoutHas(before, k, s[i]);
        var j :| 0 <= j < |before| && before[j] == s[i];
        assert Before(r[j], r[|r| - 1]);
      }
    }
  }

  /** Marking backend `k` down deletes it from the ranking and changes nothing else. */
  lemma {:induction false} MarkingDownDeletesOne(req: Request, other: Request, fleet: seq<Instance>, k: nat)
    requires k < |fleet| && other == req.(healthy := other.healthy) && !other.healthy(fleet[k])
    requires forall i :: 0 <= i < |fleet| && i != k ==> other.healthy(fleet[i]) == req.healthy(fleet[i])
    ensures Ranking(other, fleet) == Without(Ranking(req, fleet), k)
  {
    hide Ranking;
    var r := Without(Ranking(req, fleet), k);
    WithoutRanks(Ranking(req, fleet), k);
    forall e
      ensures e in r <==> e in Entries(other, fleet)
    {
      WithoutHas(Ranking(req, fleet), k, e);
      EntryOf(req, fleet, e);
      EntryOf(other, fleet, e);
    }
    RankingIsUnique(Ranking(other, fleet), r, Entries(other, fleet));
  }

  /** The position of a backend once position `k` is taken out of the fleet. */
  function Moved(i: nat, k: nat): nat { if i > k then i - 1 else i }

  function MovedEntry(e: Entry, k: nat): Entry { Entry(e.score, Moved(e.index, k)) }

  function MovedAll(r: seq<Entry>, k: nat): (s: seq<Entry>)
    ensures |s| == |r| && forall i :: 0 <= i < |r| ==> s[i] == MovedEntry(r[i], k)
  {
    if r == [] then [] else MovedAll(r[..|r| - 1], k) + [MovedEntry(r[|r| - 1], k)]
  }

  function Removed(fleet: seq<Instance>, k: nat): seq<Instance>
    requires k < |fleet|
  {
    fleet[..k] + fleet[k + 1..]
  }

  /**
   Removing backend `k` deletes it from the ranking and changes nothing else: the same backends in the same
   order, at their new positions in the fleet.
   */
  lemma {:induction false} RemovingDeletesOne(req: Request, fleet: seq<Instance>, k: nat)
    requires k < |fleet|
    ensures Ranking(req, Removed(fleet, k)) == MovedAll(Without(Ranking(req, fleet), k), k)
  {
    hide Ranking, Score, Eligible, Without, Entries;
    var kept := Without(Ranking(req, fleet), k);
    var r := MovedAll(kept, k);
    WithoutRanks(Ranking(req, fleet), k);
    forall i, j | 0 <= i < j < |r|
      ensures Before(r[i], r[j])
    {
      assert Before(kept[i], kept[j]);
      WithoutHas(Ranking(req, fleet), k, kept[i]);
      WithoutHas(Ranking(req, fleet), k, kept[j]);
    }
    forall e
      ensures e in r <==> e in Entries(req, Removed(fleet, k))
    {
      MovedHas(req, fleet, k, e);
    }
    RankingIsUnique(Ranking(req, Removed(fleet, k)), r, Entries(req, Removed(fleet, k)));
  }

  lemma {:induction false} MovedHas(req: Request, fleet: seq<Instance>, k: nat, e: Entry)
    requires k < |fleet|
    ensures e in MovedAll(Without(Ranking(req, fleet), k), k) <==> e in Entries(req, Removed(fleet, k))
  {
    hide Ranking, Score, Eligible, Without, Entries;
    var kept := Without(Ranking(req, fleet), k);
    var r := MovedAll(kept, k);
    var back := Entry(e.score, if e.index >= k then e.index + 1 else e.index);
    EntryOf(req, Removed(fleet, k), e);
    EntryOf(req, fleet, back);
    WithoutHas(Ranking(req, fleet), k, back);
    assert MovedEntry(back, k) == e;
    if back in kept {
      var i :| 0 <= i < |kept| && kept[i] == back;
      assert r[i] == e;
    }
    if e in r {
      var i :| 0 <= i < |r| && r[i] == e;
      WithoutHas(Ranking(req, fleet), k, kept[i]);
      assert kept[i] == back;
    }
  }

  /** A request that backend `k` did not rank first for keeps its primary when `k` is marked down. */
  lemma {:induction false} OthersKeepTheirPrimary(req: Request, other: Request, fleet: seq<Instance>, k: nat)
    requires k < |fleet| && other == req.(healthy := other.healthy) && !other.healthy(fleet[k])
    requires forall i :: 0 <= i < |fleet| && i != k ==> other.healthy(fleet[i]) == req.healthy(fleet[i])
    ensures Selected(req, fleet, 0) != Some(k) ==> Selected(other, fleet, 0) == Selected(req, fleet, 0)
    ensures Selected(req, fleet, 0) == Some(k) ==> Selected(other, fleet, 0) == Selected(req, fleet, 1)
  {
    hide Ranking, Without, Ranked;
    MarkingDownDeletesOne(req, other, fleet, k);
    var r := Ranking(req, fleet);
    DistinctIndices(req, fleet);
    WithoutFirst(r, k);
  }

  lemma {:induction false} DistinctIndices(req: Request, fleet: seq<Instance>)
    ensures var r := Ranking(req, fleet);
            forall i, j :: 0 <= i < j < |r| ==> r[i].index != r[j].index
  {
    hide Ranking, Score, Eligible, Entries;
    var r := Ranking(req, fleet);
    forall i, j | 0 <= i < j < |r|
      ensures r[i].index != r[j].index
    {
      assert Before(r[i], r[j]) && r[i] in r && r[j] in r;
      EntryOf(req, fleet, r[i]);
      EntryOf(req, fleet, r[j]);
    }
  }

  lemma {:induction false} WithoutAbsent(r: seq<Entry>, k: nat)
    requires forall i :: 0 <= i < |r| ==> r[i].index != k
    ensures Without(r, k) == r
  {
    if r != [] { WithoutAbsent(r[..|r| - 1], k); }
  }

  lemma {:induction false} WithoutFirst(r: seq<Entry>, k: nat)
    requires forall i, j :: 0 <= i < j < |r| ==> r[i].index != r[j].index
    ensures r == [] ==> Without(r, k) == []
    ensures r != [] && r[0].index == k ==> Without(r, k) == r[1..]
    ensures r != [] && r[0].index != k ==> Without(r, k) != [] && Without(r, k)[0] == r[0]
  {
    if |r| == 1 {
      assert r[..0] == [];
    } else if |r| > 1 {
      WithoutFirst(r[..|r| - 1], k);
      assert r[..|r| - 1][1..] + [r[|r| - 1]] == r[1..];
    }
  }

  // ----- Capacity -----

  /** The fleet with a new weight for backend `k`. */
  function Reweighed(fleet: seq<Instance>, k: nat, weight: nat): seq<Instance>
    requires k < |fleet|
  {
    fleet[k := fleet[k].(weight := weight)]
  }

  lemma {:induction false} HeavierScoresMore(req: Request, inst: Instance, weight: nat)
    requires inst.weight <= weight
    ensures Score(req, inst) <= Score(req, inst.(weight := weight))
  {
    Grows(req.hash(req.selector + inst.pubkey), inst.weight, weight);
  }

  lemma {:induction false} Grows(h: nat, a: nat, b: nat)
    requires a <= b
    ensures h * a <= h * b
  {
  }

  /**
   Giving backend `k` more weight changes nothing among the others, and moves `k` only up: whatever still ranks
   before it ranked before it already.
   */
  lemma {:induction false} MoreWeightOnlyMovesItUp(req: Request, fleet: seq<Instance>, k: nat, weight: nat)
    requires k < |fleet| && fleet[k].weight <= weight
    requires forall inst, w :: req.healthy(inst) == req.healthy(inst.(weight := w))
    ensures var heavier := Reweighed(fleet, k, weight);
            && Without(Ranking(req, heavier), k) == Without(Ranking(req, fleet), k)
            && (forall e :: e in Ranking(req, heavier) && e.index != k && Before(e, Entry(Score(req, heavier[k]), k)) ==>
                  e in Ranking(req, fleet) && Before(e, Entry(Score(req, fleet[k]), k)))
  {
    hide Ranking, Score, Entries, Without;
    var heavier := Reweighed(fleet, k, weight);
    HeavierScoresMore(req, fleet[k], weight);
    var one, two := Without(Ranking(req, fleet), k), Without(Ranking(req, heavier), k);
    WithoutRanks(Ranking(req, fleet), k);
    WithoutRanks(Ranking(req, heavier), k);
    forall e
      ensures e in one <==> e in two
      ensures e.index != k ==> (e in Ranking(req, heavier) <==> e in Ranking(req, fleet))
    {
      WithoutHas(Ranking(req, fleet), k, e);
      WithoutHas(Ranking(req, heavier), k, e);
      EntryOf(req, fleet, e);
      EntryOf(req, heavier, e);
    }
    var entries := set e | e in one;
    RankingIsUnique(one, two, entries);
  }

  // ----- Who may be selected, and who comes first -----

  /** A backend is selected by some attempt if and only if it has weight left and is healthy. */
  lemma {:induction false} SelectedIff(req: Request, fleet: seq<Instance>, i: nat)
    requires i < |fleet|
    ensures (exists attempt :: Selected(req, fleet, attempt) == Some(i)) <==> fleet[i].weight > 0 && req.healthy(fleet[i])
  {
    hide Selected;
    AttemptsEnumerate(req, fleet);
    if attempt :| Selected(req, fleet, attempt) == Some(i) { SelectedIsEligible(req, fleet, attempt, i); }
  }

  lemma {:induction false} SelectedIsEligible(req: Request, fleet: seq<Instance>, attempt: nat, i: nat)
    requires i < |fleet| && Selected(req, fleet, attempt) == Some(i)
    ensures Eligible(req, fleet[i])
  {
    hide Score, Eligible, IsRanking;
    var r := Ranking(req, fleet);
    assert r[attempt] in r;
    assert r[attempt] in Entries(req, fleet) by { RankedIsEntry(r, Entries(req, fleet), attempt); }
    EntryOf(req, fleet, r[attempt]);
  }

  lemma {:induction false} RankedIsEntry(r: seq<Entry>, entries: set<Entry>, k: nat)
    requires IsRanking(r, entries) && k < |r|
    ensures r[k] in entries
  {
    assert r[k] in r;
  }

  /** Each attempt's backend has the highest weight times hash of those not selected before it, and of equals the latest place. */
  lemma {:induction false} LaterScoresNoHigher(req: Request, fleet: seq<Instance>, a: nat, i: nat, b: nat, j: nat)
    requires a < b && i < |fleet| && j < |fleet| && Selected(req, fleet, a) == Some(i) && Selected(req, fleet, b) == Some(j)
    ensures var earlier := req.hash(req.selector + fleet[i].pubkey) * fleet[i].weight;
            var later := req.hash(req.selector + fleet[j].pubkey) * fleet[j].weight;
            later <= earlier && (later == earlier ==> i > j)
  {
    hide Eligible, IsRanking;
    var r := Ranking(req, fleet);
    RankedIsEntry(r, Entries(req, fleet), a);
    RankedIsEntry(r, Entries(req, fleet), b);
    EntryOf(req, fleet, r[a]);
    EntryOf(req, fleet, r[b]);
    assert Before(r[a], r[b]) by { RankedBefore(r, Entries(req, fleet), a, b); }
  }

  lemma {:induction false} RankedBefore(r: seq<Entry>, entries: set<Entry>, a: nat, b: nat)
    requires IsRanking(r, entries) && a < b < |r|
    ensures Before(r[a], r[b])
  {
  }

  // ----- The selector and the key decide -----

  /** A hash that is high on exactly two inputs. */
  function HighOn(x: Bytes, y: Bytes): Bytes -> nat { (z: Bytes) => if z == x || z == y then 1 else 0 }

  /** Backend `k` has a key of its own among the eligible ones. */
  ghost predicate OwnKey(req: Request, fleet: seq<Instance>, k: nat)
    requires k < |fleet|
  {
    forall i :: 0 <= i < |fleet| && i != k && Eligible(req, fleet[i]) ==> fleet[i].pubkey != fleet[k].pubkey
  }

  lemma {:induction false} OnlyScorerIsPrimary(req: Request, fleet: seq<Instance>, k: nat)
    requires k < |fleet| && Eligible(req, fleet[k]) && Score(req, fleet[k]) > 0
    requires forall i :: 0 <= i < |fleet| && i != k && Eligible(req, fleet[i]) ==> Score(req, fleet[i]) == 0
    ensures Selected(req, fleet, 0) == Some(k)
  {
    hide Score, Eligible, IsRanking;
    var r, e := Ranking(req, fleet), Entry(Score(req, fleet[k]), k);
    assert e in Entries(req, fleet);
    assert e in r && r[0] in Entries(req, fleet) && forall j :: 0 < j < |r| ==> Before(r[0], r[j]) by {
      FirstOfRanking(r, Entries(req, fleet), e);
    }
    EntryOf(req, fleet, r[0]);
  }

  lemma {:induction false} FirstOfRanking(r: seq<Entry>, entries: set<Entry>, e: Entry)
    requires IsRanking(r, entries) && e in entries
    ensures e in r && r != [] && r[0] in entries && forall j :: 0 < j < |r| ==> Before(r[0], r[j])
  {
  }

  /**
   The selector and the key decide: of any two selectors of one length and any two eligible backends with keys of their own,
   there is a hash under which the first selector goes to the one backend and the second to the other.
   */
  lemma {:induction false} SelectorAndKeyDecide(
    healthy: Instance -> bool, fleet: seq<Instance>, k: nat, j: nat, s: Bytes, t: Bytes) returns (hash: Bytes -> nat)
    requires k < |fleet| && j < |fleet| && |s| == |t| && s != t
    requires var req := Request(s, (x: Bytes) => 0, healthy);
             Eligible(req, fleet[k]) && Eligible(req, fleet[j]) && OwnKey(req, fleet, k) && OwnKey(req, fleet, j)
    ensures Selected(Request(s, hash, healthy), fleet, 0) == Some(k)
    ensures Selected(Request(t, hash, healthy), fleet, 0) == Some(j)
  {
    hide Selected, Score;
    hash := HighOn(s + fleet[k].pubkey, t + fleet[j].pubkey);
    ChosenByHash(Request(s, hash, healthy), fleet, k) by { HighOnlyThere(healthy, fleet, k, s, t, fleet[j].pubkey, hash); }
    ChosenByHash(Request(t, hash, healthy), fleet, j) by { HighOnlyThere(healthy, fleet, j, t, s, fleet[k].pubkey, hash); }
  }

  /** The hash is high for backend `k` and for no other eligible one. */
  ghost predicate HighOnly(req: Request, fleet: seq<Instance>, k: nat)
    requires k < |fleet|
  {
    && Eligible(req, fleet[k]) && req.hash(req.selector + fleet[k].pubkey) == 1
    && forall i :: 0 <= i < |fleet| && i != k && Eligible(req, fleet[i]) ==> req.hash(req.selector + fleet[i].pubkey) == 0
  }

  lemma {:induction false} HighOnlyThere(
    healthy: Instance -> bool, fleet: seq<Instance>, k: nat, s: Bytes, t: Bytes, other: Bytes, hash: Bytes -> nat)
    requires k < |fleet| && |s| == |t| && s != t
    requires Eligible(Request(s, hash, healthy), fleet[k]) && OwnKey(Request(s, hash, healthy), fleet, k)
    requires forall z :: hash(z) == if z == s + fleet[k].pubkey || z == t + other then 1 else 0
    ensures HighOnly(Request(s, hash, healthy), fleet, k)
  {
    forall i | 0 <= i < |fleet|
      ensures s + fleet[i].pubkey != t + other
      ensures s + fleet[i].pubkey == s + fleet[k].pubkey ==> fleet[i].pubkey == fleet[k].pubkey
    {
      assert (s + fleet[i].pubkey)[..|s|] == s && (t + other)[..|s|] == t;
      assert (s + fleet[i].pubkey)[|s|..] == fleet[i].pubkey && (s + fleet[k].pubkey)[|s|..] == fleet[k].pubkey;
    }
  }

  lemma {:induction false} ChosenByHash(req: Request, fleet: seq<Instance>, k: nat)
    requires k < |fleet| && HighOnly(req, fleet, k)
    ensures Selected(req, fleet, 0) == Some(k)
  {
    hide Selected;
    OnlyScorerIsPrimary(req, fleet, k);
  }
}
