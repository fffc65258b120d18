/**
 What a diagnosis says of the children's own reports: their axes below seven and their buses, coordinate by
 coordinate.  Nothing here speaks of blocks but through the coordinates that were reported.
 */
module FederationReports {
  import opened Symbolic
  import opened Golay
  import opened Federation

  /** The bus is coordinate 7 of a child; the axes are the coordinates below it. */
  const BUS: nat := 7

  predicate Observed(r: Report, i: nat) {
    if i == BUS then r.busFault else i < BUS && i in r.axes
  }

  lemma {:induction false} BlockIsObserved(r: Report, i: nat)
    ensures i in BlockOf(r) <==> Observed(r, i)
  {
  }

  lemma {:induction false} BlocksAreObserved(reports: seq<Report>)
    requires |reports| == CHILDREN
    ensures forall c, i: nat :: 0 <= c < CHILDREN ==> (i in BlocksOf(reports)[c] <==> Observed(reports[c], i))
  {
    hide BlockOf, Observed;
    forall c, i: nat | 0 <= c < CHILDREN
      ensures i in BlocksOf(reports)[c] <==> Observed(reports[c], i)
    {
      BlockIsObserved(reports[c], i);
    }
  }

  predicate NoneObserved(r: Report) { !r.busFault && forall a: nat :: a < BUS ==> a !in r.axes }

  /** A cell is healthy if and only if no child reports an axis or a bus. */
  lemma {:induction false} HealthyIff(reports: seq<Report>, prov: Provenance)
    requires |reports| == CHILDREN
    ensures Diagnosis(reports, prov) == Some(Healthy) <==> forall c :: 0 <= c < CHILDREN ==> NoneObserved(reports[c])
  {
    hide Run, BlockOf;
    RunIsNotHealthy(BlocksOf(reports), NOTHING, prov);
    forall c | 0 <= c < CHILDREN
      ensures BlocksOf(reports)[c] == {} <==> NoneObserved(reports[c])
    {
      BlockEmptyIff(reports[c]);
    }
  }

  lemma {:induction false} BlockEmptyIff(r: Report)
    ensures BlockOf(r) == {} <==> NoneObserved(r)
  {
    if BlockOf(r) == {} {
      BlockIsObserved(r, BUS);
      forall a: nat | a < BUS
        ensures a !in r.axes
      {
        BlockIsObserved(r, a);
      }
    }
  }

  lemma {:induction false} RunIsNotHealthy(left: Blocks, found: Blocks, prov: Provenance)
    requires AreBlocks(left) && |found| == CHILDREN
    ensures Run(left, found, prov) != Some(Healthy)
    decreases Total(left)
  {
    hide Round, TotalTo, AreBlocks;
    if Round(left, found, prov).Some? {
      var (left', found') := Round(left, found, prov).value;
      RoundShrinks(left, found, prov);
      if left' != left && !Clear(left') { RunIsNotHealthy(left', found', prov); }
    }
  }

  /** `found` names exactly the reported coordinates. */
  ghost predicate NamesThem(reports: seq<Report>, found: Blocks) {
    |found| == |reports| && forall c, i: nat :: 0 <= c < |reports| ==> (i in found[c] <==> Observed(reports[c], i))
  }

  /** `found` and `left` name exactly the reported coordinates between them, and none in both. */
  ghost predicate SharesThem(reports: seq<Report>, found: Blocks, left: Blocks) {
    && |found| == |left| == |reports|
    && (forall c, i: nat :: 0 <= c < |reports| ==> (i in found[c] || i in left[c] <==> Observed(reports[c], i)))
    && (forall c, i: nat :: 0 <= c < |reports| ==> !(i in found[c] && i in left[c]))
  }

  /** A verdict that names exactly what was reported, and leaves only what no line decodes. */
  ghost predicate Exact(reports: seq<Report>, prov: Provenance, verdict: Option<Cell>) {
    && verdict.Some?
    && match verdict.value
       case Healthy => forall c :: 0 <= c < |reports| ==> NoneObserved(reports[c])
       case Localized(found) => NamesThem(reports, found)
       case Partial(found, left) => AreBlocks(left) && SharesThem(reports, found, left) && Undecoded(left, prov) && !Clear(left)
  }

  lemma {:induction false} ExactIffExplained(reports: seq<Report>, prov: Provenance, verdict: Option<Cell>)
    requires |reports| == CHILDREN
    ensures Exact(reports, prov, verdict) <==> Explains(BlocksOf(reports), prov, verdict)
  {
    hide Observed, NoneObserved, BlockOf, Undecoded;
    var all := BlocksOf(reports);
    BlocksAreObserved(reports);
    if verdict.Some? {
      match verdict.value
      case Healthy =>
        forall c | 0 <= c < CHILDREN
          ensures all[c] == {} <==> NoneObserved(reports[c])
        {
          BlockEmptyIff(reports[c]);
        }
      case Localized(found) =>
        if NamesThem(reports, found) { NamedIsAll(reports, found); }
      case Partial(found, left) =>
        if SharesThem(reports, found, left) { SharedIsPartition(reports, found, left); }
        if |left| == CHILDREN && Partition(all, left, found) { PartitionIsShared(reports, found, left); }
    }
  }

  lemma {:induction false} NamedIsAll(reports: seq<Report>, found: Blocks)
    requires |reports| == CHILDREN && NamesThem(reports, found)
    ensures found == BlocksOf(reports)
  {
    hide Observed, BlockOf;
    BlocksAreObserved(reports);
    forall c | 0 <= c < CHILDREN
      ensures found[c] == BlocksOf(reports)[c]
    {
    }
  }

  lemma {:induction false} SharedIsPartition(reports: seq<Report>, found: Blocks, left: Blocks)
    requires |reports| == CHILDREN && SharesThem(reports, found, left)
    ensures Partition(BlocksOf(reports), left, found)
  {
    hide Observed, BlockOf;
    BlocksAreObserved(reports);
    forall c | 0 <= c < CHILDREN
      ensures left[c] !! found[c] && left[c] + found[c] == BlocksOf(reports)[c]
    {
    }
  }

  lemma {:induction false} PartitionIsShared(reports: seq<Report>, found: Blocks, left: Blocks)
    requires |reports| == CHILDREN && Partition(BlocksOf(reports), left, found)
    ensures SharesThem(reports, found, left)
  {
    hide Observed, BlockOf;
    BlocksAreObserved(reports);
    forall c, i: nat | 0 <= c < CHILDREN
      ensures i in found[c] || i in left[c] <==> Observed(reports[c], i)
    {
      assert i in BlocksOf(reports)[c] <==> i in left[c] + found[c];
    }
  }

  /**
   For every input: the verdict names exactly the reported axes and buses if and only if no codeword ever surrounds
   the faults on a line the run decodes and one within its reports is always near them.
   */
  lemma {:induction false} VerdictIsExactIff(reports: seq<Report>, prov: Provenance)
    requires |reports| == CHILDREN
    ensures var left := BlocksOf(reports);
            Exact(reports, prov, Diagnosis(reports, prov)) <==>
            (forall c :: 0 <= c < CHILDREN ==> NoneObserved(reports[c])) ||
            (NeverSurrounded(left, NOTHING, prov) && AlwaysReached(left, left, NOTHING, prov))
  {
    hide Diagnosis, Exact, Explains, NoneObserved, NeverSurrounded, AlwaysReached, BlockOf;
    EndsExactlyIff(reports, prov);
    ExactIffExplained(reports, prov, Diagnosis(reports, prov));
    forall c | 0 <= c < CHILDREN
      ensures BlocksOf(reports)[c] == {} <==> NoneObserved(reports[c])
    {
      BlockEmptyIff(reports[c]);
    }
  }

  /** Self-reports: every diagnosis that ends is exact. */
  lemma {:induction false} SelfReportsAreExact(reports: seq<Report>)
    requires |reports| == CHILDREN && Diagnosis(reports, SelfReported).Some?
    ensures Exact(reports, SelfReported, Diagnosis(reports, SelfReported))
  {
    hide Diagnosis, Exact, Explains;
    SelfReportsBlameNobody(reports);
    ExactIffExplained(reports, SelfReported, Diagnosis(reports, SelfReported));
  }

  /** Every reported axis and bus is localized or left unexplained, whatever the diagnosis. */
  lemma {:induction false} EveryReportIsAccountedFor(reports: seq<Report>, prov: Provenance, c: nat, i: nat)
    requires |reports| == CHILDREN && c < CHILDREN && Observed(reports[c], i)
    ensures match Diagnosis(reports, prov)
            case Some(Healthy) => false
            case Some(Localized(found)) => |found| == CHILDREN && i in found[c]
            case Some(Partial(found, left)) => |found| == |left| == CHILDREN && (i in found[c] || i in left[c])
            case None => true
  {
    hide Diagnosis, Observed, BlockOf;
    NoFaultIsLost(reports, prov);
    BlocksAreObserved(reports);
  }

  // ----- The envelope of the documentation, on reports -----

  /** The reported (child, coordinate) pairs of the first `n` children. */
  ghost function Faults(reports: seq<Report>, n: nat): set<(nat, nat)>
    requires n <= |reports|
  {
    set c, i | 0 <= c < n && 0 <= i <= BUS && Observed(reports[c], i) :: (c, i)
  }

  /** The pairs of child `c` with the coordinates of `b`. */
  ghost function Pairs(c: nat, b: Mask): set<(nat, nat)> { set i | i in b :: (c, i) }

  lemma {:induction false} FaultsAreCounted(reports: seq<Report>, n: nat)
    requires |reports| == CHILDREN && n <= CHILDREN
    ensures |Faults(reports, n)| == TotalTo(BlocksOf(reports), n)
    decreases n
  {
    hide Observed, BlockOf, Faults, Pairs;
    if n == 0 {
      NoFaults(reports);
    } else {
      FaultsAreCounted(reports, n - 1);
      FaultsSplit(reports, n);
      PairsCount(n - 1, BlockOf(reports[n - 1]));
    }
  }

  lemma {:induction false} NoFaults(reports: seq<Report>)
    ensures Faults(reports, 0) == {}
  {
  }

  lemma {:induction false} FaultsSplit(reports: seq<Report>, n: nat)
    requires 0 < n <= |reports|
    ensures Faults(reports, n) == Faults(reports, n - 1) + Pairs(n - 1, BlockOf(reports[n - 1]))
    ensures Faults(reports, n - 1) !! Pairs(n - 1, BlockOf(reports[n - 1]))
  {
    hide Observed, BlockOf;
    BlockIs(reports[n - 1]);
  }

  lemma {:induction false} BlockIs(r: Report)
    ensures BlockOf(r) == set i | 0 <= i <= BUS && Observed(r, i)
  {
  }

  lemma {:induction false} PairsCount(c: nat, b: Mask)
    ensures |Pairs(c, b)| == |b|
    decreases b
  {
    if b == {} {
      assert Pairs(c, b) == {};
    } else {
      var x :| x in b;
      PairsCount(c, b - {x});
      assert Pairs(c, b) == Pairs(c, b - {x}) + {(c, x)};
      assert (c, x) !in Pairs(c, b - {x});
    }
  }

  /** Healthy, or localized to exactly what was reported. */
  ghost predicate FullyNamed(reports: seq<Report>, verdict: Option<Cell>) {
    verdict.Some? && !verdict.value.Partial? && Exact(reports, Measured, verdict)
  }

  lemma {:induction false} FullVerdictNames(reports: seq<Report>)
    requires |reports| == CHILDREN
    ensures FullyNamed(reports, Some(FullVerdict(reports)))
  {
    hide Exact;
    ExactIffExplained(reports, Measured, Some(FullVerdict(reports)));
  }

  /** Up to three measured faults anywhere, buses included, are localized to exactly the reported coordinates. */
  lemma {:induction false} ThreeFaultsAreNamed(reports: seq<Report>)
    requires |reports| == CHILDREN && |Faults(reports, CHILDREN)| <= 3
    ensures FullyNamed(reports, Diagnosis(reports, Measured))
  {
    hide Diagnosis, FullyNamed, FullVerdict, Faults, TotalTo;
    FaultsAreCounted(reports, CHILDREN);
    ThreeFaultsAreLocalized(reports);
    FullVerdictNames(reports);
  }

  /** No child reports two coordinates. */
  ghost predicate OneEach(reports: seq<Report>) {
    forall c, i: nat, j: nat :: 0 <= c < |reports| && Observed(reports[c], i) && Observed(reports[c], j) ==> i == j
  }

  /** Up to one fault in each child, measured or self-reported. */
  lemma {:induction false} OneFaultPerChildIsNamed(reports: seq<Report>, prov: Provenance)
    requires |reports| == CHILDREN && OneEach(reports)
    ensures FullyNamed(reports, Diagnosis(reports, prov))
  {
    hide Diagnosis, FullyNamed, FullVerdict, Observed, BlockOf;
    BlocksAreObserved(reports);
    forall c | 0 <= c < CHILDREN
      ensures |BlockOf(reports[c])| <= 1
    {
      AtMostOne(BlocksOf(reports)[c]);
    }
    OneFaultPerChildIsLocalized(reports, prov);
    FullVerdictNames(reports);
  }

  lemma {:induction false} AtMostOne(b: Mask)
    requires forall i, j :: i in b && j in b ==> i == j
    ensures |b| <= 1
  {
    if i :| i in b { assert b == {i}; }
  }
}
