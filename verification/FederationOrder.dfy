/**
 Whether another order of the lines could have localized more.  An order solves a cell if each of its lines holds at most
 three faults when its turn comes and nothing remains at the end.
 */
module FederationOrder {
  import opened Symbolic
  import opened Golay
  import opened Federation

  /** A line may be resolved: it is trusted and holds at most three faults. */
  predicate Resolvable(left: Blocks, line: seq<nat>, prov: Provenance)
    requires AreBlocks(left) && IsLine(line)
  {
    Trusted(left, line, prov) && LineWeight(left, line) <= 3
  }

  /** What remains when the faults of a line are resolved. */
  function Resolved(left: Blocks, line: seq<nat>): (r: Blocks)
    requires AreBlocks(left) && IsLine(line)
    ensures AreBlocks(r)
  {
    left[line[0] := {}][line[1] := {}][line[2] := {}]
  }

  /** Resolving the lines of `order` in turn clears the cell. */
  ghost predicate Solves(left: Blocks, order: seq<nat>, prov: Provenance)
    requires AreBlocks(left)
    decreases |order|
  {
    if order == [] then Clear(left)
    else
      && order[0] < CHILDREN && Resolvable(left, Line(order[0]), prov)
      && Solves(Resolved(left, Line(order[0])), order[1..], prov)
  }

  ghost predicate Solvable(left: Blocks, prov: Provenance)
    requires AreBlocks(left)
  {
    exists order :: Solves(left, order, prov)
  }

  /** A smaller part of a resolvable line that no line of it is decoded from is blank. */
  lemma {:induction false} UndecodedIsBlank(rest: Blocks, left: Blocks, line: seq<nat>, prov: Provenance)
    requires AreBlocks(rest) && AreBlocks(left) && IsLine(line) && Resolvable(left, line, prov)
    requires forall c :: 0 <= c < CHILDREN ==> rest[c] <= left[c]
    requires Decoded(rest, line, prov).None?
    ensures Blank(rest, line)
  {
    hide Leader, WordOn, IsBlock, Decoded;
    SubsetSize(rest[line[0]], left[line[0]]);
    SubsetSize(rest[line[1]], left[line[1]]);
    SubsetSize(rest[line[2]], left[line[2]]);
    LightLines(rest, line, prov);
  }

  /** What no line decodes is nothing, within a cell that some order solves. */
  lemma {:induction false} NothingIsLeftOver(rest: Blocks, left: Blocks, order: seq<nat>, prov: Provenance)
    requires AreBlocks(rest) && AreBlocks(left) && Solves(left, order, prov) && Undecoded(rest, prov)
    requires forall c :: 0 <= c < CHILDREN ==> rest[c] <= left[c]
    ensures Clear(rest)
    decreases |order|
  {
    hide Decoded, IsBlock, LineWeight, Trusted, Line;
    if order != [] {
      var line := Line(order[0]);
      UndecodedIsBlank(rest, left, line, prov);
      assert forall c :: 0 <= c < CHILDREN ==> Resolved(left, line)[c] == if c in line then {} else left[c];
      NothingIsLeftOver(rest, Resolved(left, line), order[1..], prov);
    }
  }

  /**
   The greedy rule is optimal wherever its diagnosis is exact: if any order of the lines solves the cell, everything is
   localized.
   */
  lemma {:induction false} ExactIsOptimal(reports: seq<Report>, prov: Provenance)
    requires |reports| == CHILDREN && Explains(BlocksOf(reports), prov, Diagnosis(reports, prov))
    requires Solvable(BlocksOf(reports), prov)
    ensures Diagnosis(reports, prov) == Some(FullVerdict(reports))
  {
    hide Run, Undecoded, Solves;
    var all := BlocksOf(reports);
    var order :| Solves(all, order, prov);
    match Diagnosis(reports, prov).value
    case Healthy =>
    case Localized(found) =>
    case Partial(found, left) =>
      NothingIsLeftOver(left, all, order, prov);
      assert false;
  }

  lemma {:induction false} SolvesFirst(left: Blocks, l: nat, rest: seq<nat>, prov: Provenance)
    requires AreBlocks(left) && l < CHILDREN && Resolvable(left, Line(l), prov) && Solves(Resolved(left, Line(l)), rest, prov)
    ensures Solves(left, [l] + rest, prov)
  {
    hide Resolvable, Line;
    assert ([l] + rest)[1..] == rest;
  }

  /** A run that decodes only lines of at most three faults and localizes everything is itself such an order. */
  lemma {:induction false} LightRunSolves(left: Blocks, found: Blocks, prov: Provenance) returns (order: seq<nat>)
    requires AreBlocks(left) && |found| == CHILDREN && DecodesLightly(left, found, prov) && !Clear(left)
    requires Run(left, found, prov).Some? && Run(left, found, prov).value.Localized?
    ensures Solves(left, order, prov)
    decreases Total(left)
  {
    hide Round, TotalTo, LineWeight, Line, AreBlocks, Resolvable, Resolved, Solves, FirstLine, Clear;
    RoundDecodes(left, found, prov);
    var (left', found') := Round(left, found, prov).value;
    RoundShrinks(left, found, prov);
    RoundResolves(left, found, prov);
    var rest: seq<nat> := [];
    if Clear(left') { ClearIsSolved(left', prov); } else { rest := LightRunSolves(left', found', prov); }
    SolvesFirst(left, DecodedLine(left, prov), rest, prov);
    order := [DecodedLine(left, prov)] + rest;
  }

  lemma {:induction false} ClearIsSolved(left: Blocks, prov: Provenance)
    requires AreBlocks(left) && Clear(left)
    ensures Solves(left, [], prov)
  {
  }

  lemma {:induction false} RoundResolves(left: Blocks, found: Blocks, prov: Provenance)
    requires AreBlocks(left) && |found| == CHILDREN && Round(left, found, prov).Some?
    requires LineWeight(left, Line(DecodedLine(left, prov))) <= 3
    ensures var line := Line(DecodedLine(left, prov));
            Resolvable(left, line, prov) && Round(left, found, prov).value.0 == Resolved(left, line)
  {
    hide Leader, FirstLine, WordOn, IsBlock, Line, LineWeight, Removed, Added, Blank;
    var line := Line(DecodedLine(left, prov));
    var w := WordOn(left, line);
    WordOnLine(left, line);
    DecodingByWeight(w);
    assert Decoded(left, line, prov) == Some(w);
    RemovedWhole(left, line, w);
  }

  lemma {:induction false} RemovedWhole(left: Blocks, line: seq<nat>, w: Mask)
    requires AreBlocks(left) && IsLine(line)
    requires Block(w, 0) == left[line[0]] && Block(w, 1) == left[line[1]] && Block(w, 2) == left[line[2]]
    ensures Removed(left, line, w) == Resolved(left, line)
  {
    hide Block, IsBlock;
    var r := Removed(left, line, w);
    forall c | 0 <= c < CHILDREN
      ensures r[c] == Resolved(left, line)[c]
    {
    }
  }

  /**
   With no line above six faults, and so for all self-reports: everything is localized if and only if some order solves
   the cell and the lines the greedy rule decodes hold at most three.
   */
  lemma {:induction false} FullyLocalizedIff(reports: seq<Report>, prov: Provenance)
    requires |reports| == CHILDREN && AtMostSix(BlocksOf(reports), prov)
    ensures var left := BlocksOf(reports);
            Diagnosis(reports, prov) == Some(FullVerdict(reports)) <==>
            Clear(left) || (Solvable(left, prov) && DecodesLightly(left, NOTHING, prov))
  {
    hide Run, AtMostSix, DecodesLightly, Undecoded, Solves;
    var left := BlocksOf(reports);
    EndsIffLight(reports, prov);
    if !Clear(left) && DecodesLightly(left, NOTHING, prov) {
      if Solvable(left, prov) { ExactIsOptimal(reports, prov); }
      if Diagnosis(reports, prov) == Some(Localized(left)) {
        var order := LightRunSolves(left, NOTHING, prov);
      }
    }
  }

  /** Three faults in one child and one in each of its neighbours on the first line. */
  function ThreeOneOne(): seq<Report> {
    var none := Report({}, false);
    [none, none, none, none, Report({0, 1, 2}, false), Report({0}, false), Report({0}, false)]
  }

  /** There the greedy rule is not optimal: resolving the second line and then the first solves the cell, but it never ends. */
  lemma {:induction false} TheGreedyRuleIsNotOptimal()
    ensures Solvable(BlocksOf(ThreeOneOne()), Measured) && Diagnosis(ThreeOneOne(), Measured) == None
  {
    hide Run, Solves, BlocksOf, Line, Decoded, LineWeight, Resolvable, Clear, Resolved, IsBlock;
    var left := BlocksOf(ThreeOneOne());
    TheBlocks();
    FirstTwoLines();
    TheWeights();
    FiveFaultsNeverEnd(left, NOTHING, Measured, 0);
    var second := Resolved(left, Line(1));
    ClearIsSolved(Resolved(second, Line(0)), Measured);
    SolvesFirst(second, 0, [], Measured);
    SolvesFirst(left, 1, [0] + [], Measured);
  }

  lemma {:induction false} FirstTwoLines()
    ensures Line(0) == [4, 5, 6] && Line(1) == [1, 3, 4]
  {
  }

  const LEFT: Blocks := [{}, {}, {}, {}, {0, 1, 2}, {0}, {0}]

  lemma {:induction false} TheWeights()
    ensures AreBlocks(LEFT) && IsLine([4, 5, 6]) && IsLine([1, 3, 4]) && !Clear(LEFT)
    ensures Trusted(LEFT, [4, 5, 6], Measured) && LineWeight(LEFT, [4, 5, 6]) == 5 && Resolvable(LEFT, [1, 3, 4], Measured)
    ensures var second := Resolved(LEFT, [1, 3, 4]); Resolvable(second, [4, 5, 6], Measured) && Clear(Resolved(second, [4, 5, 6]))
  {
    assert LEFT[4] != {};
    assert Resolved(LEFT, [1, 3, 4]) == [{}, {}, {}, {}, {}, {0}, {0}];
    assert Resolved([{}, {}, {}, {}, {}, {0}, {0}], [4, 5, 6]) == [{}, {}, {}, {}, {}, {}, {}];
  }

  lemma {:induction false} TheBlocks()
    ensures BlocksOf(ThreeOneOne()) == LEFT
  {
    var reports := ThreeOneOne();
    assert |BlocksOf(reports)| == 7;
    assert BlockOf(Report({0, 1, 2}, false)) == {0, 1, 2};
    assert BlockOf(Report({0}, false)) == {0};
    assert BlockOf(Report({}, false)) == {};
  }
}
