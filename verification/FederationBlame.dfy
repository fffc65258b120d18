/** Seven faults on one line of which the diagnosis names coordinates that nobody reported. */
module FederationBlame {
  import opened Symbolic
  import opened Golay
  import opened Federation

  /** Only children 3 and 4 hold anything. */
  function Pair(b3: Mask, b4: Mask): Blocks { [{}, {}, {}, b3, b4, {}, {}] }

  const FIRST: seq<nat> := [4, 5, 6]
  const SECOND: seq<nat> := [1, 3, 4]

  lemma {:induction false} TheTwoLines()
    ensures Line(0) == FIRST && Line(1) == SECOND && IsLine(FIRST) && IsLine(SECOND)
  {
  }

  lemma {:induction false} PairIsBlocks(b3: Mask, b4: Mask)
    requires IsBlock(b3) && IsBlock(b4)
    ensures AreBlocks(Pair(b3, b4))
  {
    NothingIsABlock();
  }

  lemma {:induction false} NothingIsABlock()
    ensures IsBlock({})
  {
  }

  lemma {:induction false} PairWeights(b3: Mask, b4: Mask)
    requires AreBlocks(Pair(b3, b4)) && IsLine(FIRST) && IsLine(SECOND)
    ensures var left := Pair(b3, b4);
            && LineWeight(left, FIRST) == |b4| && LineWeight(left, SECOND) == |b3| + |b4|
            && WordOn(left, SECOND) == FromBlocks({}, b3, b4)
            && (Blank(left, FIRST) <==> b4 == {}) && (Blank(left, SECOND) <==> b3 == {} && b4 == {})
  {
    hide FromBlocks, IsBlock;
  }

  /** Line 1 is decoded when line 0 is blank or holds four. */
  lemma {:induction false} SecondLineDecodes(b3: Mask, b4: Mask)
    requires IsBlock(b3) && IsBlock(b4) && (b4 == {} || |b4| == 4) && b3 != {} && Leader(FromBlocks({}, b3, b4)).Some?
    ensures var left := Pair(b3, b4);
            && AreBlocks(left) && FirstLine(left, Measured, 0) == Some(1)
            && Decoded(left, Line(1), Measured) == Leader(FromBlocks({}, b3, b4))
  {
    hide FromBlocks, Leader, FirstLine, WordOn, AreBlocks, Line, Pair, LineWeight, Blank, IsBlock, IsLine, Decoded;
    var left := Pair(b3, b4);
    TheTwoLines();
    PairIsBlocks(b3, b4);
    PairWeights(b3, b4);
    FirstLineIsSilent(b3, b4);
    MeasuredDecodes(left, Line(1));
    FirstLineStep(left, Measured, 0);
    FirstLineStep(left, Measured, 1);
  }

  lemma {:induction false} FirstLineIsSilent(b3: Mask, b4: Mask)
    requires AreBlocks(Pair(b3, b4)) && (b4 == {} || |b4| == 4)
    ensures Decoded(Pair(b3, b4), Line(0), Measured).None?
  {
    hide FromBlocks, Leader, WordOn, AreBlocks, Line, Pair, LineWeight, Blank, IsLine, Decoded;
    TheTwoLines();
    PairWeights(b3, b4);
    assert |b4| <= 4;
    LightLines(Pair(b3, b4), Line(0), Measured);
  }

  lemma {:induction false} MeasuredDecodes(left: Blocks, line: seq<nat>)
    requires AreBlocks(left) && IsLine(line) && !Blank(left, line)
    ensures Decoded(left, line, Measured) == Leader(WordOn(left, line))
  {
    hide Leader, WordOn, Blank, IsBlock, IsLine;
  }

  /** Line 0 is decoded, to its own faults, when it holds one to three. */
  lemma {:induction false} FirstLineDecodes(b3: Mask, b4: Mask)
    requires IsBlock(b3) && IsBlock(b4) && 1 <= |b4| <= 3
    ensures var left := Pair(b3, b4);
            && AreBlocks(left) && FirstLine(left, Measured, 0) == Some(0)
            && Decoded(left, Line(0), Measured) == Some(WordOn(left, Line(0)))
  {
    hide FromBlocks, Leader, FirstLine, WordOn, AreBlocks, Line, Pair, LineWeight, Blank, IsBlock, IsLine, Decoded;
    var left := Pair(b3, b4);
    TheTwoLines();
    PairIsBlocks(b3, b4);
    PairWeights(b3, b4);
    assert b4 != {};
    LightLines(left, Line(0), Measured);
    FirstLineStep(left, Measured, 0);
  }

  lemma {:induction false} OnSecond(b3: Mask, b4: Mask, f3: Mask, f4: Mask, e: Mask)
    requires IsLine(SECOND) && Block(e, 0) == {}
    ensures Removed(Pair(b3, b4), SECOND, e) == Pair(b3 - Block(e, 1), b4 - Block(e, 2))
    ensures Added(Pair(f3, f4), SECOND, e) == Pair(f3 + Block(e, 1), f4 + Block(e, 2))
  {
    hide Block;
    var none: Mask := {};
    assert none - none == none && none + none == none;
    assert Removed(Pair(b3, b4), SECOND, e) == Pair(b3 - Block(e, 1), b4 - Block(e, 2));
    assert Added(Pair(f3, f4), SECOND, e) == Pair(f3 + Block(e, 1), f4 + Block(e, 2));
  }

  lemma {:induction false} OnFirst(b3: Mask, b4: Mask, f3: Mask, f4: Mask, e: Mask)
    requires IsLine(FIRST) && Block(e, 1) == {} && Block(e, 2) == {}
    ensures Removed(Pair(b3, b4), FIRST, e) == Pair(b3, b4 - Block(e, 0))
    ensures Added(Pair(f3, f4), FIRST, e) == Pair(f3, f4 + Block(e, 0))
  {
    hide Block;
    var none: Mask := {};
    assert none - none == none && none + none == none;
    assert Removed(Pair(b3, b4), FIRST, e) == Pair(b3, b4 - Block(e, 0));
    assert Added(Pair(f3, f4), FIRST, e) == Pair(f3, f4 + Block(e, 0));
  }

  /** A round on line 1. */
  lemma {:induction false} SecondLineRound(b3: Mask, b4: Mask, g3: Mask, g4: Mask, f3: Mask, f4: Mask)
    requires IsBlock(b3) && IsBlock(b4) && IsBlock(g3) && IsBlock(g4) && (b4 == {} || |b4| == 4) && b3 != {}
    requires Leader(FromBlocks({}, b3, b4)) == Some(FromBlocks({}, g3, g4))
    ensures AreBlocks(Pair(b3, b4))
    ensures Round(Pair(b3, b4), Pair(f3, f4), Measured) == Some((Pair(b3 - g3, b4 - g4), Pair(f3 + g3, f4 + g4)))
  {
    hide FromBlocks, Block, Leader, FirstLine, WordOn, Decoded, Removed, Added, IsBlock, IsLine, AreBlocks, Line, Pair;
    NothingIsABlock();
    TheTwoLines();
    FromBlocksParts({}, g3, g4);
    SecondLineDecodes(b3, b4);
    OnSecond(b3, b4, f3, f4, FromBlocks({}, g3, g4));
    PairSize(f3, f4);
  }

  lemma {:induction false} PairSize(b3: Mask, b4: Mask)
    ensures |Pair(b3, b4)| == CHILDREN
  {
  }

  /** A round on line 0. */
  lemma {:induction false} FirstLineRound(b3: Mask, b4: Mask, f3: Mask, f4: Mask)
    requires IsBlock(b3) && IsBlock(b4) && 1 <= |b4| <= 3
    ensures AreBlocks(Pair(b3, b4))
    ensures Round(Pair(b3, b4), Pair(f3, f4), Measured) == Some((Pair(b3, b4 - b4), Pair(f3, f4 + b4)))
  {
    hide FromBlocks, Block, Leader, FirstLine, WordOn, Decoded, Removed, Added, IsBlock, IsLine, AreBlocks, Line;
    TheTwoLines();
    FirstLineDecodes(b3, b4);
    var left := Pair(b3, b4);
    WordOnLine(left, Line(0));
    OnFirst(b3, b4, f3, f4, WordOn(left, Line(0)));
  }

  // ----- The input -----

  const B3: Mask := {0, 1, 2}
  const B4: Mask := {0, 1, 2, 3}
  const G3: Mask := {5}
  const G4: Mask := {3, 5}
  const EVEN: Mask := {0, 1, 2, 5}

  lemma {:induction false} AreAllBlocks()
    ensures IsBlock(B3) && IsBlock(B4) && IsBlock(G3) && IsBlock(G4) && IsBlock(EVEN)
    ensures |B3| == 3 && |B4| == 4 && |G3| == 1 && |G4| == 2
  {
  }

  lemma {:induction false} Sums()
    ensures Xor(B3, G3) == EVEN && Xor(B4, G4) == EVEN
    ensures B4 - G4 == B3 && B3 - G3 == B3
  {
  }

  lemma {:induction false} EvenIsInA()
    ensures InA(EVEN) && InA({}) && InB({})
  {
    hide InA, InB;
    InAByCoordinates(EVEN);
    InAByCoordinates({});
    InBByCoordinates({});
  }

  lemma {:induction false} TwoEqualBlocks(f: Mask)
    requires IsBlock(f) && InA(f) && InA({}) && InB({})
    ensures IsCodeword(FromBlocks({}, f, f))
  {
    hide FromBlocks, Block, InA, InB, IsCodeword, Xor, IsBlock;
    var w := FromBlocks({}, f, f);
    NothingIsABlock();
    FromBlocksParts({}, f, f);
    XorNone(f);
    XorNone({});
    XorBack(f, f);
    XorBack(f, {});
    assert Glue(w) == {};
    CodewordFromBlocks(w);
  }

  lemma {:induction false} LeaderOfPair(b3: Mask, b4: Mask, g3: Mask, g4: Mask, f: Mask)
    requires IsBlock(b3) && IsBlock(b4) && IsBlock(g3) && IsBlock(g4) && IsBlock(f) && |g3| + |g4| <= 3
    requires Xor(b3, g3) == f && Xor(b4, g4) == f && InA(f) && InA({}) && InB({})
    ensures Leader(FromBlocks({}, b3, b4)) == Some(FromBlocks({}, g3, g4))
  {
    hide FromBlocks, Block, InA, InB, IsCodeword, Xor, Leader, SyndromeOf, IsBlock;
    NothingIsABlock();
    var w, e := FromBlocks({}, b3, b4), FromBlocks({}, g3, g4);
    XorOfBlocks({}, b3, b4, {}, g3, g4);
    XorNone({});
    TwoEqualBlocks(f);
    SameSyndrome(w, e);
    FromBlocksParts({}, g3, g4);
    LeaderIs(w, e);
  }

  lemma {:induction false} LightPairLeads(b3: Mask)
    requires IsBlock(b3) && |b3| <= 3
    ensures Leader(FromBlocks({}, b3, {})) == Some(FromBlocks({}, b3, {}))
  {
    hide FromBlocks, Leader, Block;
    NothingIsABlock();
    FromBlocksParts({}, b3, {});
    DecodingByWeight(FromBlocks({}, b3, {}));
  }

  /** Child 3 reports axes 0, 1 and 2, and child 4 those and axis 3. */
  function SevenFaults(): seq<Report> {
    var healthy := Report({}, false);
    [healthy, healthy, healthy, Report(B3, false), Report(B4, false), healthy, healthy]
  }

  lemma {:induction false} BlockOfAxes(axes: Mask)
    requires axes <= {0, 1, 2, 3}
    ensures BlockOf(Report(axes, false)) == axes
  {
  }

  lemma {:induction false} SevenFaultsBlocks()
    ensures BlocksOf(SevenFaults()) == Pair(B3, B4)
  {
    hide BlockOf;
    BlockOfAxes({});
    BlockOfAxes(B3);
    BlockOfAxes(B4);
    var blocks := BlocksOf(SevenFaults());
    assert blocks[0] == {} && blocks[1] == {} && blocks[2] == {} && blocks[5] == {} && blocks[6] == {};
    assert blocks[3] == B3 && blocks[4] == B4;
  }

  lemma {:induction false} RunStep(left: Blocks, found: Blocks, left': Blocks, found': Blocks)
    requires AreBlocks(left) && |found| == CHILDREN && left' != left && Round(left, found, Measured) == Some((left', found'))
    ensures AreBlocks(left') && |found'| == CHILDREN
    ensures Run(left, found, Measured) == if Clear(left') then Some(Localized(found')) else Run(left', found', Measured)
  {
    hide Round, TotalTo, IsBlock;
    RoundShrinks(left, found, Measured);
  }

  lemma {:induction false} WithNothing(s: Mask)
    ensures {} + s == s && s + {} == s && s - s == {}
  {
  }

  lemma {:induction false} PairsDiffer(b3: Mask, b4: Mask, c3: Mask, c4: Mask)
    ensures Pair(b3, b4) == Pair(c3, c4) <==> b3 == c3 && b4 == c4
    ensures Clear(Pair(b3, b4)) <==> b3 == {} && b4 == {}
    ensures |Pair(b3, b4)| == CHILDREN && Pair({}, {}) == NOTHING
  {
    assert Pair(b3, b4)[3] == b3 && Pair(b3, b4)[4] == b4 && Pair(c3, c4)[3] == c3 && Pair(c3, c4)[4] == c4;
  }

  /** Three rounds: the heavy line, then line 0, then line 1 again. */
  lemma {:induction false} ThreeRounds(b3: Mask, b4: Mask, g3: Mask, g4: Mask)
    requires IsBlock(b3) && IsBlock(b4) && IsBlock(g3) && IsBlock(g4) && |b3| == 3 && |b4| == 4
    requires Leader(FromBlocks({}, b3, b4)) == Some(FromBlocks({}, g3, g4)) && b3 - g3 == b3 && b4 - g4 == b3
    ensures AreBlocks(Pair(b3, b4)) && |NOTHING| == CHILDREN
    ensures Run(Pair(b3, b4), NOTHING, Measured) == Some(Localized(Pair(g3 + b3, g4 + b3)))
  {
    hide Round, Run, IsBlock, FromBlocks, Leader, AreBlocks, Pair, Clear;
    NothingIsABlock();
    var none: Mask := {};
    WithNothing(g3);
    WithNothing(g4);
    WithNothing(b3);
    WithNothing(none);
    WithNothing(g4 + b3);
    assert b3 != none && b4 != b3;
    PairsDiffer(b3, b4, b3, b3);
    PairsDiffer(b3, b3, b3, none);
    PairsDiffer(b3, none, none, none);
    PairsDiffer(none, none, g3, g4);
    PairsDiffer(g3, g4, g3, g4 + b3);
    PairsDiffer(g3, g4 + b3, none, none);
    SecondLineRound(b3, b4, g3, g4, none, none);
    RunStep(Pair(b3, b4), Pair(none, none), Pair(b3, b3), Pair(g3, g4));
    FirstLineRound(b3, b3, g3, g4);
    RunStep(Pair(b3, b3), Pair(g3, g4), Pair(b3, none), Pair(g3, g4 + b3));
    LightPairLeads(b3);
    SecondLineRound(b3, none, b3, none, g3, g4 + b3);
    RunStep(Pair(b3, none), Pair(g3, g4 + b3), Pair(none, none), Pair(g3 + b3, g4 + b3));
  }

  /** What the diagnosis names. */
  const BLAMED: Blocks := Pair(G3 + B3, G4 + B3)

  /** Seven faults on one line end as `Localized`, with axis 5 of two children named that nobody reported. */
  lemma {:induction false} SevenFaultsBlameTheHealthy()
    ensures Diagnosis(SevenFaults(), Measured) == Some(Localized(BLAMED))
    ensures 5 in BLAMED[3] && 5 in BLAMED[4]
    ensures 5 !in BlocksOf(SevenFaults())[3] && 5 !in BlocksOf(SevenFaults())[4]
  {
    hide Run, BlocksOf, SevenFaults;
    SevenFaultsBlocks();
    SevenFaultsRun();
    assert 0 in Pair(B3, B4)[3];
  }

  lemma {:induction false} SevenFaultsRun()
    ensures AreBlocks(Pair(B3, B4)) && Run(Pair(B3, B4), NOTHING, Measured) == Some(Localized(BLAMED))
  {
    hide Run, FromBlocks, Leader, InA, InB, Xor, Pair, IsBlock;
    AreAllBlocks();
    Sums();
    EvenIsInA();
    LeaderOfPair(B3, B4, G3, G4, EVEN);
    ThreeRounds(B3, B4, G3, G4);
  }
}
