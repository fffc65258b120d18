/**
 Diagnosis of a parent cell: seven children, one federation for each Fano line, and peeling over the lines
 that the federation grammar decodes.  A child's block holds its faulty axes in bits 0..6 and its bus in bit 7.
 */
module Federation {
  import opened Symbolic
  import opened Golay
  import GolayCovering
  import Fano

  const CHILDREN: nat := 7
  const MAX_BLOCK_WEIGHT: nat := 2

  datatype Report = Report(axes: Mask, busFault: bool)
  datatype Provenance = Measured | SelfReported

  /** One block for each child. */
  type Blocks = seq<Mask>

  datatype Cell = Healthy | Localized(found: Blocks) | Partial(localized: Blocks, unexplained: Blocks)

  const LINE_POINTS: seq<seq<nat>> := [[4, 5, 6], [1, 3, 4], [2, 3, 6], [1, 2, 5], [0, 1, 6], [0, 3, 5], [0, 2, 4]]

  /** The federations are the plane's lines. */
  lemma {:induction false} FederationsAreLines(l: nat)
    requires l < CHILDREN
    ensures |LINE_POINTS[l]| == 3 && Fano.LineMask(l) == {LINE_POINTS[l][0], LINE_POINTS[l][1], LINE_POINTS[l][2]}
  {
    Fano.TheLines();
  }

  predicate IsLine(line: seq<nat>) {
    |line| == 3 && line[0] < line[1] < line[2] < CHILDREN
  }

  lemma {:induction false} LinesAreLines(l: nat)
    requires l < CHILDREN
    ensures IsLine(LINE_POINTS[l])
  {
  }

  function Line(l: nat): (line: seq<nat>)
    requires l < CHILDREN
    ensures IsLine(line)
  {
    LinesAreLines(l);
    LINE_POINTS[l]
  }

  predicate AreBlocks(left: Blocks) {
    |left| == CHILDREN && forall c :: 0 <= c < CHILDREN ==> IsBlock(left[c])
  }

  function BlockOf(r: Report): (b: Mask)
    ensures IsBlock(b)
  {
    r.axes * {0, 1, 2, 3, 4, 5, 6} + if r.busFault then {7} else {}
  }

  function BlocksOf(reports: seq<Report>): (blocks: Blocks)
    ensures |blocks| == |reports| && forall c :: 0 <= c < |reports| ==> blocks[c] == BlockOf(reports[c])
  {
    if reports == [] then [] else BlocksOf(reports[..|reports| - 1]) + [BlockOf(reports[|reports| - 1])]
  }

  const NOTHING: Blocks := [{}, {}, {}, {}, {}, {}, {}]

  predicate Clear(left: Blocks) { forall c :: 0 <= c < |left| ==> left[c] == {} }

  // ----- One round -----

  function WordOn(left: Blocks, line: seq<nat>): Mask
    requires AreBlocks(left) && IsLine(line)
  {
    FromBlocks(left[line[0]], left[line[1]], left[line[2]])
  }

  predicate Blank(left: Blocks, line: seq<nat>)
    requires AreBlocks(left) && IsLine(line)
  {
    left[line[0]] == {} && left[line[1]] == {} && left[line[2]] == {}
  }

  /** A self-reported block past the cap keeps its line from being decoded. */
  predicate Trusted(left: Blocks, line: seq<nat>, prov: Provenance)
    requires AreBlocks(left) && IsLine(line)
  {
    prov.SelfReported? ==>
      |left[line[0]]| <= MAX_BLOCK_WEIGHT && |left[line[1]]| <= MAX_BLOCK_WEIGHT && |left[line[2]]| <= MAX_BLOCK_WEIGHT
  }

  /** The faults a line's federation names, if it is decoded. */
  ghost function Decoded(left: Blocks, line: seq<nat>, prov: Provenance): Option<Mask>
    requires AreBlocks(left) && IsLine(line)
  {
    if Blank(left, line) || !Trusted(left, line, prov) then None else Leader(WordOn(left, line))
  }

  /** The first line from `l` on that is decoded. */
  ghost function FirstLine(left: Blocks, prov: Provenance, l: nat): (r: Option<nat>)
    requires AreBlocks(left) && l <= CHILDREN
    ensures r.Some? ==> l <= r.value < CHILDREN && Decoded(left, Line(r.value), prov).Some?
    ensures r.None? ==> forall k :: l <= k < CHILDREN ==> Decoded(left, Line(k), prov).None?
    decreases CHILDREN - l
  {
    if l == CHILDREN then None
    else if Decoded(left, Line(l), prov).Some? then Some(l)
    else FirstLine(left, prov, l + 1)
  }

  /** Take the named faults out of what remains. */
  function Removed(left: Blocks, line: seq<nat>, e: Mask): (r: Blocks)
    requires |left| == CHILDREN && IsLine(line)
    ensures |r| == CHILDREN
  {
    left[line[0] := left[line[0]] - Block(e, 0)][line[1] := left[line[1]] - Block(e, 1)]
        [line[2] := left[line[2]] - Block(e, 2)]
  }

  /** Add the named faults to what was found. */
  function Added(found: Blocks, line: seq<nat>, e: Mask): (r: Blocks)
    requires |found| == CHILDREN && IsLine(line)
    ensures |r| == CHILDREN
  {
    found[line[0] := found[line[0]] + Block(e, 0)][line[1] := found[line[1]] + Block(e, 1)]
         [line[2] := found[line[2]] + Block(e, 2)]
  }

  /** One pass of the loop: what remains and what is found, or nothing when no line is decoded. */
  ghost function Round(left: Blocks, found: Blocks, prov: Provenance): Option<(Blocks, Blocks)>
    requires AreBlocks(left) && |found| == CHILDREN
  {
    match FirstLine(left, prov, 0)
    case None => None
    case Some(l) =>
      var e := Decoded(left, Line(l), prov).value;
      Some((Removed(left, Line(l), e), Added(found, Line(l), e)))
  }

  function TotalTo(left: Blocks, n: nat): nat
    requires n <= |left|
  {
    if n == 0 then 0 else TotalTo(left, n - 1) + |left[n - 1]|
  }

  function Total(left: Blocks): nat { TotalTo(left, |left|) }

  lemma {:induction false} RemovedShrinks(left: Blocks, line: seq<nat>, e: Mask)
    requires AreBlocks(left) && IsLine(line)
    ensures var r := Removed(left, line, e);
            && AreBlocks(r)
            && (forall c :: 0 <= c < CHILDREN ==> r[c] <= left[c])
  {
    hide Block;
  }

  lemma {:induction false} SmallerTotal(less: Blocks, left: Blocks, n: nat)
    requires |less| == |left| && n <= |left| && forall c :: 0 <= c < n ==> less[c] <= left[c]
    ensures TotalTo(less, n) <= TotalTo(left, n)
    ensures TotalTo(less, n) == TotalTo(left, n) ==> less[..n] == left[..n]
  {
    if n > 0 {
      SmallerTotal(less, left, n - 1);
      SubsetSize(less[n - 1], left[n - 1]);
      assert less[..n] == less[..n - 1] + [less[n - 1]] && left[..n] == left[..n - 1] + [left[n - 1]];
    }
  }

  lemma {:induction false} SubsetSize(a: Mask, b: Mask)
    requires a <= b
    ensures |a| <= |b| && (|a| == |b| ==> a == b)
  {
    assert b == a + (b - a);
  }

  /** A round never adds to what remains, and either what remains is the same or its weight has fallen. */
  lemma {:induction false} RoundShrinks(left: Blocks, found: Blocks, prov: Provenance)
    requires AreBlocks(left) && |found| == CHILDREN && Round(left, found, prov).Some?
    ensures var (left', found') := Round(left, found, prov).value;
            && AreBlocks(left') && |found'| == CHILDREN
            && (forall c :: 0 <= c < CHILDREN ==> left'[c] <= left[c])
            && Total(left') <= Total(left) && (Total(left') == Total(left) ==> left' == left)
  {
    hide Removed, Added, Decoded, FirstLine, TotalTo, Line;
    var l := FirstLine(left, prov, 0).value;
    var e := Decoded(left, Line(l), prov).value;
    RemovedShrinks(left, Line(l), e);
    var left' := Removed(left, Line(l), e);
    SmallerTotal(left', left, CHILDREN);
    assert left'[..CHILDREN] == left' && left[..CHILDREN] == left;
  }

  // ----- The loop -----

  /** Rounds until nothing is decoded or nothing remains; `None` when a round leaves everything as it was. */
  ghost function Run(left: Blocks, found: Blocks, prov: Provenance): Option<Cell>
    requires AreBlocks(left) && |found| == CHILDREN
    decreases Total(left)
  {
    match Round(left, found, prov)
    case None => Some(Partial(found, left))
    case Some((left', found')) =>
      RoundShrinks(left, found, prov);
      if left' == left then None
      else if Clear(left') then Some(Localized(found'))
      else Run(left', found', prov)
  }

  ghost function Diagnosis(reports: seq<Report>, prov: Provenance): Option<Cell>
    requires |reports| == CHILDREN
  {
    var left := BlocksOf(reports);
    if Clear(left) then Some(Healthy) else Run(left, NOTHING, prov)
  }

  /** `n` rounds, if each of them decodes a line. */
  ghost function Rounds(left: Blocks, found: Blocks, prov: Provenance, n: nat): Option<(Blocks, Blocks)>
    requires AreBlocks(left) && |found| == CHILDREN
    decreases n
  {
    if n == 0 then Some((left, found))
    else
      match Round(left, found, prov)
      case None => None
      case Some((left', found')) =>
        RoundShrinks(left, found, prov);
        Rounds(left', found', prov, n - 1)
  }

  /** Once a round leaves everything as it was, every later round does: the loop decodes a line forever. */
  lemma {:induction false} AStuckRoundRepeats(left: Blocks, found: Blocks, prov: Provenance, n: nat)
    requires AreBlocks(left) && |found| == CHILDREN
    requires Round(left, found, prov).Some? && Round(left, found, prov).value.0 == left
    ensures Rounds(left, found, prov, n).Some? && Rounds(left, found, prov, n).value.0 == left && !Clear(left)
    decreases n
  {
    hide Round;
    DecodesSomething(left, found, prov);
    if n > 0 {
      var found' := Round(left, found, prov).value.1;
      RoundShrinks(left, found, prov);
      SameRemainder(left, found, found', prov);
      AStuckRoundRepeats(left, found', prov, n - 1);
    }
  }

  lemma {:induction false} DecodesSomething(left: Blocks, found: Blocks, prov: Provenance)
    requires AreBlocks(left) && |found| == CHILDREN && Round(left, found, prov).Some?
    ensures !Clear(left)
  {
    hide Removed, Added, FirstLine, Line, Leader;
    var l := FirstLine(left, prov, 0).value;
    assert !Blank(left, Line(l));
  }

  /** What remains after a round does not depend on what was found before it. */
  lemma {:induction false} SameRemainder(left: Blocks, found: Blocks, other: Blocks, prov: Provenance)
    requires AreBlocks(left) && |found| == |other| == CHILDREN && Round(left, found, prov).Some?
    ensures Round(left, other, prov).Some? && Round(left, other, prov).value.0 == Round(left, found, prov).value.0
  {
    hide Removed, Added, FirstLine, Line, Decoded;
  }

  method DiagnoseCell(reports: seq<Report>, prov: Provenance) returns (r: Option<Cell>)
    requires |reports| == CHILDREN
    ensures r == Diagnosis(reports, prov)
  {
    hide Round, Total;
    var left := BlocksOf(reports);
    if Clear(left) { return Some(Healthy); }
    var found := NOTHING;
    assert Diagnosis(reports, prov) == Run(left, found, prov);
    while true
      invariant AreBlocks(left) && |found| == CHILDREN
      invariant Diagnosis(reports, prov) == Run(left, found, prov)
      decreases Total(left)
    {
      var step := Peel(left, found, prov);
      if step.None? { return Some(Partial(found, left)); }
      RoundShrinks(left, found, prov);
      if step.value.0 == left { return None; }
      left, found := step.value.0, step.value.1;
      if Clear(left) { return Some(Localized(found)); }
    }
  }

  /** One pass over the lines. */
  method Peel(left: Blocks, found: Blocks, prov: Provenance) returns (r: Option<(Blocks, Blocks)>)
    requires AreBlocks(left) && |found| == CHILDREN
    ensures r == Round(left, found, prov)
  {
    hide Removed, Added, Decoded, FirstLine, Line;
    for l := 0 to CHILDREN
      invariant FirstLine(left, prov, 0) == FirstLine(left, prov, l)
    {
      var line := Line(l);
      var bits := DecodeLine(left, line, prov);
      FirstLineStep(left, prov, l);
      if bits.Some? {
        var left', found' := Attribute(left, found, line, bits.value);
        return Some((left', found'));
      }
    }
    FirstLineStep(left, prov, CHILDREN);
    return None;
  }

  lemma {:induction false} FirstLineStep(left: Blocks, prov: Provenance, l: nat)
    requires AreBlocks(left) && l <= CHILDREN
    ensures l == CHILDREN ==> FirstLine(left, prov, l) == None
    ensures l < CHILDREN && Decoded(left, Line(l), prov).Some? ==> FirstLine(left, prov, l) == Some(l)
    ensures l < CHILDREN && Decoded(left, Line(l), prov).None? ==> FirstLine(left, prov, l) == FirstLine(left, prov, l + 1)
  {
    hide Decoded, Line;
  }

  /** The positions a line's federation names, if it is decoded. */
  method DecodeLine(left: Blocks, line: seq<nat>, prov: Provenance) returns (bits: Option<seq<nat>>)
    requires AreBlocks(left) && IsLine(line)
    ensures bits.None? <==> Decoded(left, line, prov).None?
    ensures bits.Some? ==> Ascending(bits.value) && Decoded(left, line, prov) == Some(SetOf(bits.value))
  {
    hide FromBlocks, Leader, Blank, Trusted, Ascending;
    if Blank(left, line) || !Trusted(left, line, prov) { return None; }
    WordOnLine(left, line);
    bits := Locate(WordOn(left, line));
  }

  /** Attribute each named position to its child. */
  method Attribute(left: Blocks, found: Blocks, line: seq<nat>, bits: seq<nat>) returns (left': Blocks, found': Blocks)
    requires AreBlocks(left) && |found| == CHILDREN && IsLine(line) && Ascending(bits)
    ensures left' == Removed(left, line, SetOf(bits)) && found' == Added(found, line, SetOf(bits))
  {
    hide Block, Removed, Added;
    left', found' := left, found;
    NothingAttributed(left, found, line);
    assert SetOf(bits[..0]) == {};
    for i := 0 to |bits|
      invariant |left'| == |found'| == CHILDREN
      invariant left' == Removed(left, line, SetOf(bits[..i])) && found' == Added(found, line, SetOf(bits[..i]))
    {
      var slot, within := 2 - bits[i] / 8, bits[i] % 8;
      var child := line[slot];
      assert bits[..i + 1] == bits[..i] + [bits[i]];
      assert SetOf(bits[..i + 1]) == SetOf(bits[..i]) + {bits[i]};
      OneMoreBit(left, found, line, SetOf(bits[..i]), slot, within);
      assert At(slot, within) == bits[i];
      found' := found'[child := found'[child] + {within}];
      left' := left'[child := left'[child] - {within}];
    }
    assert bits[..|bits|] == bits;
  }

  lemma {:induction false} NothingAttributed(left: Blocks, found: Blocks, line: seq<nat>)
    requires |left| == |found| == CHILDREN && IsLine(line)
    ensures Removed(left, line, {}) == left && Added(found, line, {}) == found
  {
    assert Block({}, 0) == {} && Block({}, 1) == {} && Block({}, 2) == {};
    NothingRemoved(left, line, {});
    forall s: Mask
      ensures s + {} == s
    {
    }
    assert Added(found, line, {}) == found;
  }

  lemma {:induction false} NothingRemoved(left: Blocks, line: seq<nat>, e: Mask)
    requires |left| == CHILDREN && IsLine(line)
    requires left[line[0]] !! Block(e, 0) && left[line[1]] !! Block(e, 1) && left[line[2]] !! Block(e, 2)
    ensures Removed(left, line, e) == left
  {
    hide Block;
    assert left[line[0]] - Block(e, 0) == left[line[0]];
    assert left[line[1]] - Block(e, 1) == left[line[1]];
    assert left[line[2]] - Block(e, 2) == left[line[2]];
  }

  lemma {:induction false} BlockMore(e: Mask, slot: nat, within: nat, m: nat)
    requires slot < 3 && within < 8 && m < 3
    ensures Block(e + {At(slot, within)}, m) == if m == slot then Block(e, m) + {within} else Block(e, m)
  {
    var more := Block(e + {At(slot, within)}, m);
    forall c: nat | c < 8
      ensures c in more <==> c in Block(e, m) || (m == slot && c == within)
    {
      assert At(m, c) == At(slot, within) <==> m == slot && c == within;
    }
  }

  lemma {:induction false} OneMoreBit(left: Blocks, found: Blocks, line: seq<nat>, e: Mask, slot: nat, within: nat)
    requires |left| == |found| == CHILDREN && IsLine(line) && slot < 3 && within < 8
    ensures var (l, f, child) := (Removed(left, line, e), Added(found, line, e), line[slot]);
            && Removed(left, line, e + {At(slot, within)}) == l[child := l[child] - {within}]
            && Added(found, line, e + {At(slot, within)}) == f[child := f[child] + {within}]
  {
    hide Block, At;
    BlockMore(e, slot, within, 0);
    BlockMore(e, slot, within, 1);
    BlockMore(e, slot, within, 2);
    OneMoreAt(left[line[0]], found[line[0]], Block(e, 0), within);
    OneMoreAt(left[line[1]], found[line[1]], Block(e, 1), within);
    OneMoreAt(left[line[2]], found[line[2]], Block(e, 2), within);
  }

  lemma {:induction false} OneMoreAt(left: Mask, found: Mask, e: Mask, within: nat)
    ensures left - (e + {within}) == (left - e) - {within} && found + (e + {within}) == (found + e) + {within}
  {
  }

  // ----- Exactness -----

  ghost predicate LinesAtMost(left: Blocks, n: nat)
    requires AreBlocks(left)
  {
    forall l :: 0 <= l < CHILDREN ==> LineWeight(left, Line(l)) <= n
  }

  function LineWeight(left: Blocks, line: seq<nat>): nat
    requires AreBlocks(left) && IsLine(line)
  {
    |left[line[0]]| + |left[line[1]]| + |left[line[2]]|
  }

  /** A line's word, its weight and its blocks. */
  lemma {:induction false} WordOnLine(left: Blocks, line: seq<nat>)
    requires AreBlocks(left) && IsLine(line)
    ensures var w := WordOn(left, line);
            && IsWord(w) && |w| == LineWeight(left, line)
            && Block(w, 0) == left[line[0]] && Block(w, 1) == left[line[1]] && Block(w, 2) == left[line[2]]
  {
    hide FromBlocks, Block;
    FromBlocksParts(left[line[0]], left[line[1]], left[line[2]]);
  }

  /** A line of weight at most three decodes to exactly its faults, and one of weight four to nothing. */
  lemma {:induction false} LightLines(left: Blocks, line: seq<nat>, prov: Provenance)
    requires AreBlocks(left) && IsLine(line) && LineWeight(left, line) <= 4
    ensures Decoded(left, line, prov).Some? <==> !Blank(left, line) && Trusted(left, line, prov) && LineWeight(left, line) <= 3
    ensures Decoded(left, line, prov).Some? ==> Decoded(left, line, prov).value == WordOn(left, line)
  {
    hide WordOn, Block, Leader, Blank, Trusted, LineWeight;
    WordOnLine(left, line);
    DecodingByWeight(WordOn(left, line));
  }

  /** What is found and what remains are apart and make up the reports. */
  ghost predicate Partition(reports: Blocks, left: Blocks, found: Blocks) {
    && |reports| == |left| == |found|
    && forall c :: 0 <= c < |reports| ==> left[c] !! found[c] && left[c] + found[c] == reports[c]
  }

  lemma {:induction false} ExactAttribution(reports: Blocks, left: Blocks, found: Blocks, line: seq<nat>)
    requires AreBlocks(left) && IsLine(line) && |found| == CHILDREN && Partition(reports, left, found)
    ensures var w := WordOn(left, line);
            && Partition(reports, Removed(left, line, w), Added(found, line, w))
            && Blank(Removed(left, line, w), line)
  {
    hide WordOn, Block, IsBlock, Removed, Added, LineWeight, Partition;
    WordOnLine(left, line);
    var w := WordOn(left, line);
    RemovedShrinks(left, line, w);
    forall c | 0 <= c < CHILDREN
      ensures Removed(left, line, w)[c] == if c in line then {} else left[c]
      ensures Added(found, line, w)[c] == if c in line then found[c] + left[c] else found[c]
    {
      AttributedAt(left, found, line, w, c);
    }
    assert line[0] in line && line[1] in line && line[2] in line;
    MovedParts(reports, left, found, Removed(left, line, w), Added(found, line, w), line);
  }

  lemma {:induction false} MovedParts(
    reports: Blocks, left: Blocks, found: Blocks, left': Blocks, found': Blocks, line: seq<nat>)
    requires Partition(reports, left, found) && |left| == |left'| == |found'|
    requires forall c :: 0 <= c < |left| ==> left'[c] == if c in line then {} else left[c]
    requires forall c :: 0 <= c < |left| ==> found'[c] == if c in line then found[c] + left[c] else found[c]
    ensures Partition(reports, left', found')
  {
  }

  /** On the line everything is found; off it nothing changes. */
  lemma {:induction false} AttributedAt(left: Blocks, found: Blocks, line: seq<nat>, e: Mask, c: nat)
    requires |left| == |found| == CHILDREN && IsLine(line) && c < CHILDREN
    requires Block(e, 0) == left[line[0]] && Block(e, 1) == left[line[1]] && Block(e, 2) == left[line[2]]
    ensures Removed(left, line, e)[c] == if c in line then {} else left[c]
    ensures Added(found, line, e)[c] == if c in line then found[c] + left[c] else found[c]
  {
    hide Block;
    assert c in line <==> c == line[0] || c == line[1] || c == line[2];
  }

  lemma {:induction false} LinesShrink(left: Blocks, less: Blocks, n: nat)
    requires AreBlocks(left) && AreBlocks(less) && LinesAtMost(left, n)
    requires forall c :: 0 <= c < CHILDREN ==> less[c] <= left[c]
    ensures LinesAtMost(less, n)
  {
    hide Line;
    forall l | 0 <= l < CHILDREN
      ensures LineWeight(less, Line(l)) <= n
    {
      var line := Line(l);
      assert LineWeight(left, line) <= n;
      SubsetSize(less[line[0]], left[line[0]]);
      SubsetSize(less[line[1]], left[line[1]]);
      SubsetSize(less[line[2]], left[line[2]]);
    }
  }

  /** The line a round decodes. */
  ghost function DecodedLine(left: Blocks, prov: Provenance): (l: nat)
    requires AreBlocks(left) && FirstLine(left, prov, 0).Some?
    ensures l < CHILDREN
  {
    FirstLine(left, prov, 0).value
  }

  /**
   A round is exact and lowers what remains whenever the line it decodes holds at most four faults (and then it
   holds at most three), whatever the other lines hold.
   */
  lemma {:induction false} ExactRound(reports: Blocks, left: Blocks, found: Blocks, prov: Provenance)
    requires AreBlocks(left) && |found| == CHILDREN && Partition(reports, left, found)
    requires Round(left, found, prov).Some? && LineWeight(left, Line(DecodedLine(left, prov))) <= 4
    ensures var (left', found') := Round(left, found, prov).value;
            && LineWeight(left, Line(DecodedLine(left, prov))) <= 3
            && AreBlocks(left') && |found'| == CHILDREN && Partition(reports, left', found') && left' != left
  {
    hide Decoded, Removed, Added, FirstLine, WordOn, TotalTo, Partition, IsBlock, LineWeight, Line;
    var line := Line(DecodedLine(left, prov));
    LightLines(left, line, prov);
    ExactAttribution(reports, left, found, line);
    RoundShrinks(left, found, prov);
  }

  /** While every line holds at most four faults, a round is exact and the remaining weight falls. */
  lemma {:induction false} LightRound(reports: Blocks, left: Blocks, found: Blocks, prov: Provenance)
    requires AreBlocks(left) && |found| == CHILDREN && LinesAtMost(left, 4) && Partition(reports, left, found)
    requires Round(left, found, prov).Some?
    ensures var (left', found') := Round(left, found, prov).value;
            && AreBlocks(left') && |found'| == CHILDREN && LinesAtMost(left', 4)
            && Partition(reports, left', found') && left' != left
  {
    hide Decoded, Removed, Added, FirstLine, TotalTo, Partition, IsBlock, LineWeight, Line;
    assert LineWeight(left, Line(DecodedLine(left, prov))) <= 4;
    ExactRound(reports, left, found, prov);
    RoundShrinks(left, found, prov);
    LinesShrink(left, Round(left, found, prov).value.0, 4);
  }

  /** No line of what remains is decoded: each that is trusted holds nothing or exactly four faults. */
  ghost predicate Saturated(left: Blocks, prov: Provenance)
    requires AreBlocks(left)
  {
    forall l :: 0 <= l < CHILDREN && Trusted(left, Line(l), prov) ==> Blank(left, Line(l)) || LineWeight(left, Line(l)) == 4
  }

  /** The verdict accounts for every reported fault. */
  ghost predicate Accounts(reports: Blocks, prov: Provenance, r: Option<Cell>) {
    && r.Some?
    && match r.value
       case Healthy => Clear(reports)
       case Localized(found) => found == reports
       case Partial(found, left) => AreBlocks(left) && Partition(reports, left, found) && Saturated(left, prov) && !Clear(left)
  }

  lemma {:induction false} NoRound(left: Blocks, found: Blocks, prov: Provenance)
    requires AreBlocks(left) && |found| == CHILDREN && LinesAtMost(left, 4) && Round(left, found, prov).None?
    ensures Saturated(left, prov)
  {
    hide Decoded, Line;
    forall l | 0 <= l < CHILDREN && Trusted(left, Line(l), prov)
      ensures Blank(left, Line(l)) || LineWeight(left, Line(l)) == 4
    {
      assert LineWeight(left, Line(l)) <= 4;
      LightLines(left, Line(l), prov);
    }
  }

  lemma {:induction false} LightRun(reports: Blocks, left: Blocks, found: Blocks, prov: Provenance)
    requires AreBlocks(left) && |found| == CHILDREN && LinesAtMost(left, 4) && Partition(reports, left, found) && !Clear(left)
    ensures Accounts(reports, prov, Run(left, found, prov))
    decreases Total(left)
  {
    hide Round, LinesAtMost, Saturated, TotalTo;
    if Round(left, found, prov).None? {
      NoRound(left, found, prov);
    } else {
      var (left', found') := Round(left, found, prov).value;
      RoundShrinks(left, found, prov);
      LightRound(reports, left, found, prov);
      if Clear(left') {
        Whole(reports, left', found');
      } else {
        LightRun(reports, left', found', prov);
      }
    }
  }

  lemma {:induction false} Whole(reports: Blocks, left: Blocks, found: Blocks)
    requires Partition(reports, left, found) && Clear(left)
    ensures found == reports
  {
    forall c | 0 <= c < |reports|
      ensures found[c] == reports[c]
    {
      assert left[c] == {};
    }
  }

  /**
   Whenever no line holds more than four faults, buses included, the diagnosis ends, names no healthy
   coordinate, and what it localizes and leaves unexplained make up the reports exactly.
   */
  lemma {:induction false} DiagnosisIsExact(reports: seq<Report>, prov: Provenance)
    requires |reports| == CHILDREN && LinesAtMost(BlocksOf(reports), 4)
    ensures Accounts(BlocksOf(reports), prov, Diagnosis(reports, prov))
  {
    hide Run, LinesAtMost, Saturated;
    var left := BlocksOf(reports);
    if !Clear(left) {
      assert Partition(left, left, NOTHING);
      LightRun(left, left, NOTHING, prov);
    }
  }

  // ----- When it is exact and when it ends -----

  /** Every line the run decodes holds at most three faults. */
  ghost predicate DecodesLightly(left: Blocks, found: Blocks, prov: Provenance)
    requires AreBlocks(left) && |found| == CHILDREN
    decreases Total(left)
  {
    match Round(left, found, prov)
    case None => true
    case Some((left', found')) =>
      RoundShrinks(left, found, prov);
      && LineWeight(left, Line(DecodedLine(left, prov))) <= 3
      && (left' != left && !Clear(left') ==> DecodesLightly(left', found', prov))
  }

  /** No line of what remains is decoded. */
  ghost predicate Undecoded(left: Blocks, prov: Provenance)
    requires AreBlocks(left)
  {
    forall l :: 0 <= l < CHILDREN ==> Decoded(left, Line(l), prov).None?
  }

  /** The verdict names exactly reported faults, each once, and leaves the rest where no line is decoded. */
  ghost predicate Explains(reports: Blocks, prov: Provenance, r: Option<Cell>) {
    && r.Some?
    && match r.value
       case Healthy => Clear(reports)
       case Localized(found) => found == reports
       case Partial(found, left) => AreBlocks(left) && Partition(reports, left, found) && Undecoded(left, prov) && !Clear(left)
  }

  lemma {:induction false} NothingDecoded(left: Blocks, found: Blocks, prov: Provenance)
    requires AreBlocks(left) && |found| == CHILDREN && Round(left, found, prov).None?
    ensures Undecoded(left, prov)
  {
    hide Decoded, Line;
  }

  /** While every line it decodes holds at most three faults, a run ends and is exact, whatever the other lines hold. */
  lemma {:induction false} LightlyDecodedIsExact(reports: Blocks, left: Blocks, found: Blocks, prov: Provenance)
    requires AreBlocks(left) && |found| == CHILDREN && Partition(reports, left, found) && !Clear(left)
    requires DecodesLightly(left, found, prov)
    ensures Explains(reports, prov, Run(left, found, prov))
    decreases Total(left)
  {
    hide Round, Undecoded, TotalTo, LineWeight, Line, Partition, IsBlock;
    if Round(left, found, prov).None? {
      NothingDecoded(left, found, prov);
    } else {
      var (left', found') := Round(left, found, prov).value;
      RoundShrinks(left, found, prov);
      ExactRound(reports, left, found, prov);
      if Clear(left') {
        Whole(reports, left', found');
      } else {
        LightlyDecodedIsExact(reports, left', found', prov);
      }
    }
  }

  /** The faults that remain on the line a round decodes, as a word. */
  ghost function DecodedWord(left: Blocks, prov: Provenance): Mask
    requires AreBlocks(left) && FirstLine(left, prov, 0).Some?
  {
    WordOn(left, Line(DecodedLine(left, prov)))
  }

  ghost predicate Surrounded(w: Mask) { exists c :: Surrounds(w, c) }

  lemma {:induction false} RemovedNothing(left: Blocks, line: seq<nat>, e: Mask)
    requires AreBlocks(left) && IsLine(line) && IsWord(e)
    ensures Removed(left, line, e) == left <==> WordOn(left, line) !! e
  {
    hide WordOn, Block, IsBlock;
    var w := WordOn(left, line);
    WordOnLine(left, line);
    ApartByBlocks(w, e);
    if w !! e {
      NothingRemoved(left, line, e);
    } else {
      SomethingRemoved(left, line, e);
    }
  }

  lemma {:induction false} SomethingRemoved(left: Blocks, line: seq<nat>, e: Mask)
    requires |left| == CHILDREN && IsLine(line)
    requires !(left[line[0]] !! Block(e, 0) && left[line[1]] !! Block(e, 1) && left[line[2]] !! Block(e, 2))
    ensures Removed(left, line, e) != left
  {
    hide Block;
    var less := Removed(left, line, e);
    assert less[line[0]] == left[line[0]] - Block(e, 0);
    assert less[line[1]] == left[line[1]] - Block(e, 1);
    assert less[line[2]] == left[line[2]] - Block(e, 2);
    SubtractsSome(left[line[0]], Block(e, 0));
    SubtractsSome(left[line[1]], Block(e, 1));
    SubtractsSome(left[line[2]], Block(e, 2));
  }

  lemma {:induction false} SubtractsSome(s: Mask, t: Mask)
    ensures s - t == s <==> s !! t
  {
    if s - t == s {
      forall x | x in s
        ensures x !in t
      {
        assert x in s - t;
      }
    }
  }

  lemma {:induction false} ApartByBlocks(w: Mask, e: Mask)
    requires IsWord(e)
    ensures w !! e <==> Block(w, 0) !! Block(e, 0) && Block(w, 1) !! Block(e, 1) && Block(w, 2) !! Block(e, 2)
  {
    hide Block, At;
    if Block(w, 0) !! Block(e, 0) && Block(w, 1) !! Block(e, 1) && Block(w, 2) !! Block(e, 2) {
      forall i | i in e
        ensures i !in w
      {
        PositionOut(e, w, i);
      }
    }
  }

  lemma {:induction false} PositionOut(e: Mask, w: Mask, i: nat)
    requires IsWord(e) && i in e
    requires Block(w, 0) !! Block(e, 0) && Block(w, 1) !! Block(e, 1) && Block(w, 2) !! Block(e, 2)
    ensures i !in w
  {
    hide Block;
    var m, c := 2 - i / 8, i % 8;
    assert At(m, c) == i;
    assert c in Block(e, m);
    assert c !in Block(w, m);
  }

  /** A round leaves everything as it was if and only if a codeword surrounds the faults on the line it decodes. */
  lemma {:induction false} RoundIsStuckIff(left: Blocks, found: Blocks, prov: Provenance)
    requires AreBlocks(left) && |found| == CHILDREN && Round(left, found, prov).Some?
    ensures Round(left, found, prov).value.0 == left <==> Surrounded(DecodedWord(left, prov))
  {
    hide FirstLine, Line, WordOn, Leader, Removed, Added, IsBlock, Surrounds, Blank, Trusted, IsWord;
    var line := Line(DecodedLine(left, prov));
    var w := WordOn(left, line);
    var e := Decoded(left, line, prov).value;
    WordOnLine(left, line);
    RemovedNothing(left, line, e);
    LeaderMissesIff(w);
  }

  /** No codeword ever surrounds the faults on a line the run decodes. */
  ghost predicate NeverSurrounded(left: Blocks, found: Blocks, prov: Provenance)
    requires AreBlocks(left) && |found| == CHILDREN
    decreases Total(left)
  {
    match Round(left, found, prov)
    case None => true
    case Some((left', found')) =>
      RoundShrinks(left, found, prov);
      && !Surrounded(DecodedWord(left, prov))
      && (left' != left && !Clear(left') ==> NeverSurrounded(left', found', prov))
  }

  /** The loop ends if and only if no codeword ever surrounds the faults on a line it decodes. */
  lemma {:induction false} RunEndsIff(left: Blocks, found: Blocks, prov: Provenance)
    requires AreBlocks(left) && |found| == CHILDREN && !Clear(left)
    ensures Run(left, found, prov).Some? <==> NeverSurrounded(left, found, prov)
    decreases Total(left)
  {
    hide Round, TotalTo, AreBlocks, FirstLine, DecodedWord, Clear, Surrounded;
    if Round(left, found, prov).Some? {
      RoundDecodes(left, found, prov);
      var (left', found') := Round(left, found, prov).value;
      RoundShrinks(left, found, prov);
      RoundIsStuckIff(left, found, prov);
      if left' != left && !Clear(left') { RunEndsIff(left', found', prov); }
    }
  }

  /**
   The exact condition for every input of either provenance: the diagnosis ends if and only if no codeword ever
   surrounds the faults that remain on a line it decodes.
   */
  lemma {:induction false} DiagnosisEndsIff(reports: seq<Report>, prov: Provenance)
    requires |reports| == CHILDREN
    ensures var left := BlocksOf(reports);
            Diagnosis(reports, prov).Some? <==> Clear(left) || NeverSurrounded(left, NOTHING, prov)
  {
    hide Run, NeverSurrounded, Clear;
    var left := BlocksOf(reports);
    if !Clear(left) { RunEndsIff(left, NOTHING, prov); }
  }

  /** No line that may be decoded holds more than six: always so for self-reports, by their cap. */
  ghost predicate AtMostSix(left: Blocks, prov: Provenance)
    requires AreBlocks(left)
  {
    prov.SelfReported? || LinesAtMost(left, 6)
  }

  lemma {:induction false} DecodedAtMostSix(left: Blocks, prov: Provenance)
    requires AreBlocks(left) && FirstLine(left, prov, 0).Some? && AtMostSix(left, prov)
    ensures LineWeight(left, Line(DecodedLine(left, prov))) <= 6
  {
    hide FirstLine, Line, Leader, WordOn, IsBlock;
  }

  lemma {:induction false} SixShrinks(left: Blocks, less: Blocks, prov: Provenance)
    requires AreBlocks(left) && AreBlocks(less) && AtMostSix(left, prov)
    requires forall c :: 0 <= c < CHILDREN ==> less[c] <= left[c]
    ensures AtMostSix(less, prov)
  {
    hide IsBlock, LinesAtMost;
    if LinesAtMost(left, 6) { LinesShrink(left, less, 6); }
  }

  /** With no line above six the loop ends if and only if every line it decodes holds at most three faults. */
  lemma {:induction false} RunEndsIffLight(left: Blocks, found: Blocks, prov: Provenance)
    requires AreBlocks(left) && |found| == CHILDREN && !Clear(left) && AtMostSix(left, prov)
    ensures Run(left, found, prov).Some? <==> DecodesLightly(left, found, prov)
    decreases Total(left)
  {
    hide Round, TotalTo, LineWeight, Line, IsBlock, FirstLine, LinesAtMost, AtMostSix;
    if Round(left, found, prov).Some? {
      RoundDecodes(left, found, prov);
      DecodedAtMostSix(left, prov);
      var l := DecodedLine(left, prov);
      var (left', found') := Round(left, found, prov).value;
      RoundShrinks(left, found, prov);
      if LineWeight(left, Line(l)) >= 5 {
        FiveOrSixAreStuck(left, found, prov, l);
      } else {
        LightRoundMoves(left, found, prov);
        if !Clear(left') {
          SixShrinks(left, left', prov);
          RunEndsIffLight(left', found', prov);
        }
      }
    }
  }

  lemma {:induction false} RoundDecodes(left: Blocks, found: Blocks, prov: Provenance)
    requires AreBlocks(left) && |found| == CHILDREN && Round(left, found, prov).Some?
    ensures FirstLine(left, prov, 0).Some? && FirstLine(left, prov, 0).value == DecodedLine(left, prov)
  {
    hide FirstLine, Line, Decoded, Removed, Added;
  }

  /** A light round moves, whatever was found before. */
  lemma {:induction false} LightRoundMoves(left: Blocks, found: Blocks, prov: Provenance)
    requires AreBlocks(left) && |found| == CHILDREN && Round(left, found, prov).Some?
    requires LineWeight(left, Line(DecodedLine(left, prov))) <= 4
    ensures LineWeight(left, Line(DecodedLine(left, prov))) <= 3 && Round(left, found, prov).value.0 != left
  {
    hide Round, LineWeight, Line, AreBlocks, FirstLine, Partition;
    SameRemainder(left, found, NOTHING, prov);
    StartsPartitioned(left);
    ExactRound(left, left, NOTHING, prov);
  }

  lemma {:induction false} StartsPartitioned(left: Blocks)
    requires AreBlocks(left)
    ensures Partition(left, left, NOTHING)
  {
    hide IsBlock;
  }

  /**
   The exact condition, for all reports in which no line holds more than six faults and for all self-reports: the
   diagnosis ends if and only if every line it decodes holds at most three, and a diagnosis that ends is exact.
   */
  lemma {:induction false} EndsIffLight(reports: seq<Report>, prov: Provenance)
    requires |reports| == CHILDREN && AtMostSix(BlocksOf(reports), prov)
    ensures var left := BlocksOf(reports);
            && (Diagnosis(reports, prov).Some? <==> Clear(left) || DecodesLightly(left, NOTHING, prov))
            && (Diagnosis(reports, prov).Some? ==> Explains(left, prov, Diagnosis(reports, prov)))
  {
    hide Run, AtMostSix, DecodesLightly, Undecoded;
    var left := BlocksOf(reports);
    if !Clear(left) {
      assert Partition(left, left, NOTHING);
      RunEndsIffLight(left, NOTHING, prov);
      if DecodesLightly(left, NOTHING, prov) { LightlyDecodedIsExact(left, left, NOTHING, prov); }
    }
  }

  /** A self-reported diagnosis that ends names no healthy coordinate, for every input. */
  lemma {:induction false} SelfReportsBlameNobody(reports: seq<Report>)
    requires |reports| == CHILDREN && Diagnosis(reports, SelfReported).Some?
    ensures Explains(BlocksOf(reports), SelfReported, Diagnosis(reports, SelfReported))
  {
    hide Diagnosis, Explains;
    EndsIffLight(reports, SelfReported);
  }

  // ----- Naming the healthy -----

  /** A decoded line names only faults that remain on it. */
  ghost predicate NamesOnlyFaults(left: Blocks, line: seq<nat>, prov: Provenance)
    requires AreBlocks(left) && IsLine(line)
  {
    Decoded(left, line, prov).Some? ==>
      var e := Decoded(left, line, prov).value;
      Block(e, 0) <= left[line[0]] && Block(e, 1) <= left[line[1]] && Block(e, 2) <= left[line[2]]
  }

  lemma {:induction false} InsideByBlocks(w: Mask, e: Mask)
    requires IsWord(w) && IsWord(e)
    ensures e <= w <==> Block(e, 0) <= Block(w, 0) && Block(e, 1) <= Block(w, 1) && Block(e, 2) <= Block(w, 2)
  {
    hide Block, At;
    if Block(e, 0) <= Block(w, 0) && Block(e, 1) <= Block(w, 1) && Block(e, 2) <= Block(w, 2) {
      forall i | i in e
        ensures i in w
      {
        PositionIn(e, w, i);
      }
    }
  }

  lemma {:induction false} PositionIn(e: Mask, w: Mask, i: nat)
    requires IsWord(e) && i in e
    requires Block(e, 0) <= Block(w, 0) && Block(e, 1) <= Block(w, 1) && Block(e, 2) <= Block(w, 2)
    ensures i in w
  {
    hide Block;
    var m, c := 2 - i / 8, i % 8;
    assert At(m, c) == i;
    assert c in Block(e, m);
    assert c in Block(w, m);
  }

  /**
   When a decoded line names only faults that remain: if and only if a codeword makes up all its faults but three or
   fewer.  Up to eight faults that is three faults or fewer, or eight that are a codeword and decode to nothing.
   */
  lemma {:induction false} NamesOnlyFaultsIff(left: Blocks, line: seq<nat>, prov: Provenance)
    requires AreBlocks(left) && IsLine(line) && Decoded(left, line, prov).Some?
    ensures NamesOnlyFaults(left, line, prov) <==> exists c :: Fills(WordOn(left, line), c)
    ensures LineWeight(left, line) <= 8 ==>
            (NamesOnlyFaults(left, line, prov) <==>
               LineWeight(left, line) <= 3 || (LineWeight(left, line) == 8 && IsCodeword(WordOn(left, line))))
  {
    hide Leader, WordOn, Block, IsBlock, LineWeight, Blank, Trusted, IsCodeword;
    var w := WordOn(left, line);
    var e := Leader(w).value;
    WordOnLine(left, line);
    LeaderInsideIff(w);
    InsideByBlocks(w, e);
    if LineWeight(left, line) <= 8 { FillsUpToEight(w); }
  }

  lemma {:induction false} FillsUpToEight(w: Mask)
    requires IsWord(w) && |w| <= 8
    ensures (exists c :: Fills(w, c)) <==> |w| <= 3 || (|w| == 8 && IsCodeword(w))
  {
    hide IsCodeword, SyndromeOf;
    EmptyIsACodeword();
    assert w - {} == w;
    assert w - w == {};
    if |w| <= 3 { assert Fills(w, {}); }
    if |w| == 8 && IsCodeword(w) { assert Fills(w, w); }
    if c :| Fills(w, c) && |w| >= 4 { NoFillBelowEight(w, c); }
  }

  lemma {:induction false} EmptyIsACodeword()
    ensures IsCodeword({})
  {
    hide SyndromeOf;
    EmptySyndrome();
  }

  /** Every line the run decodes names only faults that remain. */
  ghost predicate NamesWhatRemains(left: Blocks, found: Blocks, prov: Provenance)
    requires AreBlocks(left) && |found| == CHILDREN
    decreases Total(left)
  {
    match Round(left, found, prov)
    case None => true
    case Some((left', found')) =>
      RoundShrinks(left, found, prov);
      && NamesOnlyFaults(left, Line(DecodedLine(left, prov)), prov)
      && (left' != left && !Clear(left') ==> NamesWhatRemains(left', found', prov))
  }

  /** A decoded line names only reported faults, remaining or found before. */
  ghost predicate NamesOnlyReported(reports: Blocks, left: Blocks, line: seq<nat>, prov: Provenance)
    requires AreBlocks(left) && IsLine(line) && |reports| == CHILDREN
  {
    Decoded(left, line, prov).Some? ==>
      var e := Decoded(left, line, prov).value;
      Block(e, 0) <= reports[line[0]] && Block(e, 1) <= reports[line[1]] && Block(e, 2) <= reports[line[2]]
  }

  /** A codeword within the reports on the line is within three positions of the faults that remain there. */
  ghost predicate Reached(reports: Blocks, left: Blocks, line: seq<nat>)
    requires AreBlocks(reports) && AreBlocks(left) && IsLine(line)
  {
    exists c :: Reaches(WordOn(left, line), WordOn(reports, line), c)
  }

  lemma {:induction false} PartOfReports(reports: Blocks, left: Blocks, line: seq<nat>)
    requires AreBlocks(reports) && AreBlocks(left) && IsLine(line)
    requires left[line[0]] <= reports[line[0]] && left[line[1]] <= reports[line[1]] && left[line[2]] <= reports[line[2]]
    ensures WordOn(left, line) <= WordOn(reports, line)
  {
    hide WordOn, Block, IsBlock;
    WordOnLine(left, line);
    WordOnLine(reports, line);
    InsideByBlocks(WordOn(reports, line), WordOn(left, line));
  }

  /** When a decoded line names only reported faults, in terms of the code. */
  lemma {:induction false} NamesOnlyReportedIff(reports: Blocks, left: Blocks, line: seq<nat>, prov: Provenance)
    requires AreBlocks(reports) && AreBlocks(left) && IsLine(line) && Decoded(left, line, prov).Some?
    requires left[line[0]] <= reports[line[0]] && left[line[1]] <= reports[line[1]] && left[line[2]] <= reports[line[2]]
    ensures NamesOnlyReported(reports, left, line, prov) <==> Reached(reports, left, line)
  {
    hide Leader, WordOn, Block, IsBlock, Blank, Trusted, Reaches;
    var w, r := WordOn(left, line), WordOn(reports, line);
    WordOnLine(left, line);
    WordOnLine(reports, line);
    PartOfReports(reports, left, line);
    LeaderWithinIff(w, r);
    InsideByBlocks(r, Leader(w).value);
  }

  /** For every line the run decodes, a codeword within its reports is that near to the faults that remain. */
  ghost predicate AlwaysReached(reports: Blocks, left: Blocks, found: Blocks, prov: Provenance)
    requires AreBlocks(reports) && AreBlocks(left) && |found| == CHILDREN
    decreases Total(left)
  {
    match Round(left, found, prov)
    case None => true
    case Some((left', found')) =>
      RoundShrinks(left, found, prov);
      && Reached(reports, left, Line(DecodedLine(left, prov)))
      && (left' != left && !Clear(left') ==> AlwaysReached(reports, left', found', prov))
  }

  lemma {:induction false} MovedSome(reports: Blocks, left: Blocks, found: Blocks, line: seq<nat>, e: Mask)
    requires |left| == |found| == CHILDREN && IsLine(line) && Partition(reports, left, found)
    requires Block(e, 0) <= reports[line[0]] && Block(e, 1) <= reports[line[1]] && Block(e, 2) <= reports[line[2]]
    ensures Partition(reports, Removed(left, line, e), Added(found, line, e))
  {
    hide Block;
    var left', found' := Removed(left, line, e), Added(found, line, e);
    forall c | 0 <= c < CHILDREN
      ensures left'[c] !! found'[c] && left'[c] + found'[c] == reports[c]
    {
      assert left[c] !! found[c] && left[c] + found[c] == reports[c];
    }
  }

  /** A healthy coordinate was named. */
  ghost predicate Blames(reports: Blocks, found: Blocks) {
    |reports| == |found| && exists c :: 0 <= c < |found| && !(found[c] <= reports[c])
  }

  /** A round keeps the partition if and only if it names only reported faults; otherwise it blames the healthy. */
  lemma {:induction false} RoundBlamesOrNot(reports: Blocks, left: Blocks, found: Blocks, prov: Provenance)
    requires AreBlocks(left) && |found| == |reports| == CHILDREN && Partition(reports, left, found)
    requires Round(left, found, prov).Some?
    ensures var (left', found') := Round(left, found, prov).value;
            if NamesOnlyReported(reports, left, Line(DecodedLine(left, prov)), prov) then Partition(reports, left', found')
            else Blames(reports, found')
  {
    hide Decoded, FirstLine, Line, Block, IsBlock, Removed, Added, Partition;
    var line := Line(DecodedLine(left, prov));
    var e := Decoded(left, line, prov).value;
    if NamesOnlyReported(reports, left, line, prov) {
      MovedSome(reports, left, found, line, e);
    } else {
      AddedBlames(reports, found, line, e);
    }
  }

  lemma {:induction false} AddedBlames(reports: Blocks, found: Blocks, line: seq<nat>, e: Mask)
    requires |reports| == |found| == CHILDREN && IsLine(line)
    requires !(Block(e, 0) <= reports[line[0]] && Block(e, 1) <= reports[line[1]] && Block(e, 2) <= reports[line[2]])
    ensures Blames(reports, Added(found, line, e))
  {
    hide Block;
    var found' := Added(found, line, e);
    assert Block(e, 0) <= found'[line[0]] && Block(e, 1) <= found'[line[1]] && Block(e, 2) <= found'[line[2]];
    assert !(found'[line[0]] <= reports[line[0]]) || !(found'[line[1]] <= reports[line[1]])
           || !(found'[line[2]] <= reports[line[2]]);
  }

  lemma {:induction false} BlameStays(reports: Blocks, left: Blocks, found: Blocks, prov: Provenance)
    requires AreBlocks(left) && |found| == CHILDREN && Blames(reports, found) && Round(left, found, prov).Some?
    ensures Blames(reports, Round(left, found, prov).value.1)
  {
    hide Decoded, FirstLine, Line, Block, IsBlock;
    var c :| 0 <= c < |found| && !(found[c] <= reports[c]);
    var found' := Round(left, found, prov).value.1;
    assert found[c] <= found'[c];
    assert !(found'[c] <= reports[c]);
  }

  /** Once the healthy are blamed no later verdict is exact. */
  lemma {:induction false} BlamedRun(reports: Blocks, left: Blocks, found: Blocks, prov: Provenance)
    requires AreBlocks(left) && |found| == CHILDREN && Blames(reports, found)
    ensures !Explains(reports, prov, Run(left, found, prov))
    decreases Total(left)
  {
    hide Round, TotalTo, IsBlock, Undecoded;
    if Round(left, found, prov).Some? {
      var (left', found') := Round(left, found, prov).value;
      RoundShrinks(left, found, prov);
      BlameStays(reports, left, found, prov);
      if left' != left && !Clear(left') { BlamedRun(reports, left', found', prov); }
    }
  }

  lemma {:induction false} RoundReachesIff(reports: Blocks, left: Blocks, found: Blocks, prov: Provenance)
    requires AreBlocks(reports) && AreBlocks(left) && |found| == CHILDREN && Partition(reports, left, found)
    requires Round(left, found, prov).Some?
    ensures NamesOnlyReported(reports, left, Line(DecodedLine(left, prov)), prov) <==>
            Reached(reports, left, Line(DecodedLine(left, prov)))
  {
    hide Decoded, FirstLine, Line, IsBlock, Removed, Added, NamesOnlyReported, Reached;
    NamesOnlyReportedIff(reports, left, Line(DecodedLine(left, prov)), prov);
  }

  /**
   A run that ends is exact if and only if, for every line it decodes, a codeword within the reports is within three
   positions of what remains there.
   */
  lemma {:induction false} RunIsExactIff(reports: Blocks, left: Blocks, found: Blocks, prov: Provenance)
    requires AreBlocks(reports) && AreBlocks(left) && |found| == CHILDREN && Partition(reports, left, found) && !Clear(left)
    requires Run(left, found, prov).Some?
    ensures Explains(reports, prov, Run(left, found, prov)) <==> AlwaysReached(reports, left, found, prov)
    decreases Total(left)
  {
    hide Round, Undecoded, TotalTo, NamesOnlyReported, Reached, Line, Partition, IsBlock, Blames, FirstLine, Clear;
    if Round(left, found, prov).None? {
      NothingDecoded(left, found, prov);
    } else {
      RoundDecodes(left, found, prov);
      var (left', found') := Round(left, found, prov).value;
      RoundShrinks(left, found, prov);
      RoundBlamesOrNot(reports, left, found, prov);
      RoundReachesIff(reports, left, found, prov);
      if !NamesOnlyReported(reports, left, Line(DecodedLine(left, prov)), prov) {
        BlamedEnd(reports, left, found, prov);
      } else if Clear(left') {
        Whole(reports, left', found');
      } else {
        RunIsExactIff(reports, left', found', prov);
      }
    }
  }

  lemma {:induction false} BlamedEnd(reports: Blocks, left: Blocks, found: Blocks, prov: Provenance)
    requires AreBlocks(left) && |found| == CHILDREN && Round(left, found, prov).Some?
    requires Blames(reports, Round(left, found, prov).value.1)
    ensures !Explains(reports, prov, Run(left, found, prov))
  {
    hide Round, TotalTo, IsBlock, Undecoded;
    var (left', found') := Round(left, found, prov).value;
    RoundShrinks(left, found, prov);
    if left' != left && !Clear(left') { BlamedRun(reports, left', found', prov); }
  }

  /**
   For every input: a diagnosis that ends names exactly reported faults if and only if, for every line it decodes, a
   codeword within that line's reports is within three positions of the faults that remain there.
   */
  lemma {:induction false} DiagnosisIsExactIff(reports: seq<Report>, prov: Provenance)
    requires |reports| == CHILDREN && Diagnosis(reports, prov).Some?
    ensures var left := BlocksOf(reports);
            Explains(left, prov, Diagnosis(reports, prov)) <==> Clear(left) || AlwaysReached(left, left, NOTHING, prov)
  {
    hide Run, AlwaysReached, Undecoded;
    var left := BlocksOf(reports);
    if !Clear(left) {
      StartsPartitioned(left);
      RunIsExactIff(left, left, NOTHING, prov);
    }
  }

  /** Ending and exactness together, for every input. */
  lemma {:induction false} EndsExactlyIff(reports: seq<Report>, prov: Provenance)
    requires |reports| == CHILDREN
    ensures var left := BlocksOf(reports);
            Explains(left, prov, Diagnosis(reports, prov)) <==>
            Clear(left) || (NeverSurrounded(left, NOTHING, prov) && AlwaysReached(left, left, NOTHING, prov))
  {
    hide Diagnosis, AlwaysReached, NeverSurrounded, Undecoded, Clear;
    DiagnosisEndsIff(reports, prov);
    if Diagnosis(reports, prov).Some? { DiagnosisIsExactIff(reports, prov); }
  }

  /** The faults on every line the run decodes are a codeword, perhaps the empty one, and one to three positions more. */
  ghost predicate AlwaysFilled(left: Blocks, found: Blocks, prov: Provenance)
    requires AreBlocks(left) && |found| == CHILDREN
    decreases Total(left)
  {
    match Round(left, found, prov)
    case None => true
    case Some((left', found')) =>
      RoundShrinks(left, found, prov);
      && Filled(DecodedWord(left, prov))
      && (left' != left && !Clear(left') ==> AlwaysFilled(left', found', prov))
  }

  ghost predicate Filled(w: Mask) { !IsCodeword(w) && exists c :: Fills(w, c) }

  /** A run ends and names only faults that remain if and only if every line it decodes is filled so. */
  lemma {:induction false} EndsNamingWhatRemainsIff(left: Blocks, found: Blocks, prov: Provenance)
    requires AreBlocks(left) && |found| == CHILDREN && !Clear(left)
    ensures Run(left, found, prov).Some? && NamesWhatRemains(left, found, prov) <==> AlwaysFilled(left, found, prov)
    decreases Total(left)
  {
    hide Round, TotalTo, Line, AreBlocks, FirstLine, NamesOnlyFaults, Filled, DecodedWord, Clear;
    if Round(left, found, prov).Some? {
      RoundDecodes(left, found, prov);
      var (left', found') := Round(left, found, prov).value;
      RoundShrinks(left, found, prov);
      RoundNamesWhatRemains(left, found, prov);
      if left' != left && !Clear(left') { EndsNamingWhatRemainsIff(left', found', prov); }
    }
  }

  /** A round moves and names only faults that remain if and only if its line is filled so. */
  lemma {:induction false} RoundNamesWhatRemains(left: Blocks, found: Blocks, prov: Provenance)
    requires AreBlocks(left) && |found| == CHILDREN && Round(left, found, prov).Some?
    ensures NamesOnlyFaults(left, Line(DecodedLine(left, prov)), prov) && Round(left, found, prov).value.0 != left <==>
            Filled(DecodedWord(left, prov))
  {
    hide Decoded, FirstLine, Line, IsBlock, LineWeight, Removed, Added, WordOn, NamesOnlyFaults, Fills, Surrounds, IsCodeword;
    var line := Line(DecodedLine(left, prov));
    WordOnLine(left, line);
    NamesOnlyFaultsIff(left, line, prov);
    RoundIsStuckIff(left, found, prov);
    InsideAndOut(WordOn(left, line));
  }

  /** A word both filled and surrounded is a codeword, and a codeword is surrounded by itself. */
  lemma {:induction false} InsideAndOut(w: Mask)
    requires IsWord(w)
    ensures (exists c :: Fills(w, c)) ==> (Surrounded(w) <==> IsCodeword(w))
  {
    hide Leader, Surrounds, Fills, IsCodeword, SyndromeOf;
    LeaderInsideIff(w);
    LeaderMissesIff(w);
    if IsCodeword(w) { SurroundsItself(w); }
    if Leader(w).Some? && Leader(w).value <= w && w !! Leader(w).value {
      assert Leader(w).value == {};
      CleanByNothing(w);
    }
  }

  lemma {:induction false} SurroundsItself(w: Mask)
    requires IsWord(w) && IsCodeword(w)
    ensures Surrounds(w, w)
  {
    hide IsCodeword;
    assert w - w == {};
  }

  lemma {:induction false} CleanByNothing(w: Mask)
    requires Leader(w) == Some({})
    ensures IsCodeword(w)
  {
    hide SyndromeOf, Leader;
    EmptySyndrome();
  }

  /** Up to eight faults on a line, that is at most three on every line it decodes. */
  lemma {:induction false} FilledIffLight(left: Blocks, found: Blocks, prov: Provenance)
    requires AreBlocks(left) && |found| == CHILDREN && LinesAtMost(left, 8)
    ensures AlwaysFilled(left, found, prov) <==> DecodesLightly(left, found, prov)
    decreases Total(left)
  {
    hide Round, TotalTo, LineWeight, Line, IsBlock, FirstLine, Filled, DecodedWord, LinesAtMost, Clear;
    if Round(left, found, prov).Some? {
      RoundDecodes(left, found, prov);
      var (left', found') := Round(left, found, prov).value;
      RoundShrinks(left, found, prov);
      LineFilledIffLight(left, found, prov);
      LinesShrink(left, left', 8);
      if left' != left && !Clear(left') { FilledIffLight(left', found', prov); }
    }
  }

  lemma {:induction false} LineFilledIffLight(left: Blocks, found: Blocks, prov: Provenance)
    requires AreBlocks(left) && |found| == CHILDREN && LinesAtMost(left, 8) && Round(left, found, prov).Some?
    ensures Filled(DecodedWord(left, prov)) <==> LineWeight(left, Line(DecodedLine(left, prov))) <= 3
  {
    hide Decoded, FirstLine, Line, IsBlock, LineWeight, Removed, Added, WordOn, IsCodeword, Fills;
    var line := Line(DecodedLine(left, prov));
    assert LineWeight(left, line) <= 8;
    WordOnLine(left, line);
    var w := WordOn(left, line);
    FillsUpToEight(w);
    if IsCodeword(w) { MinimumWeight(w); }
    DecodedIsNotBlank(left, line, prov);
  }

  lemma {:induction false} DecodedIsNotBlank(left: Blocks, line: seq<nat>, prov: Provenance)
    requires AreBlocks(left) && IsLine(line) && Decoded(left, line, prov).Some?
    ensures LineWeight(left, line) > 0
  {
    hide Leader, WordOn, IsBlock;
    assert |left[line[0]]| == 0 ==> left[line[0]] == {};
    assert |left[line[1]]| == 0 ==> left[line[1]] == {};
    assert |left[line[2]]| == 0 ==> left[line[2]] == {};
  }

  /** Whatever is decoded, no reported fault is lost and none is both found and left. */
  ghost predicate Covered(reports: Blocks, left: Blocks, found: Blocks) {
    && |reports| == |left| == |found|
    && forall c :: 0 <= c < |reports| ==> left[c] !! found[c] && reports[c] <= left[c] + found[c]
  }

  lemma {:induction false} RoundCovers(reports: Blocks, left: Blocks, found: Blocks, prov: Provenance)
    requires AreBlocks(left) && |found| == CHILDREN && Covered(reports, left, found) && Round(left, found, prov).Some?
    ensures var (left', found') := Round(left, found, prov).value; Covered(reports, left', found')
  {
    hide Decoded, FirstLine, Line, Block, IsBlock;
    var line := Line(DecodedLine(left, prov));
    var e := Decoded(left, line, prov).value;
    var left', found' := Removed(left, line, e), Added(found, line, e);
    forall c | 0 <= c < CHILDREN
      ensures left'[c] !! found'[c] && reports[c] <= left'[c] + found'[c]
    {
      assert left[c] !! found[c] && reports[c] <= left[c] + found[c];
    }
  }

  lemma {:induction false} RunCovers(reports: Blocks, left: Blocks, found: Blocks, prov: Provenance)
    requires AreBlocks(left) && |found| == CHILDREN && Covered(reports, left, found)
    ensures match Run(left, found, prov)
            case Some(Localized(all)) => |all| == |reports| && forall c :: 0 <= c < |reports| ==> reports[c] <= all[c]
            case Some(Partial(some, rest)) => Covered(reports, rest, some)
            case Some(Healthy) => false
            case None => true
    decreases Total(left)
  {
    hide Round, TotalTo, IsBlock;
    if Round(left, found, prov).Some? {
      var (left', found') := Round(left, found, prov).value;
      RoundShrinks(left, found, prov);
      RoundCovers(reports, left, found, prov);
      if left' != left && !Clear(left') { RunCovers(reports, left', found', prov); }
    }
  }

  /** A diagnosis that ends loses no reported fault, for every input. */
  lemma {:induction false} NoFaultIsLost(reports: seq<Report>, prov: Provenance)
    requires |reports| == CHILDREN
    ensures var all := BlocksOf(reports);
            match Diagnosis(reports, prov)
            case Some(Healthy) => Clear(all)
            case Some(Localized(found)) => |found| == CHILDREN && forall c :: 0 <= c < CHILDREN ==> all[c] <= found[c]
            case Some(Partial(found, left)) => Covered(all, left, found)
            case None => true
  {
    hide Run;
    var all := BlocksOf(reports);
    assert Covered(all, all, NOTHING);
    RunCovers(all, all, NOTHING, prov);
  }

  // ----- When everything is localized -----

  lemma {:induction false} EveryChildIsOnALine(c: nat) returns (l: nat)
    requires c < CHILDREN
    ensures l < CHILDREN && c in Line(l)
  {
    l := if c == 4 || c == 5 || c == 6 then 0 else if c == 1 || c == 3 then 1 else if c == 2 then 2 else 4;
    assert c in LINE_POINTS[l];
  }

  predicate WithinCap(left: Blocks) { forall c :: 0 <= c < |left| ==> |left[c]| <= MAX_BLOCK_WEIGHT }

  /** With three faults at most on a line and every line trusted, only a clear cell has nothing to decode. */
  lemma {:induction false} SomethingDecodes(left: Blocks, found: Blocks, prov: Provenance)
    requires AreBlocks(left) && |found| == CHILDREN && LinesAtMost(left, 3) && !Clear(left)
    requires prov.SelfReported? ==> WithinCap(left)
    ensures Round(left, found, prov).Some?
  {
    hide Decoded, Line;
    var c :| 0 <= c < CHILDREN && left[c] != {};
    var l := EveryChildIsOnALine(c);
    assert LineWeight(left, Line(l)) <= 3;
    LightLines(left, Line(l), prov);
    assert !Blank(left, Line(l));
  }

  lemma {:induction false} FullRun(reports: Blocks, left: Blocks, found: Blocks, prov: Provenance)
    requires AreBlocks(left) && |found| == CHILDREN && LinesAtMost(left, 3) && Partition(reports, left, found) && !Clear(left)
    requires prov.SelfReported? ==> WithinCap(left)
    ensures Run(left, found, prov) == Some(Localized(reports))
    decreases Total(left)
  {
    hide Round, TotalTo, Line;
    SomethingDecodes(left, found, prov);
    var (left', found') := Round(left, found, prov).value;
    RoundShrinks(left, found, prov);
    AtMostMore(left);
    LightRound(reports, left, found, prov);
    if Clear(left') {
      Whole(reports, left', found');
    } else {
      LinesShrink(left, left', 3);
      CapShrinks(left, left');
      FullRun(reports, left', found', prov);
    }
  }

  lemma {:induction false} AtMostMore(left: Blocks)
    requires AreBlocks(left) && LinesAtMost(left, 3)
    ensures LinesAtMost(left, 4)
  {
    hide Line, LineWeight;
  }

  lemma {:induction false} CapShrinks(left: Blocks, less: Blocks)
    requires |left| == |less| && forall c :: 0 <= c < |left| ==> less[c] <= left[c]
    ensures WithinCap(left) ==> WithinCap(less)
  {
    forall c | 0 <= c < |left|
      ensures |less[c]| <= |left[c]|
    {
      SubsetSize(less[c], left[c]);
    }
  }

  /** The verdict that localizes every reported fault. */
  function FullVerdict(reports: seq<Report>): Cell {
    if Clear(BlocksOf(reports)) then Healthy else Localized(BlocksOf(reports))
  }

  lemma {:induction false} FullyLocalized(reports: seq<Report>, prov: Provenance)
    requires |reports| == CHILDREN && LinesAtMost(BlocksOf(reports), 3)
    requires prov.SelfReported? ==> WithinCap(BlocksOf(reports))
    ensures Diagnosis(reports, prov) == Some(FullVerdict(reports))
  {
    hide Run, LinesAtMost, WithinCap;
    var left := BlocksOf(reports);
    if !Clear(left) {
      assert Partition(left, left, NOTHING);
      FullRun(left, left, NOTHING, prov);
    }
  }

  lemma {:induction false} TotalHas(left: Blocks, n: nat, a: nat, b: nat, c: nat)
    requires a < b < c < n <= |left|
    ensures |left[a]| + |left[b]| + |left[c]| <= TotalTo(left, n)
  {
    if n > c + 1 { TotalHas(left, n - 1, a, b, c); } else { TotalHasTwo(left, c, a, b); }
  }

  lemma {:induction false} TotalHasTwo(left: Blocks, n: nat, a: nat, b: nat)
    requires a < b < n <= |left|
    ensures |left[a]| + |left[b]| <= TotalTo(left, n)
  {
    if n > b + 1 { TotalHasTwo(left, n - 1, a, b); } else { TotalHasOne(left, b, a); }
  }

  lemma {:induction false} TotalHasOne(left: Blocks, n: nat, a: nat)
    requires a < n <= |left|
    ensures |left[a]| <= TotalTo(left, n)
  {
    if n > a + 1 { TotalHasOne(left, n - 1, a); }
  }

  /** At most three faults in the whole cell, wherever they are and buses included, are all localized. */
  lemma {:induction false} ThreeFaultsAreLocalized(reports: seq<Report>)
    requires |reports| == CHILDREN && Total(BlocksOf(reports)) <= 3
    ensures Diagnosis(reports, Measured) == Some(FullVerdict(reports))
  {
    hide Diagnosis, FullVerdict, Line, TotalTo;
    var left := BlocksOf(reports);
    forall l | 0 <= l < CHILDREN
      ensures LineWeight(left, Line(l)) <= 3
    {
      TotalHas(left, CHILDREN, Line(l)[0], Line(l)[1], Line(l)[2]);
    }
    FullyLocalized(reports, Measured);
  }

  /** At most one fault in each child, up to seven in all, are all localized, measured or self-reported. */
  lemma {:induction false} OneFaultPerChildIsLocalized(reports: seq<Report>, prov: Provenance)
    requires |reports| == CHILDREN && forall c :: 0 <= c < CHILDREN ==> |BlockOf(reports[c])| <= 1
    ensures Diagnosis(reports, prov) == Some(FullVerdict(reports))
  {
    hide Diagnosis, FullVerdict, Line, BlockOf;
    FullyLocalized(reports, prov);
  }

  // ----- Where the loop does not end -----

  /** If the first line decoded holds five or six faults, the round changes nothing and the loop never ends. */
  lemma {:induction false} FiveOrSixAreStuck(left: Blocks, found: Blocks, prov: Provenance, l: nat)
    requires AreBlocks(left) && |found| == CHILDREN && FirstLine(left, prov, 0) == Some(l)
    requires 5 <= LineWeight(left, Line(l)) <= 6
    ensures Round(left, found, prov).Some? && Round(left, found, prov).value.0 == left
    ensures Run(left, found, prov) == None
  {
    hide WordOn, Block, Leader, Line, FirstLine, TotalTo, LineWeight, Removed, Added;
    var line := Line(l);
    var w := WordOn(left, line);
    WordOnLine(left, line);
    DecodingByWeight(w);
    var e := Decoded(left, line, prov).value;
    BlocksApart(w, e);
    NothingRemoved(left, line, e);
    RoundShrinks(left, found, prov);
  }

  lemma {:induction false} BlocksApart(w: Mask, e: Mask)
    requires w !! e
    ensures Block(w, 0) !! Block(e, 0) && Block(w, 1) !! Block(e, 1) && Block(w, 2) !! Block(e, 2)
  {
    hide At;
  }

  /** Five faults on a trusted line are always decoded, so with no line decoded before it the loop never ends. */
  lemma {:induction false} FiveFaultsNeverEnd(left: Blocks, found: Blocks, prov: Provenance, l: nat)
    requires AreBlocks(left) && |found| == CHILDREN && l < CHILDREN
    requires forall k :: 0 <= k < l ==> Decoded(left, Line(k), prov).None?
    requires Trusted(left, Line(l), prov) && LineWeight(left, Line(l)) == 5
    ensures Run(left, found, prov) == None
  {
    hide Run, Round, FirstLine, Line, Decoded, Trusted, LineWeight;
    OddLinesDecode(left, Line(l), prov);
    FirstIs(left, prov, 0, l);
    FiveOrSixAreStuck(left, found, prov, l);
  }

  lemma {:induction false} OddLinesDecode(left: Blocks, line: seq<nat>, prov: Provenance)
    requires AreBlocks(left) && IsLine(line) && Trusted(left, line, prov) && !Even(LineWeight(left, line))
    ensures Decoded(left, line, prov).Some?
  {
    hide Leader, WordOn, Block, AreBlocks, Trusted, Blank, LineWeight, Even;
    BlankWeighsNothing(left, line);
    assert !Blank(left, line);
    WordOnLine(left, line);
    GolayCovering.OddWordsHaveLeaders(WordOn(left, line));
  }

  lemma {:induction false} BlankWeighsNothing(left: Blocks, line: seq<nat>)
    requires AreBlocks(left) && IsLine(line)
    ensures Blank(left, line) ==> Even(LineWeight(left, line))
  {
    hide IsBlock;
  }

  lemma {:induction false} FirstIs(left: Blocks, prov: Provenance, k: nat, l: nat)
    requires AreBlocks(left) && k <= l < CHILDREN && Decoded(left, Line(l), prov).Some?
    requires forall i :: k <= i < l ==> Decoded(left, Line(i), prov).None?
    ensures FirstLine(left, prov, k) == Some(l)
    decreases l - k
  {
    hide Decoded, Line, FirstLine;
    FirstLineStep(left, prov, k);
    if k < l { FirstIs(left, prov, k + 1, l); }
  }

  // ----- One faulty child -----

  /** The word with block `b` for member `m` and nothing else. */
  function Place(m: nat, b: Mask): Mask {
    FromBlocks(if m == 0 then b else {}, if m == 1 then b else {}, if m == 2 then b else {})
  }

  lemma {:induction false} PlaceParts(m: nat, b: Mask)
    requires m < 3 && IsBlock(b)
    ensures IsWord(Place(m, b)) && |Place(m, b)| == |b|
    ensures forall k :: 0 <= k < 3 ==> Block(Place(m, b), k) == if k == m then b else {}
  {
    hide FromBlocks, Block;
    FromBlocksParts(if m == 0 then b else {}, if m == 1 then b else {}, if m == 2 then b else {});
  }

  lemma {:induction false} FullIsInBoth()
    ensures InA(FULL) && InB(FULL) && InA({}) && IsBlock(FULL) && |FULL| == 8
  {
    hide InA, InB;
    InAByCoordinates(FULL);
    InAByCoordinates({});
    InBByCoordinates(FULL);
    SizeByCoordinates(FULL);
  }

  /** A block of both codes alone is a codeword. */
  lemma {:induction false} BlockAlone(m: nat, f: Mask)
    requires m < 3 && IsBlock(f) && InA(f) && InB(f) && InA({})
    ensures IsCodeword(Place(m, f))
  {
    hide Place, Block, InA, InB, IsCodeword, Xor, IsBlock;
    var w := Place(m, f);
    PlaceParts(m, f);
    XorNone({});
    XorNone(f);
    XorBack(f, f);
    assert Block(w, 0) == if m == 0 then f else {};
    assert Block(w, 1) == if m == 1 then f else {};
    assert Block(w, 2) == if m == 2 then f else {};
    assert Glue(w) == f;
    CodewordFromBlocks(w);
  }

  lemma {:induction false} CodewordFromBlocks(w: Mask)
    requires InA(Xor(Block(w, 0), Glue(w))) && InA(Xor(Block(w, 1), Glue(w))) && InB(Glue(w))
    ensures IsCodeword(w)
  {
    hide Block, Basis, Glue, Xor;
  }

  lemma {:induction false} Completes(b: Mask)
    requires IsBlock(b)
    ensures IsBlock(FULL - b) && |FULL - b| == 8 - |b| && Xor(b, FULL - b) == FULL && b !! FULL - b
  {
    FullIsInBoth();
    InFull(b);
    Complement(b, FULL);
  }

  lemma {:induction false} InFull(b: Mask)
    requires IsBlock(b)
    ensures b <= FULL
  {
  }

  lemma {:induction false} Complement(b: Mask, full: Mask)
    requires b <= full && IsBlock(full)
    ensures IsBlock(full - b) && |full - b| == |full| - |b| && Xor(b, full - b) == full && b !! full - b
  {
    assert full == b + (full - b);
    assert |full| == |b| + |full - b|;
  }

  lemma {:induction false} SameSyndrome(w: Mask, e: Mask)
    requires IsCodeword(Xor(w, e))
    ensures SyndromeOf(e) == SyndromeOf(w)
  {
    hide SyndromeOf, Xor;
    SyndromeXor(w, e);
  }

  /** Five or more faults in one block decode to the coordinates that complete the block. */
  lemma {:induction false} HeavyBlockDecodes(m: nat, b: Mask)
    requires m < 3 && IsBlock(b) && |b| >= 5
    ensures Leader(Place(m, b)) == Some(Place(m, FULL - b))
  {
    hide FromBlocks, SyndromeOf, Leader, Block, Xor, IsCodeword, InA, InB;
    var rest, none: Mask := FULL - b, {};
    var w, e := Place(m, b), Place(m, rest);
    Completes(b);
    PlaceParts(m, b);
    PlaceParts(m, rest);
    XorNone(none);
    XorOfBlocks(if m == 0 then b else none, if m == 1 then b else none, if m == 2 then b else none,
                if m == 0 then rest else none, if m == 1 then rest else none, if m == 2 then rest else none);
    assert Xor(w, e) == Place(m, FULL);
    FullIsInBoth();
    BlockAlone(m, FULL);
    SameSyndrome(w, e);
    LeaderIs(w, e);
  }

  /** Only child `c` reports faults. */
  ghost predicate OnlyChild(left: Blocks, c: nat) {
    forall d :: 0 <= d < |left| && d != c ==> left[d] == {}
  }

  lemma {:induction false} OnlyChildOnLine(left: Blocks, c: nat, line: seq<nat>, m: nat)
    requires AreBlocks(left) && c < CHILDREN && OnlyChild(left, c) && IsLine(line) && m < 3 && line[m] == c
    ensures WordOn(left, line) == Place(m, left[c])
  {
    hide FromBlocks, IsBlock;
  }

  /** A line through the heavy child is decoded to what it does not hold. */
  lemma {:induction false} HeavyLineRemovesNothing(left: Blocks, c: nat, line: seq<nat>)
    requires AreBlocks(left) && c < CHILDREN && OnlyChild(left, c) && |left[c]| >= 5 && IsLine(line) && !Blank(left, line)
    ensures Leader(WordOn(left, line)).Some?
    ensures Removed(left, line, Leader(WordOn(left, line)).value) == left
  {
    hide Leader, Removed, WordOn, Place, Block, IsBlock, Blank, OnlyChild, Xor;
    var m := SlotOf(left, c, line);
    OnlyChildOnLine(left, c, line, m);
    HeavyBlockDecodes(m, left[c]);
    var e := Place(m, FULL - left[c]);
    Completes(left[c]);
    PlaceApart(m, FULL - left[c], left, line);
    NothingRemoved(left, line, e);
  }

  lemma {:induction false} PlaceApart(m: nat, b: Mask, left: Blocks, line: seq<nat>)
    requires AreBlocks(left) && IsLine(line) && m < 3 && IsBlock(b) && left[line[m]] !! b
    ensures var e := Place(m, b);
            left[line[0]] !! Block(e, 0) && left[line[1]] !! Block(e, 1) && left[line[2]] !! Block(e, 2)
  {
    hide Place, Block, IsBlock;
    PlaceParts(m, b);
    var e := Place(m, b);
    assert Block(e, 0) == if m == 0 then b else {};
    assert Block(e, 1) == if m == 1 then b else {};
    assert Block(e, 2) == if m == 2 then b else {};
  }

  lemma {:induction false} HeavyChildRound(left: Blocks, found: Blocks, c: nat)
    requires AreBlocks(left) && |found| == CHILDREN && c < CHILDREN && OnlyChild(left, c) && |left[c]| >= 5
    ensures Round(left, found, Measured).Some? && Round(left, found, Measured).value.0 == left
  {
    hide Leader, Line, FirstLine, Removed, Added, WordOn, IsBlock, OnlyChild;
    var l := HeavyChildDecodes(left, c);
    HeavyLineRemovesNothing(left, c, Line(l));
  }

  lemma {:induction false} HeavyChildIsStuck(left: Blocks, found: Blocks, c: nat)
    requires AreBlocks(left) && |found| == CHILDREN && c < CHILDREN && OnlyChild(left, c) && |left[c]| >= 5
    ensures Run(left, found, Measured) == None
  {
    hide Round, TotalTo, IsBlock, OnlyChild;
    HeavyChildRound(left, found, c);
    RoundShrinks(left, found, Measured);
  }

  /** A line that is not blank holds the only faulty child. */
  lemma {:induction false} SlotOf(left: Blocks, c: nat, line: seq<nat>) returns (m: nat)
    requires AreBlocks(left) && c < CHILDREN && OnlyChild(left, c) && IsLine(line) && !Blank(left, line)
    ensures m < 3 && line[m] == c
  {
    hide IsBlock;
    m := if line[0] == c then 0 else if line[1] == c then 1 else 2;
  }

  lemma {:induction false} HeavyChildDecodes(left: Blocks, c: nat) returns (l: nat)
    requires AreBlocks(left) && c < CHILDREN && OnlyChild(left, c) && |left[c]| >= 5
    ensures FirstLine(left, Measured, 0) == Some(l)
    ensures l < CHILDREN && Decoded(left, Line(l), Measured).Some? && !Blank(left, Line(l))
  {
    hide Leader, Line, FirstLine, WordOn, IsBlock, OnlyChild;
    var k := EveryChildIsOnALine(c);
    HasFaults(left, c, Line(k));
    HeavyLineRemovesNothing(left, c, Line(k));
    assert Decoded(left, Line(k), Measured).Some?;
    l := FirstLine(left, Measured, 0).value;
  }

  lemma {:induction false} HasFaults(left: Blocks, c: nat, line: seq<nat>)
    requires AreBlocks(left) && c < CHILDREN && |left[c]| > 0 && IsLine(line) && c in line
    ensures !Blank(left, line)
  {
    hide IsBlock;
    assert left[c] != {};
  }

  lemma {:induction false} LightChildLines(left: Blocks, c: nat)
    requires AreBlocks(left) && c < CHILDREN && OnlyChild(left, c) && |left[c]| <= 4
    ensures LinesAtMost(left, 4)
  {
    hide Line, IsBlock;
    forall l | 0 <= l < CHILDREN
      ensures LineWeight(left, Line(l)) <= 4
    {
      var line := Line(l);
      assert |left[line[0]]| + |left[line[1]]| + |left[line[2]]| <= 4;
    }
  }

  /** When one child alone reports faults, the diagnosis ends if and only if it reports at most four. */
  lemma {:induction false} OneFaultyChildEndsIff(reports: seq<Report>, c: nat)
    requires |reports| == CHILDREN && c < CHILDREN && OnlyChild(BlocksOf(reports), c)
    ensures Diagnosis(reports, Measured).Some? <==> |BlockOf(reports[c])| <= 4
  {
    hide Run, LinesAtMost, OnlyChild, IsBlock, BlockOf;
    var left := BlocksOf(reports);
    if |left[c]| <= 4 {
      LightChildLines(left, c);
      DiagnosisIsExact(reports, Measured);
    } else {
      assert left[c] != {};
      HeavyChildIsStuck(left, NOTHING, c);
    }
  }

  /** Such a loop decodes a line in every round, forever. */
  lemma {:induction false} AHeavyChildNeverEnds(left: Blocks, found: Blocks, c: nat, n: nat)
    requires AreBlocks(left) && |found| == CHILDREN && c < CHILDREN && OnlyChild(left, c) && |left[c]| >= 5
    ensures Rounds(left, found, Measured, n).Some?
  {
    hide Rounds, Round, OnlyChild, IsBlock;
    HeavyChildRound(left, found, c);
    AStuckRoundRepeats(left, found, Measured, n);
  }
}
