/**
 Peeling over any incidence structure: lines are sets of points, and a point that is the only loss on some
 line is repaired.  What remains is the core: the largest set of losses that no line meets in one point.
 */
module Peeling {
  import opened Symbolic

  type Mask = set<nat>
  type Lines = seq<set<nat>>

  /** `p` is the only loss on `line`. */
  ghost predicate Alone(line: Mask, lost: Mask, p: nat) {
    p in line && p in lost && forall q :: q in line && q in lost ==> q == p
  }

  ghost predicate Exposes(line: Mask, lost: Mask) {
    exists p :: Alone(line, lost, p)
  }

  /** No line meets the set in exactly one point. */
  ghost predicate Stuck(lines: Lines, s: Mask) {
    forall l :: 0 <= l < |lines| ==> !Exposes(lines[l], s)
  }

  /** The largest stuck subset. */
  ghost predicate IsCore(lines: Lines, lost: Mask, core: Mask) {
    && core <= lost
    && Stuck(lines, core)
    && forall s :: s <= lost && Stuck(lines, s) ==> s <= core
  }

  lemma {:induction false} CoreIsUnique(lines: Lines, lost: Mask, a: Mask, b: Mask)
    requires IsCore(lines, lost, a) && IsCore(lines, lost, b)
    ensures a == b
  {
    hide Stuck;
  }

  /** A stuck set never holds a point that is alone in a larger one. */
  lemma {:induction false} StuckAvoidsAlone(lines: Lines, lost: Mask, s: Mask, l: nat, p: nat)
    requires l < |lines| && Alone(lines[l], lost, p) && s <= lost && Stuck(lines, s)
    ensures p !in s
  {
    if p in s {
      assert Alone(lines[l], s, p);
      assert Exposes(lines[l], s);
    }
  }

  /** Repairing an exposed point does not change the core. */
  lemma {:induction false} RepairKeepsCore(lines: Lines, lost: Mask, l: nat, p: nat, core: Mask)
    requires l < |lines| && Alone(lines[l], lost, p)
    ensures IsCore(lines, lost - {p}, core) <==> IsCore(lines, lost, core)
  {
    hide Stuck, Alone;
    forall s | s <= lost && Stuck(lines, s)
      ensures s <= lost - {p}
    {
      StuckAvoidsAlone(lines, lost, s, l, p);
    }
  }

  lemma {:induction false} CoreExists(lines: Lines, lost: Mask) returns (core: Mask)
    ensures IsCore(lines, lost, core)
    decreases |lost|
  {
    if Stuck(lines, lost) {
      core := lost;
    } else {
      var l :| 0 <= l < |lines| && Exposes(lines[l], lost);
      var p :| Alone(lines[l], lost, p);
      core := CoreExists(lines, lost - {p});
      RepairKeepsCore(lines, lost, l, p, core);
    }
  }

  ghost function Core(lines: Lines, lost: Mask): (core: Mask)
    ensures IsCore(lines, lost, core)
  {
    assert exists core :: IsCore(lines, lost, core) by {
      var core := CoreExists(lines, lost);
    }
    var core :| IsCore(lines, lost, core);
    core
  }

  /** The core depends on which lines there are, not on their order. */
  lemma {:induction false} OrderIsIrrelevant(lines: Lines, others: Lines, lost: Mask)
    requires forall line :: line in lines <==> line in others
    ensures Core(lines, lost) == Core(others, lost)
  {
    hide Core;
    forall s: Mask
      ensures Stuck(lines, s) <==> Stuck(others, s)
    {
      SameStuck(lines, others, s);
      SameStuck(others, lines, s);
    }
    assert IsCore(others, lost, Core(lines, lost)) by { hide Stuck; }
    CoreIsUnique(others, lost, Core(lines, lost), Core(others, lost));
  }

  lemma {:induction false} SameStuck(lines: Lines, others: Lines, s: Mask)
    requires forall line :: line in others ==> line in lines
    ensures Stuck(lines, s) ==> Stuck(others, s)
  {
    hide Exposes;
    if Stuck(lines, s) {
      forall l | 0 <= l < |others|
        ensures !Exposes(others[l], s)
      {
        assert others[l] in lines;
      }
    }
  }

  // ----- The mask-only decoder -----

  /** The only loss on a line, if there is exactly one. */
  method OnlyLoss(line: Mask, lost: Mask) returns (p: Option<nat>)
    ensures p.Some? ==> Alone(line, lost, p.value)
    ensures p.None? ==> !Exposes(line, lost)
  {
    var onLine := line * lost;
    if |onLine| == 1 {
      var q: nat :| q in onLine;
      assert onLine - {q} == {} by { assert |onLine - {q}| == 0; }
      assert forall r :: r in line && r in lost ==> r in onLine;
      return Some(q);
    }
    ExposedOnce(line, lost);
    return None;
  }

  lemma {:induction false} ExposedOnce(line: Mask, lost: Mask)
    ensures Exposes(line, lost) ==> |line * lost| == 1
  {
    if Exposes(line, lost) {
      var q: nat :| Alone(line, lost, q);
      assert line * lost == {q};
    }
  }

  /** Sweep the lines until a sweep repairs nothing; what is left is the core. */
  method Peel(lines: Lines, lost: Mask) returns (rest: Mask)
    ensures rest == Core(lines, lost)
  {
    hide Core;
    rest := lost;
    var progressed := true;
    while progressed
      invariant IsCore(lines, rest, Core(lines, lost))
      invariant !progressed ==> Stuck(lines, rest)
      decreases |rest|, progressed
    {
      var before := rest;
      progressed := false;
      for l := 0 to |lines|
        invariant IsCore(lines, rest, Core(lines, lost))
        invariant rest <= before && progressed == (rest != before)
        invariant !progressed ==> forall k :: 0 <= k < l ==> !Exposes(lines[k], rest)
      {
        hide IsCore, Stuck, Exposes, Alone;
        var p := OnlyLoss(lines[l], rest);
        if p.Some? {
          RepairKeepsCore(lines, rest, l, p.value, Core(lines, lost));
          AloneIsLost(lines[l], rest, p.value);
          rest := rest - {p.value};
          progressed := true;
        }
      }
      if progressed { Shrinks(rest, before); }
    }
    CoreOfStuck(lines, rest);
    CoreIsUnique(lines, rest, rest, Core(lines, lost));
  }

  lemma {:induction false} AloneIsLost(line: Mask, lost: Mask, p: nat)
    requires Alone(line, lost, p)
    ensures p in lost && p in line
  {
  }

  lemma {:induction false} Shrinks(a: Mask, b: Mask)
    requires a <= b && a != b
    ensures |a| < |b|
  {
    assert b == a + (b - a);
    assert |b| == |a| + |b - a|;
  }

  lemma {:induction false} CoreOfStuck(lines: Lines, s: Mask)
    requires Stuck(lines, s)
    ensures IsCore(lines, s, s)
  {
    hide Stuck;
  }

  // ----- The decoder that carries bytes -----

  function Plus(a: bv8, b: bv8): bv8 { a ^ b }

  lemma {:induction false} PlusLaws(a: bv8, b: bv8, c: bv8)
    ensures Plus(Plus(a, b), c) == Plus(Plus(a, c), b)
    ensures Plus(Plus(a, b), b) == a && Plus(a, 0) == a && Plus(0, a) == a
  {
  }

  /** The XOR of a word's symbols on a line, over the first `k` points. */
  function Parity(word: seq<bv8>, line: Mask, k: nat): bv8
    requires k <= |word|
  {
    if k == 0 then 0 else Plus(Parity(word, line, k - 1), if k - 1 in line then word[k - 1] else 0)
  }

  /** Every line is a parity check of the word. */
  ghost predicate IsCodeword(lines: Lines, word: seq<bv8>) {
    forall l :: 0 <= l < |lines| ==> Parity(word, lines[l], |word|) == 0
  }

  /** Every known symbol is the word's. */
  ghost predicate Agrees(symbols: seq<Option<bv8>>, word: seq<bv8>) {
    && |symbols| == |word|
    && forall p :: 0 <= p < |symbols| && symbols[p].Some? ==> symbols[p].value == word[p]
  }

  function Erased(symbols: seq<Option<bv8>>): (mask: Mask)
    ensures forall p: nat :: p in mask <==> p < |symbols| && symbols[p].None?
  {
    set p: nat | p < |symbols| && symbols[p].None?
  }

  /** The XOR of the known symbols on a line other than `missing`, over the first `k` points. */
  function Rebuilt(symbols: seq<Option<bv8>>, line: Mask, missing: nat, k: nat): bv8
    requires k <= |symbols|
  {
    if k == 0 then 0
    else
      Plus(Rebuilt(symbols, line, missing, k - 1),
           if k - 1 in line && k - 1 != missing && symbols[k - 1].Some? then symbols[k - 1].value else 0)
  }

  lemma {:induction false} RebuiltIsParity(symbols: seq<Option<bv8>>, word: seq<bv8>, line: Mask, missing: nat, k: nat)
    requires Agrees(symbols, word) && k <= |symbols| && missing < |word| && missing in line
    requires forall p :: p in line && p != missing && p < |symbols| ==> symbols[p].Some?
    ensures Rebuilt(symbols, line, missing, k) == Plus(Parity(word, line, k), if missing < k then word[missing] else 0)
  {
    hide Plus;
    var m := word[missing];
    if k == 0 {
      PlusLaws(0, 0, 0);
    } else {
      RebuiltIsParity(symbols, word, line, missing, k - 1);
      var before := Parity(word, line, k - 1);
      PlusLaws(before, m, 0);
      PlusLaws(before, 0, m);
      PlusLaws(before, m, word[k - 1]);
      PlusLaws(before, 0, word[k - 1]);
    }
  }

  method XorOthers(symbols: array<Option<bv8>>, line: Mask, missing: nat) returns (value: bv8)
    ensures value == Rebuilt(symbols[..], line, missing, symbols.Length)
  {
    value := 0;
    for p := 0 to symbols.Length
      invariant value == Rebuilt(symbols[..], line, missing, p)
    {
      var s := symbols[p];
      value := Plus(value, if p in line && p != missing && s.Some? then s.value else 0);
    }
  }

  /** The symbol put in place of an only loss is the one the line's check demands. */
  lemma {:induction false} RepairAgrees(
    lines: Lines, symbols: seq<Option<bv8>>, l: nat, p: nat, word: seq<bv8>)
    requires l < |lines| && Alone(lines[l], Erased(symbols), p)
    requires Agrees(symbols, word) && IsCodeword(lines, word)
    ensures p < |symbols|
    ensures Agrees(symbols[p := Some(Rebuilt(symbols, lines[l], p, |symbols|))], word)
  {
    hide Parity, Rebuilt, Plus;
    RebuiltIsParity(symbols, word, lines[l], p, |symbols|);
    PlusLaws(word[p], 0, 0);
  }

  lemma {:induction false} RepairedErased(symbols: seq<Option<bv8>>, p: nat, value: bv8)
    requires p < |symbols|
    ensures Erased(symbols[p := Some(value)]) == Erased(symbols) - {p}
  {
  }

  /**
   Fill in every recoverable symbol in place: what stays erased is the core of the erased points, and every
   word that satisfies the checks and agreed with the symbols still does.
   */
  method PeelSymbols(lines: Lines, symbols: array<Option<bv8>>) returns (lost: Mask)
    modifies symbols
    ensures lost == Erased(symbols[..]) == Core(lines, Erased(old(symbols[..])))
    ensures forall word :: Agrees(old(symbols[..]), word) && IsCodeword(lines, word) ==> Agrees(symbols[..], word)
  {
    hide Core, Agrees, IsCodeword, Rebuilt, Plus;
    ghost var core := Core(lines, Erased(symbols[..]));
    ghost var start := symbols[..];
    lost := Erased(symbols[..]);
    var progressed := true;
    while progressed
      invariant lost == Erased(symbols[..]) && IsCore(lines, lost, core)
      invariant !progressed ==> Stuck(lines, lost)
      invariant forall word :: Agrees(start, word) && IsCodeword(lines, word) ==> Agrees(symbols[..], word)
      decreases |lost|, progressed
    {
      var before := lost;
      progressed := false;
      for l := 0 to |lines|
        invariant lost == Erased(symbols[..]) && IsCore(lines, lost, core)
        invariant lost <= before && progressed == (lost != before)
        invariant !progressed ==> forall k :: 0 <= k < l ==> !Exposes(lines[k], lost)
        invariant forall word :: Agrees(start, word) && IsCodeword(lines, word) ==> Agrees(symbols[..], word)
      {
        hide IsCore, Stuck, Exposes, Alone;
        var p := OnlyLoss(lines[l], lost);
        if p.Some? {
          RepairKeepsCore(lines, lost, l, p.value, core);
          AloneIsLost(lines[l], lost, p.value);
          var value := XorOthers(symbols, lines[l], p.value);
          ghost var known := symbols[..];
          forall word | Agrees(start, word) && IsCodeword(lines, word)
            ensures Agrees(known[p.value := Some(value)], word)
          {
            RepairAgrees(lines, known, l, p.value, word);
          }
          RepairedErased(known, p.value, value);
          symbols[p.value] := Some(value);
          assert symbols[..] == known[p.value := Some(value)];
          lost := lost - {p.value};
          progressed := true;
        }
      }
      if progressed { Shrinks(lost, before); }
    }
    CoreOfStuck(lines, lost);
    CoreIsUnique(lines, lost, lost, core);
  }
}
