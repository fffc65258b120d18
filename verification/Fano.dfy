/**
 The Fano plane's tables and its locally recoverable code: which losses peeling repairs.
 A mask is the set of its bit positions.
 */
module Fano {
  import opened Symbolic
  import opened Peeling

  const N: nat := 7

  /** The coordinates of a point over GF(2). */
  function Coords(p: nat): (bool, bool, bool) {
    if p < 4 then (true, p / 2 == 1, p % 2 == 1) else if p < 6 then (false, true, p == 5) else (false, false, true)
  }

  /** Point `p` lies on line `l`: their coordinates are orthogonal. */
  predicate Incident(p: nat, l: nat) {
    var (a, b) := (Coords(p), Coords(l));
    ((a.0 && b.0) != (a.1 && b.1)) == (a.2 && b.2)
  }

  function LineMask(l: nat): Mask { set p: nat | p < N && Incident(p, l) }

  const INCIDENCE: Lines :=
    [LineMask(0), LineMask(1), LineMask(2), LineMask(3), LineMask(4), LineMask(5), LineMask(6)]

  /** The seven lines, three points each. */
  lemma {:induction false} TheLines()
    ensures LineMask(0) == {4, 5, 6} && LineMask(1) == {1, 3, 4} && LineMask(2) == {2, 3, 6}
    ensures LineMask(3) == {1, 2, 5} && LineMask(4) == {0, 1, 6} && LineMask(5) == {0, 3, 5}
    ensures LineMask(6) == {0, 2, 4}
  {
  }

  const POINTS: Mask := {0, 1, 2, 3, 4, 5, 6}

  /** Peel the losses; bits past the seven points are ignored. */
  method PeelFano(lost: Mask) returns (rest: Mask)
    ensures rest == Core(INCIDENCE, lost * POINTS)
  {
    rest := Peel(INCIDENCE, lost * POINTS);
  }

  ghost predicate Recoverable(lost: Mask) { Core(INCIDENCE, lost * POINTS) == {} }

  method IsRecoverable(lost: Mask) returns (r: bool)
    ensures r <==> Recoverable(lost)
  {
    var rest := PeelFano(lost);
    r := rest == {};
  }

  /** Four points, no three of them on a line. */
  ghost predicate IsHyperoval(mask: Mask) {
    |mask * POINTS| == 4 && forall l :: 0 <= l < N ==> !(LineMask(l) <= mask * POINTS)
  }

  method IsHyperovalFano(mask: Mask) returns (r: bool)
    ensures r <==> IsHyperoval(mask)
  {
    var points := mask * POINTS;
    if |points| != 4 { return false; }
    for l := 0 to N
      invariant forall k :: 0 <= k < l ==> !(LineMask(k) <= points)
    {
      if LineMask(l) <= points { return false; }
    }
    return true;
  }

  // ----- Which losses are recoverable -----

  lemma {:induction false} AloneOnThree(a: nat, b: nat, c: nat, s: Mask)
    requires a != b && b != c && a != c
    ensures Exposes({a, b, c}, s) <==>
            || (a in s && b !in s && c !in s) || (a !in s && b in s && c !in s) || (a !in s && b !in s && c in s)
  {
    if a in s && b !in s && c !in s { assert Alone({a, b, c}, s, a); }
    if a !in s && b in s && c !in s { assert Alone({a, b, c}, s, b); }
    if a !in s && b !in s && c in s { assert Alone({a, b, c}, s, c); }
    if Exposes({a, b, c}, s) {
      var p :| Alone({a, b, c}, s, p);
      assert p == a || p == b || p == c;
    }
  }

  /** One line's share of being stuck. */
  predicate Balanced(a: bool, b: bool, c: bool) {
    !(a && !b && !c) && !(!a && b && !c) && !(!a && !b && c)
  }

  lemma {:induction false} StuckLines(s: Mask)
    ensures Stuck(INCIDENCE, s) <==>
            && Balanced(4 in s, 5 in s, 6 in s) && Balanced(1 in s, 3 in s, 4 in s) && Balanced(2 in s, 3 in s, 6 in s)
            && Balanced(1 in s, 2 in s, 5 in s) && Balanced(0 in s, 1 in s, 6 in s) && Balanced(0 in s, 3 in s, 5 in s)
            && Balanced(0 in s, 2 in s, 4 in s)
  {
    hide Exposes, LineMask;
    TheLines();
    AloneOnThree(4, 5, 6, s);
    AloneOnThree(1, 3, 4, s);
    AloneOnThree(2, 3, 6, s);
    AloneOnThree(1, 2, 5, s);
    AloneOnThree(0, 1, 6, s);
    AloneOnThree(0, 3, 5, s);
    AloneOnThree(0, 2, 4, s);
    assert INCIDENCE[0] == {4, 5, 6} && INCIDENCE[1] == {1, 3, 4} && INCIDENCE[2] == {2, 3, 6} && INCIDENCE[3] == {1, 2, 5};
    assert INCIDENCE[4] == {0, 1, 6} && INCIDENCE[5] == {0, 3, 5} && INCIDENCE[6] == {0, 2, 4};
  }

  /** The complement of a line: four points, two on every other line and none on it. */
  function OffLine(l: nat): Mask { POINTS - LineMask(l) }

  lemma {:induction false} TheComplements()
    ensures OffLine(0) == {0, 1, 2, 3} && OffLine(1) == {0, 2, 5, 6} && OffLine(2) == {0, 1, 4, 5}
    ensures OffLine(3) == {0, 3, 4, 6} && OffLine(4) == {2, 3, 4, 5} && OffLine(5) == {1, 2, 4, 6}
    ensures OffLine(6) == {1, 3, 5, 6}
  {
    hide LineMask;
    TheLines();
  }

  ghost predicate HoldsAComplement(s: Mask) {
    exists l :: 0 <= l < N && OffLine(l) <= s
  }

  lemma {:induction false} HoldsWhich(s: Mask)
    ensures HoldsAComplement(s) <==>
            || {0, 1, 2, 3} <= s || {0, 2, 5, 6} <= s || {0, 1, 4, 5} <= s || {0, 3, 4, 6} <= s
            || {2, 3, 4, 5} <= s || {1, 2, 4, 6} <= s || {1, 3, 5, 6} <= s
  {
    hide OffLine;
    TheComplements();
    if {0, 1, 2, 3} <= s { assert OffLine(0) <= s; }
    if {0, 2, 5, 6} <= s { assert OffLine(1) <= s; }
    if {0, 1, 4, 5} <= s { assert OffLine(2) <= s; }
    if {0, 3, 4, 6} <= s { assert OffLine(3) <= s; }
    if {2, 3, 4, 5} <= s { assert OffLine(4) <= s; }
    if {1, 2, 4, 6} <= s { assert OffLine(5) <= s; }
    if {1, 3, 5, 6} <= s { assert OffLine(6) <= s; }
  }

  lemma {:induction false} ComplementIsStuck(l: nat)
    requires l < N
    ensures Stuck(INCIDENCE, OffLine(l)) && OffLine(l) <= POINTS && OffLine(l) != {}
  {
    hide Stuck, OffLine;
    TheComplements();
    StuckLines(OffLine(l));
  }

  /** A stuck set holds the complement of some line. */
  lemma {:induction false} StuckHoldsAComplement(s: Mask)
    requires s <= POINTS && s != {} && Stuck(INCIDENCE, s)
    ensures HoldsAComplement(s)
  {
    hide Stuck, HoldsAComplement;
    StuckLines(s);
    HoldsWhich(s);
  }

  /** Losses are recoverable exactly when they hold no line's complement: when the survivors lie on no line. */
  lemma {:induction false} RecoverableIff(lost: Mask)
    ensures Recoverable(lost) <==> !HoldsAComplement(lost * POINTS)
    ensures Recoverable(lost) <==> forall l :: 0 <= l < N ==> !(POINTS - lost <= LineMask(l))
  {
    hide Stuck, Core, OffLine, LineMask;
    var core := Core(INCIDENCE, lost * POINTS);
    if core != {} {
      StuckHoldsAComplement(core);
      var l :| 0 <= l < N && OffLine(l) <= core;
      assert OffLine(l) <= lost * POINTS;
    }
    if HoldsAComplement(lost * POINTS) {
      var l :| 0 <= l < N && OffLine(l) <= lost * POINTS;
      ComplementIsStuck(l);
      assert OffLine(l) <= core;
    }
    forall l | 0 <= l < N
      ensures OffLine(l) <= lost * POINTS <==> POINTS - lost <= LineMask(l)
    {
      SurvivorsOnLine(lost, l);
    }
  }

  lemma {:induction false} SurvivorsOnLine(lost: Mask, l: nat)
    ensures OffLine(l) <= lost * POINTS <==> POINTS - lost <= LineMask(l)
  {
    hide LineMask;
    if OffLine(l) <= lost * POINTS {
      forall p | p in POINTS - lost
        ensures p in LineMask(l)
      {
        assert p !in OffLine(l);
      }
    }
  }

  lemma {:induction false} ComplementSize(l: nat)
    requires l < N
    ensures |OffLine(l)| == 4
  {
    hide OffLine;
    TheComplements();
  }

  /** Any three losses are recovered, and four are unless they are a hyperoval. */
  lemma {:induction false} FailsFirstOnHyperovals(lost: Mask)
    ensures |lost * POINTS| <= 3 ==> Recoverable(lost)
    ensures |lost * POINTS| == 4 ==> (Recoverable(lost) <==> !IsHyperoval(lost))
  {
    hide Recoverable, HoldsAComplement, IsHyperoval;
    RecoverableIff(lost);
    SmallestComplement(lost * POINTS);
    if |lost * POINTS| == 4 { HyperovalIff(lost); }
  }

  lemma {:induction false} SmallestComplement(s: Mask)
    ensures HoldsAComplement(s) ==> |s| >= 4
  {
    hide OffLine;
    if HoldsAComplement(s) {
      var l :| 0 <= l < N && OffLine(l) <= s;
      ComplementSize(l);
      SubsetSize(OffLine(l), s);
    }
  }

  lemma {:induction false} SubsetSize(a: Mask, b: Mask)
    requires a <= b
    ensures |a| <= |b| && (|a| == |b| ==> a == b)
  {
    assert b == a + (b - a);
  }

  /** Among four losses, a hyperoval is the complement of a line. */
  lemma {:induction false} HyperovalIff(lost: Mask)
    requires |lost * POINTS| == 4
    ensures IsHyperoval(lost) <==> HoldsAComplement(lost * POINTS)
  {
    hide LineMask, OffLine, HoldsAComplement;
    var s := lost * POINTS;
    TheLines();
    HoldsWhich(s);
    SizeByPoints(s);
  }

  function One(b: bool): nat { if b then 1 else 0 }

  lemma {:induction false} SizeByPoints(s: Mask)
    requires s <= POINTS
    ensures |s| == One(0 in s) + One(1 in s) + One(2 in s) + One(3 in s) + One(4 in s) + One(5 in s) + One(6 in s)
  {
    var s1 := Without(s, 0);
    var s2 := Without(s1, 1);
    var s3 := Without(s2, 2);
    var s4 := Without(s3, 3);
    var s5 := Without(s4, 4);
    var s6 := Without(s5, 5);
    var s7 := Without(s6, 6);
    assert s7 == {};
  }

  lemma {:induction false} Without(s: Mask, p: nat) returns (t: Mask)
    ensures |s| == |t| + One(p in s) && t <= s
    ensures forall q :: q in t <==> q in s && q != p
  {
    t := s - {p};
  }
}
