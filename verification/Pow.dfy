/**
 The proof-of-work difficulty controller, closed over the plant it is designed against: one step of difficulty
 halves the admission rate.
 */
module Pow {

  const U32_MAX: nat := 0xFFFF_FFFF

  datatype Limits = Limits(floor: nat, ceil: nat, target: nat)

  predicate Valid(l: Limits) { l.floor <= l.ceil <= U32_MAX && 1 <= l.target <= U32_MAX }

  /** The least number of admissions that does not ease: half the target, rounded up. */
  function Half(target: nat): nat { (target + 1) / 2 }

  /** The difficulty after a window. */
  function Next(l: Limits, d: nat, admitted: nat): (r: nat)
    requires Valid(l) && l.floor <= d <= l.ceil
    ensures l.floor <= r <= l.ceil && d - 1 <= r <= d + 1
  {
    if admitted > l.target then (if d + 1 < l.ceil then d + 1 else l.ceil)
    else if admitted < Half(l.target) then (if d == 0 || d - 1 < l.floor then l.floor else d - 1)
    else d
  }

  class AdaptiveDifficulty {
    var difficulty: nat
    const limits: Limits

    ghost predicate Ok()
      reads this
    {
      Valid(limits) && limits.floor <= difficulty <= limits.ceil
    }

    constructor (floor: nat, ceil: nat, target: nat)
      requires floor <= U32_MAX && ceil <= U32_MAX && target <= U32_MAX
      ensures Ok() && difficulty == floor && limits.floor == floor
      ensures limits.ceil == (if ceil < floor then floor else ceil)
      ensures limits.target == (if target == 0 then 1 else target)
    {
      difficulty := floor;
      limits := Limits(floor, if ceil < floor then floor else ceil, if target == 0 then 1 else target);
    }

    /** Defined wherever the step does not overflow before it is clamped, so for every ceiling below the maximum. */
    method ObserveWindow(admitted: nat)
      requires Ok() && (difficulty < U32_MAX || admitted <= limits.target)
      modifies this
      ensures Ok() && difficulty == Next(limits, old(difficulty), admitted)
    {
      if admitted > limits.target {
        difficulty := difficulty + 1;
        if difficulty > limits.ceil { difficulty := limits.ceil; }
      } else if admitted < (limits.target + 1) / 2 {
        if difficulty > 0 { difficulty := difficulty - 1; }
        if difficulty < limits.floor { difficulty := limits.floor; }
      }
    }
  }

  // ----- The closed loop -----

  function Pow2(k: nat): (p: nat)
    ensures p >= 1
  {
    if k == 0 then 1 else 2 * Pow2(k - 1)
  }

  function Share(load: nat, parts: nat): nat
    requires parts > 0
  {
    load / parts
  }

  /** The plant: `load` admissions a window at the floor, halved by each step above it. */
  function Admitted(l: Limits, load: nat, d: nat): nat
    requires l.floor <= d
  {
    Share(load, Pow2(d - l.floor))
  }

  /** The difficulty after `n` windows, from `start`. */
  function Difficulty(l: Limits, load: nat, start: nat, n: nat): (d: nat)
    requires Valid(l) && l.floor <= start <= l.ceil
    ensures l.floor <= d <= l.ceil
    decreases n
  {
    if n == 0 then start
    else
      var d := Difficulty(l, load, start, n - 1);
      Next(l, d, Admitted(l, load, d))
  }

  lemma {:induction false} HalveTwice(a: nat, p: nat)
    requires p > 0
    ensures a / (2 * p) == a / p / 2
  {
    var q := a / p;
    assert a == q * p + a % p;
    assert q == 2 * (q / 2) + q % 2;
    assert a == (q / 2) * (2 * p) + ((q % 2) * p + a % p);
    assert (q % 2) * p <= p;
    Quotient(a, 2 * p, q / 2, (q % 2) * p + a % p);
  }

  lemma {:induction false} Quotient(a: nat, b: nat, q: nat, r: nat)
    requires b > 0 && a == q * b + r && r < b
    ensures a / b == q
  {
    var k := a / b;
    assert a == k * b + a % b;
    Grows(q + 1, k, b);
    Grows(k + 1, q, b);
    assert (q + 1) * b == q * b + b && (k + 1) * b == k * b + b;
  }

  lemma {:induction false} Grows(x: nat, y: nat, b: nat)
    ensures x <= y ==> x * b <= y * b
  {
  }

  /** One step of difficulty halves the admissions. */
  lemma {:induction false} OneStepHalves(l: Limits, load: nat, d: nat)
    requires l.floor <= d
    ensures Admitted(l, load, d + 1) == Admitted(l, load, d) / 2
  {
    HalveTwice(load, Pow2(d - l.floor));
  }

  predicate Raises(l: Limits, load: nat, d: nat)
    requires l.floor <= d
  {
    Admitted(l, load, d) > l.target && d < l.ceil
  }

  predicate Eases(l: Limits, load: nat, d: nat)
    requires l.floor <= d
  {
    Admitted(l, load, d) < Half(l.target) && d > l.floor
  }

  /** A raise is not followed by an ease, nor an ease by a raise: the band is one step wide. */
  lemma {:induction false} NoReversal(l: Limits, load: nat, d: nat)
    requires Valid(l) && l.floor <= d
    ensures Raises(l, load, d) ==> !Eases(l, load, d + 1)
    ensures d > l.floor && Eases(l, load, d) ==> !Raises(l, load, d - 1)
  {
    hide Admitted;
    OneStepHalves(l, load, d);
    if d > l.floor { OneStepHalves(l, load, d - 1); }
  }

  lemma {:induction false} StepIs(l: Limits, load: nat, d: nat)
    requires Valid(l) && l.floor <= d <= l.ceil
    ensures Next(l, d, Admitted(l, load, d)) ==
            if Raises(l, load, d) then d + 1 else if Eases(l, load, d) then d - 1 else d
  {
    hide Admitted;
  }

  /** A loop that does not ease never eases: it rises by one each window until it holds. */
  lemma {:induction false} Rising(l: Limits, load: nat, start: nat, n: nat)
    requires Valid(l) && l.floor <= start <= l.ceil && !Eases(l, load, start)
    ensures var d := Difficulty(l, load, start, n);
            && !Eases(l, load, d) && d >= start
            && (Raises(l, load, d) ==> d == start + n)
            && Difficulty(l, load, start, n + 1) >= d
    decreases n
  {
    hide Eases, Raises, Admitted, Next;
    if n > 0 {
      Rising(l, load, start, n - 1);
      var d := Difficulty(l, load, start, n - 1);
      StepIs(l, load, d);
      NoReversal(l, load, d);
    }
    StepIs(l, load, Difficulty(l, load, start, n));
  }

  lemma {:induction false} Falling(l: Limits, load: nat, start: nat, n: nat)
    requires Valid(l) && l.floor <= start <= l.ceil && !Raises(l, load, start)
    ensures var d := Difficulty(l, load, start, n);
            && !Raises(l, load, d) && d <= start
            && (Eases(l, load, d) ==> d == start - n)
            && Difficulty(l, load, start, n + 1) <= d
    decreases n
  {
    hide Eases, Raises, Admitted, Next;
    if n > 0 {
      Falling(l, load, start, n - 1);
      var d := Difficulty(l, load, start, n - 1);
      StepIs(l, load, d);
      EasesAboveFloor(l, load, d);
      if d > l.floor { NoReversal(l, load, d); }
    }
    StepIs(l, load, Difficulty(l, load, start, n));
  }

  lemma {:induction false} EasesAboveFloor(l: Limits, load: nat, d: nat)
    requires l.floor <= d
    ensures Eases(l, load, d) ==> d > l.floor
    ensures Raises(l, load, d) ==> d < l.ceil
    ensures !(Eases(l, load, d) && Raises(l, load, d))
  {
    hide Admitted;
  }

  /**
   The closed loop, for every load, target, floor, ceiling below the integer maximum and starting difficulty: it
   never reverses direction, and after at most `ceil - floor` windows it is at a fixed point and stays there.
   */
  lemma {:induction false} ClosedLoopIsStable(l: Limits, load: nat, start: nat)
    requires Valid(l) && l.ceil < U32_MAX && l.floor <= start <= l.ceil
    ensures || (forall n: nat :: Difficulty(l, load, start, n) <= Difficulty(l, load, start, n + 1))
            || (forall n: nat :: Difficulty(l, load, start, n) >= Difficulty(l, load, start, n + 1))
    ensures forall n: nat :: n >= l.ceil - l.floor ==>
              Difficulty(l, load, start, n + 1) == Difficulty(l, load, start, n)
  {
    hide Eases, Raises, Difficulty, Next, Admitted;
    EasesAboveFloor(l, load, start);
    forall n: nat
      ensures !Eases(l, load, start) ==> Difficulty(l, load, start, n) <= Difficulty(l, load, start, n + 1)
      ensures !Raises(l, load, start) ==> Difficulty(l, load, start, n) >= Difficulty(l, load, start, n + 1)
      ensures n >= l.ceil - l.floor ==> Difficulty(l, load, start, n + 1) == Difficulty(l, load, start, n)
    {
      if !Eases(l, load, start) { Rising(l, load, start, n); }
      if !Raises(l, load, start) { Falling(l, load, start, n); }
      if n >= l.ceil - l.floor { Settled(l, load, start, n); }
    }
  }

  lemma {:induction false} Settled(l: Limits, load: nat, start: nat, n: nat)
    requires Valid(l) && l.floor <= start <= l.ceil && n >= l.ceil - l.floor
    ensures Difficulty(l, load, start, n + 1) == Difficulty(l, load, start, n)
  {
    hide Eases, Raises, Admitted, Next;
    var d := Difficulty(l, load, start, n);
    EasesAboveFloor(l, load, start);
    EasesAboveFloor(l, load, d);
    if !Eases(l, load, start) { Rising(l, load, start, n); } else { Falling(l, load, start, n); }
    StepIs(l, load, d);
  }

  lemma {:induction false} RoseThrough(l: Limits, load: nat, start: nat, n: nat, e: nat)
    requires Valid(l) && l.floor <= start <= l.ceil && !Eases(l, load, start) && start <= e < Difficulty(l, load, start, n)
    ensures Admitted(l, load, e) > l.target
    decreases n
  {
    hide Admitted, Next;
    var before := Difficulty(l, load, start, n - 1);
    StepIs(l, load, before);
    Rising(l, load, start, n - 1);
    if e < before { RoseThrough(l, load, start, n - 1, e); }
  }

  lemma {:induction false} FellThrough(l: Limits, load: nat, start: nat, n: nat, e: nat)
    requires Valid(l) && l.floor <= start <= l.ceil && !Raises(l, load, start) && Difficulty(l, load, start, n) < e <= start
    ensures 2 * Admitted(l, load, e) < l.target
    decreases n
  {
    hide Admitted, Next;
    var before := Difficulty(l, load, start, n - 1);
    StepIs(l, load, before);
    Falling(l, load, start, n - 1);
    if before < e { FellThrough(l, load, start, n - 1, e); }
  }

  /** Admissions between half the target and the target. */
  predicate InBand(l: Limits, load: nat, d: nat)
    requires l.floor <= d
  {
    Admitted(l, load, d) <= l.target <= 2 * Admitted(l, load, d)
  }

  /**
   Where the loop settles, from any start: where it is, if the admissions are in the band there; otherwise at the first
   difficulty in the direction that mends them where they are, or at the limit that way.
   */
  lemma {:induction false} SettlesInTheBand(l: Limits, load: nat, start: nat, n: nat)
    requires Valid(l) && l.floor <= start <= l.ceil && n >= l.ceil - l.floor
    ensures var d := Difficulty(l, load, start, n);
            && (InBand(l, load, start) ==> d == start)
            && (Admitted(l, load, start) > l.target ==>
                  && d >= start && (d == l.ceil || InBand(l, load, d))
                  && (forall e :: start <= e < d ==> Admitted(l, load, e) > l.target))
            && (2 * Admitted(l, load, start) < l.target ==>
                  && d <= start && (d == l.floor || InBand(l, load, d))
                  && (forall e :: d < e <= start ==> 2 * Admitted(l, load, e) < l.target))
  {
    hide Admitted, Difficulty, Next;
    var d := Difficulty(l, load, start, n);
    SettledIs(l, load, start, n);
    if !Eases(l, load, start) { Rising(l, load, start, n); }
    if !Raises(l, load, start) { Falling(l, load, start, n); }
    if Admitted(l, load, start) > l.target {
      forall e | start <= e < d
        ensures Admitted(l, load, e) > l.target
      {
        RoseThrough(l, load, start, n, e);
      }
      if start < d { OneStepHalves(l, load, d - 1); }
    }
    if 2 * Admitted(l, load, start) < l.target {
      forall e | d < e <= start
        ensures 2 * Admitted(l, load, e) < l.target
      {
        FellThrough(l, load, start, n, e);
      }
      if d < start { OneStepHalves(l, load, d); }
    }
  }

  lemma {:induction false} SettledIs(l: Limits, load: nat, start: nat, n: nat)
    requires Valid(l) && l.floor <= start <= l.ceil && n >= l.ceil - l.floor
    ensures var d := Difficulty(l, load, start, n); !Raises(l, load, d) && !Eases(l, load, d)
  {
    hide Admitted, Next, Difficulty;
    var d := Difficulty(l, load, start, n);
    Settled(l, load, start, n);
    StepIs(l, load, d);
    assert Difficulty(l, load, start, n + 1) == Next(l, d, Admitted(l, load, d)) by { OneWindowMore(l, load, start, n); }
  }

  lemma {:induction false} OneWindowMore(l: Limits, load: nat, start: nat, n: nat)
    requires Valid(l) && l.floor <= start <= l.ceil
    ensures var d := Difficulty(l, load, start, n); Difficulty(l, load, start, n + 1) == Next(l, d, Admitted(l, load, d))
  {
  }

  /** From the floor the loop settles at the least difficulty that keeps the load within target, or at the ceiling. */
  lemma {:induction false} SettlesAtTheLeast(l: Limits, load: nat, n: nat)
    requires Valid(l) && l.ceil < U32_MAX && n >= l.ceil - l.floor
    ensures var d := Difficulty(l, load, l.floor, n);
            && (d == l.ceil || Admitted(l, load, d) <= l.target)
            && (forall e :: l.floor <= e < d ==> Admitted(l, load, e) > l.target)
  {
    hide Admitted, Difficulty;
    var d := Difficulty(l, load, l.floor, n);
    Rising(l, load, l.floor, n);
    forall e | l.floor <= e < d
      ensures Admitted(l, load, e) > l.target
    {
      RoseThrough(l, load, l.floor, n, e);
    }
  }
}
