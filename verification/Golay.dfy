/**
 The federation grammar: the extended Golay code as a Turyn construction over three 8-bit blocks, and the
 location of up to three faults.  A word is the set of its bit positions below 24 and a block the set of its
 positions below 8; member 0 holds the most significant block, and bit 7 of a block is its bus.
 */
module Golay {
  import opened Symbolic
  import LeastNumber

  type Mask = set<nat>

  const T: nat := 3

  predicate IsWord(w: Mask) { forall i :: i in w ==> i < 24 }

  predicate IsBlock(b: Mask) { forall i :: i in b ==> i < 8 }

  function Xor(s: Mask, t: Mask): Mask { (s - t) + (t - s) }

  /** The word position of coordinate `c` of member `m`. */
  function At(m: nat, c: nat): nat
    requires m < 3
  {
    8 * (2 - m) + c
  }

  /** The block of member `m`. */
  function Block(w: Mask, m: nat): (b: Mask)
    requires m < 3
    ensures IsBlock(b)
    ensures forall c: nat :: c in b <==> c < 8 && At(m, c) in w
  {
    set c: nat | c < 8 && At(m, c) in w
  }

  function Shift(b: Mask, k: nat): Mask { set c | c in b :: c + k }

  function FromBlocks(b0: Mask, b1: Mask, b2: Mask): Mask { Shift(b0, 16) + Shift(b1, 8) + b2 }

  // ----- The block codes -----

  /** A line of the plane whose lines are the translates of `base`, closed by its bus. */
  function LineVector(base: seq<nat>, t: nat): Mask
    requires |base| == 3
  {
    {(base[0] + t) % 7, (base[1] + t) % 7, (base[2] + t) % 7, 7}
  }

  /** The check basis of the self-dual block code over the plane of `base`: four independent lines. */
  function Basis(base: seq<nat>): (basis: seq<Mask>)
    requires |base| == 3
    ensures |basis| == 4
  {
    [LineVector(base, 0), LineVector(base, 1), LineVector(base, 2), LineVector(base, 3)]
  }

  const RESIDUES: seq<nat> := [1, 2, 4]
  const NON_RESIDUES: seq<nat> := [3, 5, 6]

  /** Whether a block meets a check in an odd number of positions. */
  predicate Odd(s: Mask, check: Mask) { |s * check| % 2 == 1 }

  datatype Bits = Bits(s0: bool, s1: bool, s2: bool, s3: bool)

  function BlockSyndrome(s: Mask, basis: seq<Mask>): Bits
    requires |basis| == 4
  {
    Bits(Odd(s, basis[0]), Odd(s, basis[1]), Odd(s, basis[2]), Odd(s, basis[3]))
  }

  const CLEAN: Bits := Bits(false, false, false, false)

  /** `A`, the grammar of a member. */
  predicate InA(s: Mask) { BlockSyndrome(s, Basis(RESIDUES)) == CLEAN }

  /** `B`, the glue. */
  predicate InB(s: Mask) { BlockSyndrome(s, Basis(NON_RESIDUES)) == CLEAN }

  // ----- The federation code -----

  function Glue(w: Mask): Mask { Xor(Xor(Block(w, 0), Block(w, 1)), Block(w, 2)) }

  datatype Syndrome = Syndrome(a: Bits, b: Bits, x: Bits)

  function SyndromeOf(w: Mask): Syndrome {
    var x := Glue(w);
    Syndrome(BlockSyndrome(Xor(Block(w, 0), x), Basis(RESIDUES)), BlockSyndrome(Xor(Block(w, 1), x), Basis(RESIDUES)),
             BlockSyndrome(x, Basis(NON_RESIDUES)))
  }

  const CODEWORD: Syndrome := Syndrome(CLEAN, CLEAN, CLEAN)

  predicate IsCodeword(w: Mask) { SyndromeOf(w) == CODEWORD }

  // ----- Linearity -----

  lemma {:induction false} XorSize(s: Mask, t: Mask)
    ensures |Xor(s, t)| + 2 * |s * t| == |s| + |t|
  {
    assert s == (s - t) + s * t;
    assert t == (t - s) + s * t;
    assert |s| == |s - t| + |s * t|;
    assert |t| == |t - s| + |s * t|;
    assert |Xor(s, t)| == |s - t| + |t - s|;
  }

  lemma {:induction false} OddXor(s: Mask, t: Mask, check: Mask)
    ensures Odd(Xor(s, t), check) <==> Odd(s, check) != Odd(t, check)
  {
    hide Xor;
    XorSize(s * check, t * check);
    assert Xor(s, t) * check == Xor(s * check, t * check) by { XorMeets(s, t, check); }
    Parities(|Xor(s * check, t * check)|, |s * check|, |t * check|, |(s * check) * (t * check)|);
  }

  lemma {:induction false} XorMeets(s: Mask, t: Mask, check: Mask)
    ensures Xor(s, t) * check == Xor(s * check, t * check)
  {
  }

  lemma {:induction false} Parities(n: nat, a: nat, b: nat, k: nat)
    requires n + 2 * k == a + b
    ensures n % 2 == 1 <==> (a % 2 == 1) != (b % 2 == 1)
  {
  }

  function XorBits(a: Bits, b: Bits): Bits { Bits(a.s0 != b.s0, a.s1 != b.s1, a.s2 != b.s2, a.s3 != b.s3) }

  function XorSyndrome(a: Syndrome, b: Syndrome): Syndrome { Syndrome(XorBits(a.a, b.a), XorBits(a.b, b.b), XorBits(a.x, b.x)) }

  lemma {:induction false} BlockSyndromeXor(s: Mask, t: Mask, basis: seq<Mask>)
    requires |basis| == 4
    ensures BlockSyndrome(Xor(s, t), basis) == XorBits(BlockSyndrome(s, basis), BlockSyndrome(t, basis))
  {
    hide Odd, Xor;
    OddXor(s, t, basis[0]);
    OddXor(s, t, basis[1]);
    OddXor(s, t, basis[2]);
    OddXor(s, t, basis[3]);
  }

  lemma {:induction false} BlockXor(u: Mask, v: Mask, m: nat)
    requires m < 3
    ensures Block(Xor(u, v), m) == Xor(Block(u, m), Block(v, m))
  {
    hide At;
  }

  lemma {:induction false} XorSwap(a: Mask, b: Mask, c: Mask, d: Mask)
    ensures Xor(Xor(a, b), Xor(c, d)) == Xor(Xor(a, c), Xor(b, d))
  {
  }

  lemma {:induction false} GlueXor(u: Mask, v: Mask)
    ensures Glue(Xor(u, v)) == Xor(Glue(u), Glue(v))
  {
    hide Xor, Block;
    BlockXor(u, v, 0);
    BlockXor(u, v, 1);
    BlockXor(u, v, 2);
    XorSwap(Block(u, 0), Block(v, 0), Block(u, 1), Block(v, 1));
    XorSwap(Xor(Block(u, 0), Block(u, 1)), Xor(Block(v, 0), Block(v, 1)), Block(u, 2), Block(v, 2));
  }

  /** The syndrome is linear. */
  lemma {:induction false} SyndromeXor(u: Mask, v: Mask)
    ensures SyndromeOf(Xor(u, v)) == XorSyndrome(SyndromeOf(u), SyndromeOf(v))
  {
    hide Xor, Block, Basis, BlockSyndrome, Glue;
    GlueXor(u, v);
    BlockXor(u, v, 0);
    BlockXor(u, v, 1);
    XorSwap(Block(u, 0), Block(v, 0), Glue(u), Glue(v));
    XorSwap(Block(u, 1), Block(v, 1), Glue(u), Glue(v));
    BlockSyndromeXor(Xor(Block(u, 0), Glue(u)), Xor(Block(v, 0), Glue(v)), Basis(RESIDUES));
    BlockSyndromeXor(Xor(Block(u, 1), Glue(u)), Xor(Block(v, 1), Glue(v)), Basis(RESIDUES));
    BlockSyndromeXor(Glue(u), Glue(v), Basis(NON_RESIDUES));
  }

  // ----- The block codes' weights -----

  function One(b: bool): nat { if b then 1 else 0 }

  lemma {:induction false} Without(s: Mask, p: nat) returns (t: Mask)
    ensures |s| == |t| + One(p in s) && t <= s
    ensures forall q :: q in t <==> q in s && q != p
  {
    t := s - {p};
  }

  lemma {:induction false} SizeByCoordinates(s: Mask)
    requires IsBlock(s)
    ensures |s| == One(0 in s) + One(1 in s) + One(2 in s) + One(3 in s) + One(4 in s) + One(5 in s) + One(6 in s) + One(7 in s)
  {
    var s1 := Without(s, 0);
    var s2 := Without(s1, 1);
    var s3 := Without(s2, 2);
    var s4 := Without(s3, 3);
    var s5 := Without(s4, 4);
    var s6 := Without(s5, 5);
    var s7 := Without(s6, 6);
    var s8 := Without(s7, 7);
    assert s8 == {};
  }

  lemma {:induction false} OddOnFour(s: Mask, a: nat, b: nat, c: nat, d: nat)
    requires a != b && a != c && a != d && b != c && b != d && c != d
    ensures Odd(s, {a, b, c, d}) <==> ((a in s) != (b in s)) != ((c in s) != (d in s))
  {
    var t := s * {a, b, c, d};
    var t1 := Without(t, a);
    var t2 := Without(t1, b);
    var t3 := Without(t2, c);
    var t4 := Without(t3, d);
    assert t4 == {};
  }

  lemma {:induction false} Checks()
    ensures Basis(RESIDUES) == [{1, 2, 4, 7}, {2, 3, 5, 7}, {3, 4, 6, 7}, {4, 5, 0, 7}]
    ensures Basis(NON_RESIDUES) == [{3, 5, 6, 7}, {4, 6, 0, 7}, {5, 0, 1, 7}, {6, 1, 2, 7}]
  {
  }

  /** Membership in `A`, coordinate by coordinate. */
  lemma {:induction false} InAByCoordinates(s: Mask)
    ensures InA(s) <==>
            && (((1 in s) != (2 in s)) == ((4 in s) != (7 in s))) && (((2 in s) != (3 in s)) == ((5 in s) != (7 in s)))
            && (((3 in s) != (4 in s)) == ((6 in s) != (7 in s))) && (((4 in s) != (5 in s)) == ((0 in s) != (7 in s)))
  {
    hide Odd, Basis;
    Checks();
    OddOnFour(s, 1, 2, 4, 7);
    OddOnFour(s, 2, 3, 5, 7);
    OddOnFour(s, 3, 4, 6, 7);
    OddOnFour(s, 4, 5, 0, 7);
  }

  lemma {:induction false} InBByCoordinates(s: Mask)
    ensures InB(s) <==>
            && (((3 in s) != (5 in s)) == ((6 in s) != (7 in s))) && (((4 in s) != (6 in s)) == ((0 in s) != (7 in s)))
            && (((5 in s) != (0 in s)) == ((1 in s) != (7 in s))) && (((6 in s) != (1 in s)) == ((2 in s) != (7 in s)))
  {
    hide Odd, Basis;
    Checks();
    OddOnFour(s, 3, 5, 6, 7);
    OddOnFour(s, 4, 6, 0, 7);
    OddOnFour(s, 5, 0, 1, 7);
    OddOnFour(s, 6, 1, 2, 7);
  }

  /** Both block codes have weights 0, 4 and 8 only. */
  lemma {:induction false} BlockWeights(s: Mask)
    requires IsBlock(s)
    ensures InA(s) || InB(s) ==> |s| == 0 || |s| == 4 || |s| == 8
  {
    hide InA, InB;
    SizeByCoordinates(s);
    InAByCoordinates(s);
    InBByCoordinates(s);
  }

  const FULL: Mask := {0, 1, 2, 3, 4, 5, 6, 7}

  /** The two orientations share only the empty and the full block. */
  lemma {:induction false} CodesMeet(s: Mask)
    requires IsBlock(s) && InA(s) && InB(s)
    ensures s == {} || s == FULL
  {
    hide InA, InB;
    InAByCoordinates(s);
    InBByCoordinates(s);
    if 7 in s { assert s == FULL; } else { assert s == {}; }
  }

  // ----- Minimum weight -----

  lemma {:induction false} ShiftSize(b: Mask, k: nat)
    ensures |Shift(b, k)| == |b|
    decreases |b|
  {
    if b == {} {
      assert Shift(b, k) == {};
    } else {
      var c :| c in b;
      ShiftSize(b - {c}, k);
      ShiftMore(b - {c}, c, k);
      assert b == (b - {c}) + {c};
    }
  }

  lemma {:induction false} ShiftMore(b: Mask, c: nat, k: nat)
    requires c !in b
    ensures Shift(b + {c}, k) == Shift(b, k) + {c + k} && c + k !in Shift(b, k)
  {
    forall x | x in Shift(b, k) + {c + k}
      ensures x in Shift(b + {c}, k)
    {
      var d :| d in b + {c} && x == d + k;
    }
    assert forall d :: d in b ==> d + k != c + k;
  }

  lemma {:induction false} FromBlocksParts(b0: Mask, b1: Mask, b2: Mask)
    requires IsBlock(b0) && IsBlock(b1) && IsBlock(b2)
    ensures var w := FromBlocks(b0, b1, b2);
            && IsWord(w) && |w| == |b0| + |b1| + |b2|
            && Block(w, 0) == b0 && Block(w, 1) == b1 && Block(w, 2) == b2
  {
    hide FromBlocks;
    ShiftSize(b0, 16);
    ShiftSize(b1, 8);
    forall i
      ensures i in FromBlocks(b0, b1, b2) <==> i in Shift(b0, 16) || i in Shift(b1, 8) || i in b2
    {
      InBlocks(b0, b1, b2, i);
    }
    BlocksBack(b0, b1, b2);
    SizeOfBlocks(b0, b1, b2);
  }

  lemma {:induction false} InBlocks(b0: Mask, b1: Mask, b2: Mask, i: nat)
    ensures i in FromBlocks(b0, b1, b2) <==> i in Shift(b0, 16) || i in Shift(b1, 8) || i in b2
  {
  }

  lemma {:induction false} SizeOfBlocks(b0: Mask, b1: Mask, b2: Mask)
    requires IsBlock(b0) && IsBlock(b1) && IsBlock(b2)
    ensures |FromBlocks(b0, b1, b2)| == |b0| + |b1| + |b2|
  {
    ShiftSize(b0, 16);
    ShiftSize(b1, 8);
    assert Shift(b0, 16) !! Shift(b1, 8);
    assert (Shift(b0, 16) + Shift(b1, 8)) !! b2;
  }

  lemma {:induction false} ShiftHas(b: Mask, k: nat, c: nat)
    ensures c + k in Shift(b, k) <==> c in b
  {
  }

  lemma {:induction false} BlocksBack(b0: Mask, b1: Mask, b2: Mask)
    requires IsBlock(b0) && IsBlock(b1) && IsBlock(b2)
    ensures var w := FromBlocks(b0, b1, b2);
            Block(w, 0) == b0 && Block(w, 1) == b1 && Block(w, 2) == b2
  {
    hide FromBlocks, Block, Shift, At;
    forall c: nat | c < 8
      ensures At(0, c) in FromBlocks(b0, b1, b2) <==> c in b0
      ensures At(1, c) in FromBlocks(b0, b1, b2) <==> c in b1
      ensures At(2, c) in FromBlocks(b0, b1, b2) <==> c in b2
    {
      AtBlock(b0, b1, b2, c);
    }
  }

  lemma {:induction false} AtBlock(b0: Mask, b1: Mask, b2: Mask, c: nat)
    requires IsBlock(b0) && IsBlock(b1) && IsBlock(b2) && c < 8
    ensures At(0, c) in FromBlocks(b0, b1, b2) <==> c in b0
    ensures At(1, c) in FromBlocks(b0, b1, b2) <==> c in b1
    ensures At(2, c) in FromBlocks(b0, b1, b2) <==> c in b2
  {
    hide FromBlocks, Shift;
    InBlocks(b0, b1, b2, c + 16);
    InBlocks(b0, b1, b2, c + 8);
    InBlocks(b0, b1, b2, c);
    ShiftHas(b0, 16, c);
    ShiftHas(b1, 8, c);
    ShiftBounds(b0, 16);
    ShiftBounds(b1, 8);
  }

  lemma {:induction false} ShiftBounds(b: Mask, k: nat)
    requires IsBlock(b)
    ensures forall i :: i in Shift(b, k) ==> k <= i < k + 8
  {
  }

  lemma {:induction false} WordOfBlocks(w: Mask)
    requires IsWord(w)
    ensures w == FromBlocks(Block(w, 0), Block(w, 1), Block(w, 2))
    ensures |w| == |Block(w, 0)| + |Block(w, 1)| + |Block(w, 2)|
  {
    hide FromBlocks, Block, Shift;
    var b0, b1, b2 := Block(w, 0), Block(w, 1), Block(w, 2);
    FromBlocksParts(b0, b1, b2);
    forall i: nat
      ensures i in w <==> i in FromBlocks(b0, b1, b2)
    {
      PlaceOf(w, i);
    }
  }

  lemma {:induction false} PlaceOf(w: Mask, i: nat)
    requires IsWord(w)
    ensures i in w <==> i in FromBlocks(Block(w, 0), Block(w, 1), Block(w, 2))
  {
    hide FromBlocks, Block;
    var b0, b1, b2 := Block(w, 0), Block(w, 1), Block(w, 2);
    InBlocks(b0, b1, b2, i);
    if i < 8 {
      assert At(2, i) == i;
    } else if i < 16 {
      assert At(1, i - 8) == i;
      ShiftHas(b1, 8, i - 8);
    } else {
      assert At(0, i - 16) == i;
      ShiftHas(b0, 16, i - 16);
    }
  }

  lemma {:induction false} XorOfBlocks(a: Mask, b: Mask, c: Mask, d: Mask, e: Mask, f: Mask)
    requires IsBlock(a) && IsBlock(b) && IsBlock(c) && IsBlock(d) && IsBlock(e) && IsBlock(f)
    ensures Xor(FromBlocks(a, b, c), FromBlocks(d, e, f)) == FromBlocks(Xor(a, d), Xor(b, e), Xor(c, f))
  {
    hide FromBlocks, Block, Xor;
    var u, v := FromBlocks(a, b, c), FromBlocks(d, e, f);
    FromBlocksParts(a, b, c);
    FromBlocksParts(d, e, f);
    WordXor(u, v);
    BlockXor(u, v, 0);
    BlockXor(u, v, 1);
    BlockXor(u, v, 2);
    WordOfBlocks(Xor(u, v));
  }

  predicate Even(n: nat) { n % 2 == 0 }

  lemma {:induction false} XorBack(s: Mask, t: Mask)
    ensures Xor(Xor(s, t), t) == s && Xor(s, {}) == s && Xor(s, s) == {}
  {
  }

  lemma {:induction false} AXor(s: Mask, t: Mask)
    requires InA(s) && InA(t)
    ensures InA(Xor(s, t))
  {
    hide Xor, Basis, BlockSyndrome;
    BlockSyndromeXor(s, t, Basis(RESIDUES));
  }

  /**
   A codeword's blocks are `a ^ x`, `b ^ x` and `a ^ b ^ x` with `a`, `b` in `A` and `x` in `B`: each block is
   even, the sum of two blocks is in `A`, and the sum of all three in `B`.
   */
  lemma {:induction false} CodewordBlocks(w: Mask)
    requires IsCodeword(w)
    ensures var (u, v, z) := (Block(w, 0), Block(w, 1), Block(w, 2));
            && InA(Xor(v, z)) && InA(Xor(u, z)) && InA(Xor(u, v)) && InB(Xor(Xor(u, v), z))
            && Even(|u|) && Even(|v|) && Even(|z|)
  {
    hide Xor, Basis, BlockSyndrome;
    var u, v, z := Block(w, 0), Block(w, 1), Block(w, 2);
    var x := Glue(w);
    BlockSums(u, v, z);
    AXor(Xor(v, z), Xor(u, z));
    BlockIsBlock(v, z);
    BlockIsBlock(u, z);
    BlockIsBlock(u, v);
    BlockIsBlock(Xor(u, v), z);
    EvenBlock(u, Xor(v, z), x);
    EvenBlock(v, Xor(u, z), x);
    EvenBlock(z, Xor(u, v), x);
  }

  lemma {:induction false} BlockSums(u: Mask, v: Mask, z: Mask)
    ensures var x := Xor(Xor(u, v), z);
            && Xor(u, x) == Xor(v, z) && Xor(v, x) == Xor(u, z)
            && Xor(Xor(v, z), Xor(u, z)) == Xor(u, v)
            && u == Xor(Xor(v, z), x) && v == Xor(Xor(u, z), x) && z == Xor(Xor(u, v), x)
  {
  }

  lemma {:induction false} EvenBlock(s: Mask, a: Mask, x: Mask)
    requires IsBlock(a) && IsBlock(x) && InA(a) && InB(x) && s == Xor(a, x)
    ensures Even(|s|)
  {
    hide InA, InB, Xor;
    BlockWeights(a);
    BlockWeights(x);
    XorSize(a, x);
  }

  lemma {:induction false} BlockIsBlock(s: Mask, t: Mask)
    requires IsBlock(s) && IsBlock(t)
    ensures IsBlock(Xor(s, t))
  {
  }

  /** One empty block leaves two blocks of `A`. */
  lemma {:induction false} OneEmptyBlock(v: Mask, z: Mask)
    requires IsBlock(v) && IsBlock(z) && InA(v) && InA(z) && InB(Xor(v, z))
    ensures (v == {} && z == {}) || |v| + |z| >= 8
  {
    hide InA, InB;
    BlockWeights(v);
    BlockWeights(z);
    if |v| == 0 || |z| == 0 {
      XorBack(v, z);
      XorBack(z, v);
      assert Xor(v, z) == v + z;
      CodesMeet(v + z);
    }
  }

  /** Three blocks of two positions cannot be a codeword's. */
  lemma {:induction false} ThreePairs(u: Mask, v: Mask, z: Mask)
    requires IsBlock(u) && IsBlock(v) && IsBlock(z) && |u| == 2 && |v| == 2 && |z| == 2
    requires InA(Xor(v, z)) && InA(Xor(u, z)) && InA(Xor(u, v))
    ensures !InB(Xor(Xor(u, v), z))
  {
    hide InA, InB, Xor;
    XorSums(u, v, z);
    PairsApart(u, v, z);
    PairsApart(v, z, u);
    PairsApart(u, z, v);
    BlockIsBlock(u, v);
    BlockIsBlock(Xor(u, v), z);
    BlockWeights(Xor(Xor(u, v), z));
    if u !! v && v !! z && u !! z { ThreeApart(u, v, z); }
  }

  lemma {:induction false} ThreeApart(u: Mask, v: Mask, z: Mask)
    requires u !! v && v !! z && u !! z
    ensures |Xor(Xor(u, v), z)| == |u| + |v| + |z|
  {
    assert Xor(Xor(u, v), z) == (u + v) + z;
    assert (u + v) !! z;
  }

  lemma {:induction false} XorSums(u: Mask, v: Mask, z: Mask)
    ensures Xor(Xor(u, v), z) == Xor(Xor(v, z), u) == Xor(Xor(u, z), v)
  {
  }

  lemma {:induction false} PairsApart(u: Mask, v: Mask, z: Mask)
    requires IsBlock(u) && IsBlock(v) && IsBlock(z) && |u| == 2 && |v| == 2 && |z| == 2 && InA(Xor(u, v))
    ensures u !! v || !InB(Xor(Xor(u, v), z))
  {
    hide InA, InB, Xor;
    XorSize(u, v);
    BlockIsBlock(u, v);
    BlockWeights(Xor(u, v));
    if |Xor(u, v)| == 0 {
      assert Xor(u, v) == {};
      XorNone(z);
      BlockWeights(z);
    } else {
      Apart(u, v);
    }
  }

  lemma {:induction false} Apart(s: Mask, t: Mask)
    requires |s * t| == 0
    ensures s !! t
  {
    assert s * t == {};
    forall x | x in s
      ensures x !in t
    {
      assert x !in s * t;
    }
  }

  lemma {:induction false} XorNone(s: Mask)
    ensures Xor({}, s) == s
  {
  }

  lemma {:induction false} BlocksWeigh(u: Mask, v: Mask, z: Mask)
    requires IsBlock(u) && IsBlock(v) && IsBlock(z) && Even(|u|) && Even(|v|) && Even(|z|)
    requires InA(Xor(v, z)) && InA(Xor(u, z)) && InA(Xor(u, v)) && InB(Xor(Xor(u, v), z))
    ensures (u == {} && v == {} && z == {}) || |u| + |v| + |z| >= 8
  {
    hide InA, InB, Xor;
    XorNone(u);
    XorNone(v);
    XorNone(z);
    XorBack(u, {});
    XorBack(v, {});
    XorSums(u, v, z);
    if u == {} {
      OneEmptyBlock(v, z);
    } else if v == {} {
      OneEmptyBlock(u, z);
    } else if z == {} {
      XorBack(Xor(u, v), {});
      OneEmptyBlock(u, v);
    } else {
      NonEmpty(u);
      NonEmpty(v);
      NonEmpty(z);
      assert |u| + |v| + |z| < 8 ==> |u| == 2 && |v| == 2 && |z| == 2;
      if |u| == 2 && |v| == 2 && |z| == 2 { ThreePairs(u, v, z); }
    }
  }

  /** Minimum weight eight, and every weight even. */
  lemma {:induction false} MinimumWeight(w: Mask)
    requires IsWord(w) && IsCodeword(w)
    ensures Even(|w|) && (w == {} || |w| >= 8)
  {
    hide IsCodeword, InA, InB, Xor, Block, FromBlocks;
    WordOfBlocks(w);
    CodewordBlocks(w);
    var u, v, z := Block(w, 0), Block(w, 1), Block(w, 2);
    BlocksWeigh(u, v, z);
    EvenSum(|u|, |v|, |z|);
    if |w| == 0 { assert w == {}; }
  }

  lemma {:induction false} EvenSum(a: nat, b: nat, c: nat)
    requires Even(a) && Even(b) && Even(c)
    ensures Even(a + b + c)
  {
  }

  lemma {:induction false} NonEmpty(s: Mask)
    requires s != {} && Even(|s|)
    ensures |s| >= 2
  {
    assert |s| != 0;
  }

  // ----- Doubly even -----

  /** The size of `a ^ x`, up to multiples of four, when `a` and `x` are of weights divisible by four. */
  lemma {:induction false} SumWeight(a: Mask, x: Mask)
    requires IsBlock(a) && IsBlock(x) && (InA(a) || InB(a)) && InB(x)
    ensures (|Xor(a, x)| + 2 * |a * x|) % 4 == 0
  {
    hide InA, InB, Xor;
    BlockWeights(a);
    BlockWeights(x);
    XorSize(a, x);
  }

  lemma {:induction false} MeetingsCancel(a: Mask, b: Mask, x: Mask)
    ensures Even(|a * x| + |b * x| + |Xor(a, b) * x|)
  {
    hide Xor;
    XorMeets(a, b, x);
    XorSize(a * x, b * x);
    var k := |a * x * (b * x)|;
    assert |a * x| + |b * x| + |Xor(a, b) * x| == 2 * (|a * x| + |b * x| - k);
  }

  lemma {:induction false} QuartersAdd(u: nat, v: nat, z: nat, i: nat, j: nat, k: nat)
    requires (u + 2 * i) % 4 == 0 && (v + 2 * j) % 4 == 0 && (z + 2 * k) % 4 == 0 && Even(i + j + k)
    ensures (u + v + z) % 4 == 0
  {
  }

  /** The weight of every codeword is divisible by four. */
  lemma {:induction false} DoublyEven(w: Mask)
    requires IsWord(w) && IsCodeword(w)
    ensures |w| % 4 == 0
  {
    hide IsCodeword, InA, InB, Xor, Block, FromBlocks;
    WordOfBlocks(w);
    CodewordBlocks(w);
    var u, v, z := Block(w, 0), Block(w, 1), Block(w, 2);
    var a, b, c, x := Xor(v, z), Xor(u, z), Xor(u, v), Xor(Xor(u, v), z);
    BlockSums(u, v, z);
    BlockIsBlock(v, z);
    BlockIsBlock(u, z);
    BlockIsBlock(u, v);
    BlockIsBlock(Xor(u, v), z);
    SumWeight(a, x);
    SumWeight(b, x);
    SumWeight(c, x);
    MeetingsCancel(a, b, x);
    QuartersAdd(|u|, |v|, |z|, |a * x|, |b * x|, |c * x|);
  }

  // ----- Leaders -----

  /** At most three faults that explain the word's syndrome. */
  ghost predicate IsLeader(w: Mask, e: Mask) { IsWord(e) && |e| <= T && SyndromeOf(e) == SyndromeOf(w) }

  lemma {:induction false} SumIsCodeword(u: Mask, v: Mask)
    requires SyndromeOf(u) == SyndromeOf(v)
    ensures IsCodeword(Xor(u, v))
  {
    hide Xor, SyndromeOf;
    SyndromeXor(u, v);
  }

  lemma {:induction false} WordXor(u: Mask, v: Mask)
    requires IsWord(u) && IsWord(v)
    ensures IsWord(Xor(u, v)) && (Xor(u, v) == {} <==> u == v)
  {
    if Xor(u, v) == {} { XorBack(u, v); XorNone(v); }
  }

  /** A word and a leader of it: equal, or their difference is a codeword of weight eight or more. */
  lemma {:induction false} LeaderDistance(w: Mask, e: Mask)
    requires IsWord(w) && IsLeader(w, e)
    ensures e == w || |w| + |e| >= 8 + 2 * |w * e|
    ensures Even(|w| + |e|)
  {
    hide Xor, SyndromeOf;
    SumIsCodeword(w, e);
    WordXor(w, e);
    XorSize(w, e);
    MinimumWeight(Xor(w, e));
  }

  lemma {:induction false} LeaderIsUnique(w: Mask, e: Mask, f: Mask)
    requires IsLeader(w, e) && IsLeader(w, f)
    ensures e == f
  {
    hide SyndromeOf;
    LeaderDistance(e, f);
  }

  ghost function Leader(w: Mask): (r: Option<Mask>)
    ensures r.Some? ==> IsLeader(w, r.value)
    ensures r.None? ==> forall e :: !IsLeader(w, e)
  {
    if exists e :: IsLeader(w, e) then
      var e :| IsLeader(w, e);
      Some(e)
    else None
  }

  lemma {:induction false} LeaderIs(w: Mask, e: Mask)
    requires IsLeader(w, e)
    ensures Leader(w) == Some(e)
  {
    hide IsLeader, Leader;
    LeaderIsUnique(w, e, Leader(w).value);
  }

  /** How a word meets a leader other than itself: their difference weighs eight or more, and a multiple of four. */
  lemma {:induction false} LeaderMeets(w: Mask, e: Mask)
    requires IsWord(w) && IsLeader(w, e) && e != w
    ensures |w| + |e| - 2 * |w * e| >= 8
    ensures (|w| + |e| - 2 * |w * e|) % 4 == 0
  {
    hide Xor, SyndromeOf;
    LeaderDistance(w, e);
    SumIsCodeword(w, e);
    WordXor(w, e);
    XorSize(w, e);
    DoublyEven(Xor(w, e));
  }

  /**
   What a word decodes to: itself up to weight three, nothing at weight four, at weights five and six only
   positions it does not have, and at weights seven and eight at most one position it has.
   */
  lemma {:induction false} DecodingByWeight(w: Mask)
    requires IsWord(w)
    ensures |w| <= 3 ==> Leader(w) == Some(w)
    ensures |w| == 4 ==> Leader(w) == None
    ensures 5 <= |w| <= 6 && Leader(w).Some? ==> w !! Leader(w).value && |Leader(w).value| == 8 - |w|
    ensures |w| == 7 && Leader(w).Some? ==>
            var e := Leader(w).value; (|e| == 1 && |w * e| == 0) || (|e| == 3 && |w * e| == 1)
    ensures |w| == 8 && Leader(w).Some? ==>
            var e := Leader(w).value; (|e| == 0 && |w * e| == 0) || (|e| == 2 && |w * e| == 1)
  {
    hide SyndromeOf;
    if |w| <= 3 {
      LeaderIs(w, w);
    } else if Leader(w).Some? {
      var e := Leader(w).value;
      LeaderMeets(w, e);
      MeetSize(w, e);
      if |w * e| == 0 { Apart(w, e); }
    }
  }

  lemma {:induction false} MeetSize(w: Mask, e: Mask)
    ensures |w * e| <= |e| && |w * e| <= |w|
  {
    assert e == w * e + (e - w);
    assert w == w * e + (w - e);
  }

  /** `c` is a codeword that makes up all of `w` but three positions or fewer. */
  ghost predicate Fills(w: Mask, c: Mask) { IsCodeword(c) && c <= w && |w - c| <= T }

  /** A word decodes to positions it has if and only if a codeword makes up all of it but three positions or fewer. */
  lemma {:induction false} LeaderInsideIff(w: Mask)
    requires IsWord(w)
    ensures (Leader(w).Some? && Leader(w).value <= w) <==> exists c :: Fills(w, c)
  {
    hide SyndromeOf, Leader, Xor, IsCodeword;
    if Leader(w).Some? && Leader(w).value <= w {
      var e := Leader(w).value;
      SumIsCodeword(w, e);
      XorInside(w, e);
      assert w - (w - e) == e;
      assert Fills(w, w - e);
    }
    if c :| Fills(w, c) {
      FillLeads(w, c);
    }
  }

  lemma {:induction false} XorInside(w: Mask, e: Mask)
    requires e <= w
    ensures Xor(w, e) == w - e
  {
  }

  lemma {:induction false} FillLeads(w: Mask, c: Mask)
    requires IsWord(w) && Fills(w, c)
    ensures Leader(w) == Some(w - c)
  {
    hide SyndromeOf, Leader, Xor;
    XorInside(w, c);
    SyndromeXor(w, c);
    LeaderIs(w, w - c);
  }

  /** `c` is a codeword that holds all of `w` and three positions more or fewer. */
  ghost predicate Surrounds(w: Mask, c: Mask) { IsWord(c) && IsCodeword(c) && w <= c && |c - w| <= T }

  /** A word decodes to positions it has none of if and only if a codeword surrounds it. */
  lemma {:induction false} LeaderMissesIff(w: Mask)
    requires IsWord(w)
    ensures (Leader(w).Some? && w !! Leader(w).value) <==> exists c :: Surrounds(w, c)
  {
    hide SyndromeOf, Leader, Xor, IsCodeword;
    if Leader(w).Some? && w !! Leader(w).value {
      var e := Leader(w).value;
      SumIsCodeword(w, e);
      XorApart(w, e);
      assert (w + e) - w == e;
      assert Surrounds(w, w + e);
    }
    if c :| Surrounds(w, c) {
      SurroundLeads(w, c);
    }
  }

  lemma {:induction false} XorApart(w: Mask, e: Mask)
    requires w !! e
    ensures Xor(w, e) == w + e
  {
  }

  lemma {:induction false} SurroundLeads(w: Mask, c: Mask)
    requires IsWord(w) && Surrounds(w, c)
    ensures Leader(w) == Some(c - w)
  {
    hide SyndromeOf, Leader, Xor;
    XorInside(c, w);
    SyndromeXor(c, w);
    LeaderIs(w, c - w);
  }

  /** `c` is a codeword within `r` that differs from `w` in three positions or fewer. */
  ghost predicate Reaches(w: Mask, r: Mask, c: Mask) { IsCodeword(c) && c <= r && |Xor(c, w)| <= T }

  /** A part `w` of a word `r` decodes to positions of `r` if and only if a codeword within `r` is that near to `w`. */
  lemma {:induction false} LeaderWithinIff(w: Mask, r: Mask)
    requires IsWord(r) && w <= r
    ensures (Leader(w).Some? && Leader(w).value <= r) <==> exists c :: Reaches(w, r, c)
  {
    hide SyndromeOf, Leader, Xor, IsCodeword;
    if Leader(w).Some? && Leader(w).value <= r {
      var e := Leader(w).value;
      SumIsCodeword(w, e);
      XorWithin(w, e, r);
      XorOfXor(w, e);
      assert Reaches(w, r, Xor(w, e));
    }
    if c :| Reaches(w, r, c) {
      ReachLeads(w, r, c);
      XorWithin(c, w, r);
    }
  }

  lemma {:induction false} XorWithin(s: Mask, t: Mask, r: Mask)
    requires s <= r && t <= r
    ensures Xor(s, t) <= r
  {
  }

  lemma {:induction false} XorOfXor(s: Mask, t: Mask)
    ensures Xor(Xor(s, t), s) == t
  {
  }

  lemma {:induction false} ReachLeads(w: Mask, r: Mask, c: Mask)
    requires IsWord(r) && w <= r && Reaches(w, r, c)
    ensures Leader(w) == Some(Xor(c, w))
  {
    hide SyndromeOf, Leader, Xor;
    WordXor(c, w);
    SyndromeXor(c, w);
    LeaderIs(w, Xor(c, w));
  }

  /** From weight four to eight that happens only for a codeword of weight eight, which decodes to nothing. */
  lemma {:induction false} NoFillBelowEight(w: Mask, c: Mask)
    requires IsWord(w) && Fills(w, c) && 4 <= |w| <= 8
    ensures |w| == 8 && c == w
  {
    hide IsCodeword;
    MinimumWeight(c);
    assert w == c + (w - c);
    assert |w| == |c| + |w - c|;
    if |w - c| == 0 { assert w - c == {}; }
  }

  // ----- The search -----

  function BitSyndrome(i: nat): Syndrome { SyndromeOf({i}) }

  predicate Ascending(bits: seq<nat>) {
    && (forall i :: 0 <= i < |bits| ==> bits[i] < 24)
    && (forall i, j :: 0 <= i < j < |bits| ==> bits[i] < bits[j])
  }

  function SetOf(bits: seq<nat>): Mask { set i | i in bits }

  /**
   Search the patterns of weight at most three in order of weight: the ascending positions of the leader, or
   nothing when there is none.
   */
  method Locate(w: Mask) returns (r: Option<seq<nat>>)
    requires IsWord(w)
    ensures r.None? <==> Leader(w).None?
    ensures r.Some? ==> Ascending(r.value) && Leader(w) == Some(SetOf(r.value))
  {
    hide SyndromeOf, Leader;
    var target := SyndromeOf(w);
    if target == CODEWORD {
      CleanWord(w);
      return Some([]);
    }
    for i := 0 to 24
      invariant forall a :: 0 <= a < i ==> BitSyndrome(a) != target
    {
      if BitSyndrome(i) == target {
        OneBit(w, i);
        return Some([i]);
      }
    }
    var pair := LocatePair(target);
    if pair.Some? {
      TwoBits(w, pair.value.0, pair.value.1);
      return Some([pair.value.0, pair.value.1]);
    }
    var triple := LocateTriple(target);
    if triple.Some? {
      ThreeBits(w, triple.value.0, triple.value.1, triple.value.2);
      return Some([triple.value.0, triple.value.1, triple.value.2]);
    }
    NoLeader(w);
    return None;
  }

  method LocatePair(target: Syndrome) returns (r: Option<(nat, nat)>)
    ensures r.Some? ==> r.value.0 < r.value.1 < 24 && XorSyndrome(BitSyndrome(r.value.0), BitSyndrome(r.value.1)) == target
    ensures r.None? ==> NoPair(target)
  {
    hide BitSyndrome, XorSyndrome;
    for i := 0 to 24
      invariant forall a, b :: 0 <= a < i && a < b < 24 ==> XorSyndrome(BitSyndrome(a), BitSyndrome(b)) != target
    {
      for j := i + 1 to 24
        invariant forall b :: i < b < j ==> XorSyndrome(BitSyndrome(i), BitSyndrome(b)) != target
      {
        if XorSyndrome(BitSyndrome(i), BitSyndrome(j)) == target { return Some((i, j)); }
      }
    }
    return None;
  }

  method LocateTriple(target: Syndrome) returns (r: Option<(nat, nat, nat)>)
    ensures r.Some? ==>
              && r.value.0 < r.value.1 < r.value.2 < 24
              && XorSyndrome(XorSyndrome(BitSyndrome(r.value.0), BitSyndrome(r.value.1)), BitSyndrome(r.value.2)) == target
    ensures r.None? ==> NoTriple(target)
  {
    hide BitSyndrome, XorSyndrome;
    for i := 0 to 24
      invariant forall a, b, c :: 0 <= a < i && a < b < c < 24 ==>
                  XorSyndrome(XorSyndrome(BitSyndrome(a), BitSyndrome(b)), BitSyndrome(c)) != target
    {
      for j := i + 1 to 24
        invariant forall b, c :: i < b < j && b < c < 24 ==>
                    XorSyndrome(XorSyndrome(BitSyndrome(i), BitSyndrome(b)), BitSyndrome(c)) != target
      {
        for k := j + 1 to 24
          invariant forall c :: j < c < k ==>
                      XorSyndrome(XorSyndrome(BitSyndrome(i), BitSyndrome(j)), BitSyndrome(c)) != target
        {
          if XorSyndrome(XorSyndrome(BitSyndrome(i), BitSyndrome(j)), BitSyndrome(k)) == target { return Some((i, j, k)); }
        }
      }
    }
    return None;
  }

  ghost predicate NoPair(target: Syndrome) {
    forall a, b :: 0 <= a < b < 24 ==> XorSyndrome(BitSyndrome(a), BitSyndrome(b)) != target
  }

  ghost predicate NoTriple(target: Syndrome) {
    forall a, b, c :: 0 <= a < b < c < 24 ==>
      XorSyndrome(XorSyndrome(BitSyndrome(a), BitSyndrome(b)), BitSyndrome(c)) != target
  }

  lemma {:induction false} EmptySyndrome()
    ensures SyndromeOf({}) == CODEWORD
  {
    hide SyndromeOf;
    SyndromeXor({}, {});
    XorNone({});
  }

  lemma {:induction false} CleanWord(w: Mask)
    requires SyndromeOf(w) == CODEWORD
    ensures Leader(w) == Some(SetOf([]))
  {
    hide SyndromeOf, Leader;
    EmptySyndrome();
    assert SetOf([]) == {};
    LeaderIs(w, {});
  }

  lemma {:induction false} PairSyndrome(i: nat, j: nat)
    requires i != j
    ensures SyndromeOf({i, j}) == XorSyndrome(BitSyndrome(i), BitSyndrome(j))
  {
    hide SyndromeOf;
    SyndromeXor({i}, {j});
    assert Xor({i}, {j}) == {i, j};
  }

  lemma {:induction false} TripleSyndrome(i: nat, j: nat, k: nat)
    requires i != j && j != k && i != k
    ensures SyndromeOf({i, j, k}) == XorSyndrome(XorSyndrome(BitSyndrome(i), BitSyndrome(j)), BitSyndrome(k))
  {
    hide SyndromeOf;
    PairSyndrome(i, j);
    SyndromeXor({i, j}, {k});
    assert Xor({i, j}, {k}) == {i, j, k};
  }

  lemma {:induction false} OneBit(w: Mask, i: nat)
    requires i < 24 && BitSyndrome(i) == SyndromeOf(w)
    ensures Leader(w) == Some(SetOf([i]))
  {
    hide SyndromeOf, Leader;
    assert SetOf([i]) == {i};
    LeaderIs(w, {i});
  }

  lemma {:induction false} TwoBits(w: Mask, i: nat, j: nat)
    requires i < j < 24 && XorSyndrome(BitSyndrome(i), BitSyndrome(j)) == SyndromeOf(w)
    ensures Leader(w) == Some(SetOf([i, j]))
  {
    hide SyndromeOf, Leader;
    PairSyndrome(i, j);
    assert SetOf([i, j]) == {i, j};
    LeaderIs(w, {i, j});
  }

  lemma {:induction false} ThreeBits(w: Mask, i: nat, j: nat, k: nat)
    requires i < j < k < 24
    requires XorSyndrome(XorSyndrome(BitSyndrome(i), BitSyndrome(j)), BitSyndrome(k)) == SyndromeOf(w)
    ensures Leader(w) == Some(SetOf([i, j, k]))
  {
    hide SyndromeOf, Leader;
    TripleSyndrome(i, j, k);
    assert SetOf([i, j, k]) == {i, j, k};
    LeaderIs(w, {i, j, k});
  }

  /** The least position of a set, and the rest. */
  lemma {:induction false} Split(e: Mask) returns (i: nat, rest: Mask)
    requires e != {}
    ensures i in e && rest == e - {i} && |rest| == |e| - 1
    ensures forall j :: j in rest ==> i < j
  {
    i := LeastNumber.Least(e);
    rest := e - {i};
  }

  lemma {:induction false} NoLeader(w: Mask)
    requires SyndromeOf(w) != CODEWORD && NoPair(SyndromeOf(w)) && NoTriple(SyndromeOf(w))
    requires forall a :: 0 <= a < 24 ==> BitSyndrome(a) != SyndromeOf(w)
    ensures Leader(w).None?
  {
    hide SyndromeOf, Leader, BitSyndrome, NoPair, NoTriple;
    forall e
      ensures !IsLeader(w, e)
    {
      if IsWord(e) && |e| <= T { NotALeader(w, e); }
    }
  }

  lemma {:induction false} NotALeader(w: Mask, e: Mask)
    requires SyndromeOf(w) != CODEWORD && NoPair(SyndromeOf(w)) && NoTriple(SyndromeOf(w))
    requires forall a :: 0 <= a < 24 ==> BitSyndrome(a) != SyndromeOf(w)
    requires IsWord(e) && |e| <= T
    ensures SyndromeOf(e) != SyndromeOf(w)
  {
    hide SyndromeOf;
    if e == {} {
      EmptySyndrome();
    } else {
      var i, e1 := Split(e);
      if e1 == {} {
        assert e == {i};
        assert BitSyndrome(i) != SyndromeOf(w);
      } else {
        var j, e2 := Split(e1);
        if e2 == {} {
          assert e == {i, j};
          PairSyndrome(i, j);
        } else {
          var k, e3 := Split(e2);
          assert e3 == {};
          assert e == {i, j, k};
          TripleSyndrome(i, j, k);
        }
      }
    }
  }
}
