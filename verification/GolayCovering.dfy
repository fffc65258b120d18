/**
 The covering half of the federation grammar: every word of odd weight has a leader.  The patterns of one and
 of three faults are as many as the odd syndromes, and no two of them share a syndrome.
 */
module GolayCovering {
  import opened Symbolic
  import opened Golay

  // ----- Counting -----

  /** The sets of `m` positions below `n`. */
  ghost function Choices(n: nat, m: nat): set<Mask>
    decreases n
  {
    if m == 0 then {{}}
    else if n == 0 then {}
    else Choices(n - 1, m) + WithLast(Choices(n - 1, m - 1), n - 1)
  }

  ghost function WithLast(sets: set<Mask>, last: nat): set<Mask> { set s | s in sets :: s + {last} }

  function Binomial(n: nat, m: nat): nat
    decreases n
  {
    if m == 0 then 1 else if n == 0 then 0 else Binomial(n - 1, m) + Binomial(n - 1, m - 1)
  }

  lemma {:induction false} ChoicesAre(n: nat, m: nat, s: Mask)
    requires s in Choices(n, m)
    ensures |s| == m && forall i :: i in s ==> i < n
    decreases n
  {
    if m > 0 && n > 0 {
      if s in Choices(n - 1, m) {
        ChoicesAre(n - 1, m, s);
      } else {
        var t := LastOut(Choices(n - 1, m - 1), n - 1, s);
        ChoicesAre(n - 1, m - 1, t);
      }
    }
  }

  lemma {:induction false} LastOut(sets: set<Mask>, last: nat, s: Mask) returns (t: Mask)
    requires s in WithLast(sets, last)
    ensures t in sets && s == t + {last}
  {
    t :| t in sets && s == t + {last};
  }

  lemma {:induction false} WithLastSize(sets: set<Mask>, last: nat)
    requires forall s :: s in sets ==> last !in s
    ensures |WithLast(sets, last)| == |sets|
    decreases |sets|
  {
    if sets == {} {
      assert WithLast(sets, last) == {};
    } else {
      var s :| s in sets;
      WithLastSize(sets - {s}, last);
      WithLastMore(sets - {s}, s, last);
      assert sets == (sets - {s}) + {s};
    }
  }

  lemma {:induction false} WithLastMore(sets: set<Mask>, s: Mask, last: nat)
    requires s !in sets && last !in s && forall t :: t in sets ==> last !in t
    ensures WithLast(sets + {s}, last) == WithLast(sets, last) + {s + {last}}
    ensures s + {last} !in WithLast(sets, last)
  {
    forall x | x in WithLast(sets, last) + {s + {last}}
      ensures x in WithLast(sets + {s}, last)
    {
      var t :| t in sets + {s} && x == t + {last};
    }
    forall t | t in sets
      ensures t + {last} != s + {last}
    {
      assert (t + {last}) - {last} == t && (s + {last}) - {last} == s;
    }
  }

  lemma {:induction false} ChoicesCount(n: nat, m: nat)
    ensures |Choices(n, m)| == Binomial(n, m)
    decreases n
  {
    hide Choices;
    ChoicesBase(n);
    if m > 0 && n > 0 {
      ChoicesCount(n - 1, m);
      ChoicesCount(n - 1, m - 1);
      ChoicesSplit(n, m);
    } else if n == 0 && m > 0 {
      ChoicesOfNothing(m);
    }
  }

  lemma {:induction false} ChoicesBase(n: nat)
    ensures |Choices(n, 0)| == 1
  {
  }

  lemma {:induction false} ChoicesOfNothing(m: nat)
    requires m > 0
    ensures |Choices(0, m)| == 0
  {
  }

  lemma {:induction false} ChoicesSplit(n: nat, m: nat)
    requires n > 0 && m > 0
    ensures |Choices(n, m)| == |Choices(n - 1, m)| + |Choices(n - 1, m - 1)|
  {
    var without, shorter := Choices(n - 1, m), Choices(n - 1, m - 1);
    assert Choices(n, m) == without + WithLast(shorter, n - 1);
    hide Choices;
    forall s | s in shorter
      ensures n - 1 !in s
    {
      ChoicesAre(n - 1, m - 1, s);
    }
    WithLastSize(shorter, n - 1);
    forall s | s in without
      ensures s !in WithLast(shorter, n - 1)
    {
      ChoicesAre(n - 1, m, s);
    }
    assert without !! WithLast(shorter, n - 1);
  }

  lemma {:induction false} OneOf(n: nat)
    ensures Binomial(n, 1) == n
    decreases n
  {
    if n > 0 { OneOf(n - 1); }
  }

  lemma {:induction false} TwoOf(n: nat)
    ensures 2 * Binomial(n, 2) == n * (n - 1)
    decreases n
  {
    if n > 0 {
      TwoOf(n - 1);
      OneOf(n - 1);
      assert (n - 1) * (n - 2) + 2 * (n - 1) == n * (n - 1);
    }
  }

  lemma {:induction false} ThreeOf(n: nat)
    ensures 6 * Binomial(n, 3) == n * (n - 1) * (n - 2)
    decreases n
  {
    if n > 0 {
      ThreeOf(n - 1);
      TwoOf(n - 1);
      Cubic(n, n - 1, n - 2);
    }
  }

  lemma {:induction false} Cubic(a: int, b: int, c: int)
    ensures b * c * (a - 3) + 3 * (b * c) == a * b * c
  {
    var k := b * c;
    assert k * (a - 3) + 3 * k == k * a;
    assert k * a == a * b * c;
  }

  // ----- The patterns of one and of three faults -----

  ghost function Patterns(): set<Mask> { Choices(24, 1) + Choices(24, 3) }

  lemma {:induction false} PatternsCount()
    ensures |Patterns()| == 2048
    ensures forall e :: e in Patterns() ==> IsWord(e) && (|e| == 1 || |e| == 3)
  {
    hide Choices, Binomial;
    ChoicesCount(24, 1);
    ChoicesCount(24, 3);
    OneOf(24);
    ThreeOf(24);
    forall e | e in Choices(24, 1)
      ensures |e| == 1 && IsWord(e)
    {
      ChoicesAre(24, 1, e);
    }
    forall e | e in Choices(24, 3)
      ensures |e| == 3 && IsWord(e)
    {
      ChoicesAre(24, 3, e);
    }
    assert Choices(24, 1) !! Choices(24, 3);
  }

  ghost function Syndromes(patterns: set<Mask>): set<Syndrome> { set e | e in patterns :: SyndromeOf(e) }

  lemma {:induction false} SyndromesCount(patterns: set<Mask>)
    requires forall e :: e in patterns ==> IsWord(e) && |e| <= T
    ensures |Syndromes(patterns)| == |patterns|
    decreases |patterns|
  {
    hide SyndromeOf;
    if patterns == {} {
      assert Syndromes(patterns) == {};
    } else {
      var e :| e in patterns;
      SyndromesCount(patterns - {e});
      OneMorePattern(patterns - {e}, e);
      assert patterns == (patterns - {e}) + {e};
    }
  }

  lemma {:induction false} OneMorePattern(patterns: set<Mask>, e: Mask)
    requires e !in patterns && IsWord(e) && |e| <= T
    requires forall f :: f in patterns ==> IsWord(f) && |f| <= T
    ensures Syndromes(patterns + {e}) == Syndromes(patterns) + {SyndromeOf(e)}
    ensures SyndromeOf(e) !in Syndromes(patterns)
  {
    hide SyndromeOf;
    forall s | s in Syndromes(patterns) + {SyndromeOf(e)}
      ensures s in Syndromes(patterns + {e})
    {
      var f :| f in patterns + {e} && s == SyndromeOf(f);
    }
    forall f | f in patterns
      ensures SyndromeOf(f) != SyndromeOf(e)
    {
      if SyndromeOf(f) == SyndromeOf(e) { LeaderIsUnique(e, e, f); }
    }
  }

  // ----- The odd syndromes -----

  /** The parity that a glue syndrome shows. */
  predicate OddGlue(x: Bits) { (x.s0 != x.s1) != x.s3 }

  lemma {:induction false} OddSize(x: Mask)
    requires IsBlock(x)
    ensures OddGlue(BlockSyndrome(x, Basis(NON_RESIDUES))) <==> |x| % 2 == 1
  {
    hide Odd, Basis;
    Checks();
    OddOnFour(x, 3, 5, 6, 7);
    OddOnFour(x, 4, 6, 0, 7);
    OddOnFour(x, 5, 0, 1, 7);
    OddOnFour(x, 6, 1, 2, 7);
    SizeByCoordinates(x);
  }

  /** A word's parity is that of its glue, so its syndrome shows it. */
  lemma {:induction false} OddWord(w: Mask)
    requires IsWord(w)
    ensures OddGlue(SyndromeOf(w).x) <==> |w| % 2 == 1
  {
    hide Xor, Block, OddGlue, BlockSyndrome, Basis;
    var u, v, z := Block(w, 0), Block(w, 1), Block(w, 2);
    WordOfBlocks(w);
    XorSize(u, v);
    XorSize(Xor(u, v), z);
    BlockIsBlock(u, v);
    BlockIsBlock(Xor(u, v), z);
    OddSize(Glue(w));
    SameParity(|Glue(w)|, |w|, |u * v|, |Xor(u, v) * z|);
  }

  lemma {:induction false} SameParity(n: nat, total: nat, j: nat, k: nat)
    requires n + 2 * j + 2 * k == total
    ensures n % 2 == total % 2
  {
  }

  function Nibble(b: Bits): (n: nat)
    ensures n < 16
  {
    One(b.s0) + 2 * One(b.s1) + 4 * One(b.s2) + 8 * One(b.s3)
  }

  function Three(b: Bits): (n: nat)
    ensures n < 8
  {
    One(b.s0) + 2 * One(b.s1) + 4 * One(b.s2)
  }

  /** The number of an odd syndrome below 2048: its last bit follows from the parity. */
  function Number(s: Syndrome): (n: nat)
    ensures n < 2048
  {
    128 * Nibble(s.a) + 8 * Nibble(s.b) + Three(s.x)
  }

  lemma {:induction false} NibbleDiffers(a: Bits, b: Bits)
    ensures Nibble(a) == Nibble(b) ==> a == b
    ensures Three(a) == Three(b) && OddGlue(a) && OddGlue(b) ==> a == b
  {
  }

  lemma {:induction false} NumberDiffers(s: Syndrome, t: Syndrome)
    requires OddGlue(s.x) && OddGlue(t.x) && Number(s) == Number(t)
    ensures s == t
  {
    hide Nibble, Three, OddGlue;
    NibbleDiffers(s.a, t.a);
    NibbleDiffers(s.b, t.b);
    NibbleDiffers(s.x, t.x);
  }

  ghost function Below(n: nat): (r: set<nat>)
    ensures |r| == n && forall i: nat :: i in r <==> i < n
  {
    if n == 0 then {} else Below(n - 1) + {n - 1}
  }

  ghost function NumbersOf(syndromes: set<Syndrome>): set<nat> { set s | s in syndromes :: Number(s) }

  lemma {:induction false} NumbersCount(syndromes: set<Syndrome>)
    requires forall s :: s in syndromes ==> OddGlue(s.x)
    ensures |NumbersOf(syndromes)| == |syndromes|
    decreases |syndromes|
  {
    hide Number, OddGlue;
    if syndromes == {} {
      assert NumbersOf(syndromes) == {};
    } else {
      var s :| s in syndromes;
      NumbersCount(syndromes - {s});
      OneMoreNumber(syndromes - {s}, s);
      assert syndromes == (syndromes - {s}) + {s};
    }
  }

  lemma {:induction false} OneMoreNumber(syndromes: set<Syndrome>, s: Syndrome)
    requires s !in syndromes && OddGlue(s.x) && forall t :: t in syndromes ==> OddGlue(t.x)
    ensures NumbersOf(syndromes + {s}) == NumbersOf(syndromes) + {Number(s)}
    ensures Number(s) !in NumbersOf(syndromes)
  {
    hide Number, OddGlue;
    forall n | n in NumbersOf(syndromes) + {Number(s)}
      ensures n in NumbersOf(syndromes + {s})
    {
      var t :| t in syndromes + {s} && n == Number(t);
    }
    forall t | t in syndromes
      ensures Number(t) != Number(s)
    {
      if Number(t) == Number(s) { NumberDiffers(t, s); }
    }
  }

  /** There are at most 2048 odd syndromes. */
  lemma {:induction false} OddSyndromesBound(syndromes: set<Syndrome>)
    requires forall s :: s in syndromes ==> OddGlue(s.x)
    ensures |syndromes| <= 2048
  {
    hide Number, OddGlue, Below;
    NumbersCount(syndromes);
    var numbers, all := NumbersOf(syndromes), Below(2048);
    assert numbers <= all;
    assert all == numbers + (all - numbers);
  }

  // ----- The covering -----

  /** Every word of odd weight is within three faults of a codeword. */
  lemma {:induction false} OddWordsHaveLeaders(w: Mask)
    requires IsWord(w) && !Even(|w|)
    ensures Leader(w).Some?
  {
    hide SyndromeOf, Leader, OddGlue, Patterns;
    PatternsCount();
    var image, mine := Syndromes(Patterns()), SyndromeOf(w);
    SyndromesCount(Patterns());
    forall s | s in image
      ensures OddGlue(s.x)
    {
      var e :| e in Patterns() && s == SyndromeOf(e);
      OddWord(e);
    }
    OddWord(w);
    OddSyndromesBound(image + {mine});
    assert mine in image;
    var e :| e in Patterns() && mine == SyndromeOf(e);
    LeaderIs(w, e);
  }
}
