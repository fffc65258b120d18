/**
 The byte-level `[7,3,4]` erasure code: a payload is padded, striped into groups of three bytes, and each group
 coded into one byte for each Fano point; a reader peels every stripe and reads the systematic points back.
 */
module Erasure {
  import opened Symbolic
  import opened Octets
  import opened Peeling
  import opened Fano

  const K: nat := 3

  /** The three data bytes of a stripe. */
  datatype Group = Group(x: bv8, y: bv8, z: bv8)

  function Selected(on: bool, d: bv8): bv8 { if on then d else 0 }

  /** The symbol of a point: the XOR of the data its coordinates select. */
  function Symbol(d: Group, p: nat): bv8 {
    var c := Coords(p);
    Plus(Plus(Selected(c.0, d.x), Selected(c.1, d.y)), Selected(c.2, d.z))
  }

  /** The symbols of the first `n` points. */
  function Symbols(d: Group, n: nat): (word: seq<bv8>)
    ensures |word| == n && forall p :: 0 <= p < n ==> word[p] == Symbol(d, p)
  {
    if n == 0 then [] else Symbols(d, n - 1) + [Symbol(d, n - 1)]
  }

  function Codeword(d: Group): seq<bv8> { Symbols(d, N) }

  /** The points that carry a data byte verbatim. */
  const BASIS_POINTS: seq<nat> := [0, 4, 6]

  function DecodeGroup(word: seq<bv8>): Group
    requires |word| == N
  {
    Group(word[BASIS_POINTS[0]], word[BASIS_POINTS[1]], word[BASIS_POINTS[2]])
  }

  lemma {:induction false} Systematic(d: Group)
    ensures DecodeGroup(Codeword(d)) == d
  {
    hide Symbol;
    SymbolTable(d);
  }

  /** The parity of a word on three points. */
  lemma {:induction false} ParityOfThree(word: seq<bv8>, a: nat, b: nat, c: nat)
    requires |word| == N && a < b < c < N
    ensures Parity(word, {a, b, c}, N) == Plus(Plus(word[a], word[b]), word[c])
  {
    hide Plus;
    ParityTo(word, {a, b, c}, 0, a);
    assert Parity(word, {a, b, c}, a + 1) == Plus(0, word[a]);
    PlusLaws(word[a], 0, 0);
    ParityTo(word, {a, b, c}, a + 1, b);
    assert Parity(word, {a, b, c}, b + 1) == Plus(word[a], word[b]);
    ParityTo(word, {a, b, c}, b + 1, c);
    assert Parity(word, {a, b, c}, c + 1) == Plus(Plus(word[a], word[b]), word[c]);
    ParityTo(word, {a, b, c}, c + 1, N);
  }

  /** Points off the line add nothing. */
  lemma {:induction false} ParityTo(word: seq<bv8>, line: Mask, j: nat, k: nat)
    requires j <= k <= |word| && forall p :: j <= p < k ==> p !in line
    ensures Parity(word, line, k) == Parity(word, line, j)
    decreases k
  {
    hide Plus;
    if j < k {
      ParityTo(word, line, j, k - 1);
      PlusLaws(Parity(word, line, k - 1), 0, 0);
    }
  }

  lemma {:induction false} SymbolTable(d: Group)
    ensures Symbol(d, 0) == d.x && Symbol(d, 4) == d.y && Symbol(d, 6) == d.z
    ensures Symbol(d, 1) == Plus(d.x, d.z) && Symbol(d, 2) == Plus(d.x, d.y) && Symbol(d, 5) == Plus(d.y, d.z)
    ensures Symbol(d, 3) == Plus(Plus(d.x, d.y), d.z)
  {
    hide Plus;
    PlusLaws(d.x, 0, 0);
    PlusLaws(d.y, 0, 0);
    PlusLaws(d.z, 0, 0);
    PlusLaws(0, 0, 0);
    PlusLaws(Plus(d.x, d.y), 0, 0);
    assert Coords(0) == (true, false, false) && Coords(1) == (true, false, true) && Coords(2) == (true, true, false);
    assert Coords(3) == (true, true, true) && Coords(4) == (false, true, false) && Coords(5) == (false, true, true);
  }

  lemma {:induction false} ThreeCancel(a: bv8, b: bv8)
    ensures Plus(Plus(a, Plus(a, b)), b) == 0
  {
  }

  lemma {:induction false} SharedTerm(x: bv8, y: bv8, z: bv8)
    ensures Plus(Plus(x, z), Plus(y, z)) == Plus(x, y) && Plus(x, Plus(y, z)) == Plus(Plus(x, y), z)
  {
  }

  lemma {:induction false} SumsCancel(x: bv8, y: bv8, z: bv8)
    ensures Plus(Plus(y, Plus(y, z)), z) == 0 && Plus(Plus(x, Plus(x, z)), z) == 0 && Plus(Plus(x, Plus(x, y)), y) == 0
    ensures Plus(Plus(Plus(x, z), Plus(Plus(x, y), z)), y) == 0 && Plus(Plus(Plus(x, y), Plus(Plus(x, y), z)), z) == 0
    ensures Plus(Plus(Plus(x, z), Plus(x, y)), Plus(y, z)) == 0 && Plus(Plus(x, Plus(Plus(x, y), z)), Plus(y, z)) == 0
  {
    hide Plus;
    ThreeCancel(y, z);
    ThreeCancel(x, z);
    ThreeCancel(x, y);
    PlusLaws(x, y, z);
    ThreeCancel(Plus(x, z), y);
    ThreeCancel(Plus(x, y), z);
    SharedTerm(x, y, z);
    ThreeCancel(Plus(x, z), Plus(y, z));
    ThreeCancel(x, Plus(y, z));
  }

  lemma {:induction false} CollinearSymbolsCancel(d: Group)
    ensures var w := Codeword(d);
            && Plus(Plus(w[4], w[5]), w[6]) == 0 && Plus(Plus(w[1], w[3]), w[4]) == 0 && Plus(Plus(w[2], w[3]), w[6]) == 0
            && Plus(Plus(w[1], w[2]), w[5]) == 0 && Plus(Plus(w[0], w[1]), w[6]) == 0 && Plus(Plus(w[0], w[3]), w[5]) == 0
            && Plus(Plus(w[0], w[2]), w[4]) == 0
  {
    hide Symbol, Plus;
    SymbolTable(d);
    SumsCancel(d.x, d.y, d.z);
  }

  /** Every Fano line is a parity check of the code. */
  lemma {:induction false} LinesAreChecks(d: Group)
    ensures IsCodeword(INCIDENCE, Codeword(d))
  {
    hide Parity, Plus, LineMask, Symbol;
    TheLines();
    var w := Codeword(d);
    CollinearSymbolsCancel(d);
    ParityOfThree(w, 4, 5, 6);
    ParityOfThree(w, 1, 3, 4);
    ParityOfThree(w, 2, 3, 6);
    ParityOfThree(w, 1, 2, 5);
    ParityOfThree(w, 0, 1, 6);
    ParityOfThree(w, 0, 3, 5);
    ParityOfThree(w, 0, 2, 4);
    assert INCIDENCE[0] == {4, 5, 6} && INCIDENCE[1] == {1, 3, 4} && INCIDENCE[2] == {2, 3, 6} && INCIDENCE[3] == {1, 2, 5};
    assert INCIDENCE[4] == {0, 1, 6} && INCIDENCE[5] == {0, 3, 5} && INCIDENCE[6] == {0, 2, 4};
  }

  method EncodePoint(d: Group, p: nat) returns (value: bv8)
    ensures value == Symbol(d, p)
  {
    hide Plus;
    var c := Coords(p);
    PlusLaws(d.x, 0, 0);
    PlusLaws(0, 0, 0);
    PlusLaws(Selected(c.0, d.x), 0, 0);
    PlusLaws(Plus(Selected(c.0, d.x), Selected(c.1, d.y)), 0, 0);
    value := 0;
    if c.0 { value := Plus(value, d.x); }
    if c.1 { value := Plus(value, d.y); }
    if c.2 { value := Plus(value, d.z); }
  }

  method EncodeGroup(d: Group) returns (word: seq<bv8>)
    ensures word == Codeword(d)
  {
    hide Symbol;
    word := [];
    for p := 0 to N
      invariant |word| == p && forall q :: 0 <= q < p ==> word[q] == Symbol(d, q)
    {
      var value := EncodePoint(d, p);
      word := word + [value];
    }
  }

  // ----- Padding -----

  function PadLen(n: nat): (k: nat)
    ensures 1 <= k <= K && (n + k) % K == 0
  {
    if n % K == 0 then K else K - n % K
  }

  function Repeated(b: bv8, n: nat): (r: Bytes)
    ensures |r| == n && forall i :: 0 <= i < n ==> r[i] == b
  {
    if n == 0 then [] else Repeated(b, n - 1) + [b]
  }

  function Pad(data: Bytes): Bytes { data + Repeated(ByteOf(PadLen(|data|)), PadLen(|data|)) }

  method PadData(data: Bytes) returns (r: Bytes)
    ensures r == Pad(data)
  {
    var n := PadLen(|data|);
    r := data;
    for i := 0 to n
      invariant r == data + Repeated(ByteOf(n), i)
    {
      r := r + [ByteOf(n)];
    }
  }

  function Unpad(data: Bytes): Option<Bytes> {
    if data == [] then None
    else
      var n := Value(data[|data| - 1]);
      if n == 0 || n > K || n > |data| then None
      else if exists i :: |data| - n <= i < |data| && Value(data[i]) != n then None
      else Some(data[..|data| - n])
  }

  lemma {:induction false} PaddingRoundTrip(data: Bytes)
    ensures |Pad(data)| % K == 0 && |Pad(data)| > 0
    ensures Unpad(Pad(data)) == Some(data)
  {
    hide ByteOf, Value;
    var n := PadLen(|data|);
    ByteRoundTrip(n);
    assert Pad(data)[..|data|] == data;
  }

  /** Unpadding accepts exactly what ends in one to three bytes that all give their own number, and takes just those off. */
  lemma {:induction false} UnpadsOnlyPadding(data: Bytes, rest: Bytes)
    ensures Unpad(data) == Some(rest) <==> exists n: nat :: 1 <= n <= K && data == rest + Repeated(ByteOf(n), n)
  {
    hide ByteOf, Value;
    if Unpad(data) == Some(rest) {
      var n := Value(data[|data| - 1]);
      ByteRoundTrip(n);
      forall i | |data| - n <= i < |data|
        ensures data[i] == ByteOf(n)
      {
        ValuesDiffer(data[i], ByteOf(n));
      }
      assert data == rest + Repeated(ByteOf(n), n);
    }
    if n: nat :| 1 <= n <= K && data == rest + Repeated(ByteOf(n), n) {
      ByteRoundTrip(n);
      assert data[..|data| - n] == rest;
    }
  }

  // ----- Stripes -----

  function GroupAt(padded: Bytes, g: nat): Group
    requires 3 * g + 3 <= |padded|
  {
    Group(padded[3 * g], padded[3 * g + 1], padded[3 * g + 2])
  }

  /** The first `n` bytes of point `p`'s shard. */
  function Shard(padded: Bytes, p: nat, n: nat): (r: Bytes)
    requires 3 * n <= |padded|
    ensures |r| == n && forall g :: 0 <= g < n ==> r[g] == Symbol(GroupAt(padded, g), p)
  {
    if n == 0 then [] else Shard(padded, p, n - 1) + [Symbol(GroupAt(padded, n - 1), p)]
  }

  /** `shards` are the first `n` bytes of the shards of `padded`. */
  ghost predicate AreShards(shards: seq<Bytes>, padded: Bytes, n: nat)
    requires 3 * n <= |padded|
  {
    |shards| == N && forall p :: 0 <= p < N ==> shards[p] == Shard(padded, p, n)
  }

  /** Encode a payload into one shard for each point. */
  method Encode(data: Bytes) returns (shards: seq<Bytes>)
    ensures AreShards(shards, Pad(data), |Pad(data)| / K)
  {
    hide Symbol, Pad;
    var padded := PadData(data);
    shards := [[], [], [], [], [], [], []];
    for g := 0 to |padded| / K
      invariant AreShards(shards, padded, g)
    {
      var word := EncodeGroup(GroupAt(padded, g));
      shards := Push(shards, word);
    }
  }

  method Push(shards: seq<Bytes>, word: seq<bv8>) returns (r: seq<Bytes>)
    requires |shards| == |word| == N
    ensures |r| == N && forall p :: 0 <= p < N ==> r[p] == shards[p] + [word[p]]
  {
    r := [];
    for p := 0 to N
      invariant |r| == p && forall q :: 0 <= q < p ==> r[q] == shards[q] + [word[q]]
    {
      r := r + [shards[p] + [word[p]]];
    }
  }

  // ----- Reading -----

  /** The shards of a padded payload with the points of `missing` erased. */
  ghost predicate Survive(shards: seq<Option<Bytes>>, padded: Bytes, missing: Mask) {
    && |shards| == N && |padded| % K == 0
    && forall p :: 0 <= p < N ==>
         shards[p] == if p in missing then None else Some(Shard(padded, p, |padded| / K))
  }

  /** Peel one stripe in place and read its data, or report that it is not recoverable. */
  method DecodeStripe(symbols: array<Option<bv8>>) returns (r: Option<Group>)
    requires symbols.Length == N
    modifies symbols
    ensures r.Some? <==> Recoverable(Erased(old(symbols[..])))
    ensures forall d :: r.Some? && Agrees(old(symbols[..]), Codeword(d)) ==> r.value == d
  {
    hide Codeword, Core, Agrees, IsCodeword;
    ghost var start := symbols[..];
    var mask := Erased(symbols[..]);
    assert mask * POINTS == mask;
    var whole := IsRecoverable(mask);
    if !whole { return None; }
    var rest := PeelSymbols(INCIDENCE, symbols);
    var word := Resolve(symbols);
    r := Some(DecodeGroup(word));
    forall d | Agrees(start, Codeword(d))
      ensures DecodeGroup(word) == d
    {
      LinesAreChecks(d);
      AgreesOnAll(symbols[..], Codeword(d), word);
      Systematic(d);
    }
  }

  method Resolve(symbols: array<Option<bv8>>) returns (word: seq<bv8>)
    requires symbols.Length == N
    ensures |word| == N && forall p :: 0 <= p < N ==> word[p] == if symbols[p].Some? then symbols[p].value else 0
  {
    word := [];
    for p := 0 to N
      invariant |word| == p && forall q :: 0 <= q < p ==> word[q] == if symbols[q].Some? then symbols[q].value else 0
    {
      var s := symbols[p];
      word := word + [if s.Some? then s.value else 0];
    }
  }

  lemma {:induction false} AgreesOnAll(symbols: seq<Option<bv8>>, code: seq<bv8>, word: seq<bv8>)
    requires Agrees(symbols, code) && |symbols| == |word| && Erased(symbols) == {}
    requires forall p :: 0 <= p < |symbols| ==> word[p] == if symbols[p].Some? then symbols[p].value else 0
    ensures word == code
  {
    forall p: nat | p < |symbols|
      ensures symbols[p].Some?
    {
      assert p !in Erased(symbols);
    }
  }

  /** The length of the first shard present. */
  method FirstLength(shards: seq<Option<Bytes>>) returns (n: Option<nat>)
    ensures n.None? <==> forall p :: 0 <= p < |shards| ==> shards[p].None?
    ensures n.Some? ==> exists p :: 0 <= p < |shards| && shards[p].Some? && |shards[p].value| == n.value
  {
    for p := 0 to |shards|
      invariant forall q :: 0 <= q < p ==> shards[q].None?
    {
      if shards[p].Some? { return Some(|shards[p].value|); }
    }
    return None;
  }

  predicate OneLength(shards: seq<Option<Bytes>>, n: nat) {
    forall p :: 0 <= p < |shards| && shards[p].Some? ==> |shards[p].value| == n
  }

  /** The stripe's symbols across the shards. */
  function StripeAt(shards: seq<Option<Bytes>>, g: nat, n: nat): (r: seq<Option<bv8>>)
    requires n <= |shards|
    ensures |r| == n
    ensures forall p :: 0 <= p < n ==>
              r[p] == if shards[p].Some? && g < |shards[p].value| then Some(shards[p].value[g]) else None
  {
    if n == 0 then []
    else StripeAt(shards, g, n - 1) +
         [if shards[n - 1].Some? && g < |shards[n - 1].value| then Some(shards[n - 1].value[g]) else None]
  }

  function Absent(shards: seq<Option<Bytes>>): (mask: Mask)
    ensures forall p: nat :: p in mask <==> p < |shards| && shards[p].None?
  {
    set p: nat | p < |shards| && shards[p].None?
  }

  /**
   Reconstruct a payload from the surviving shards.  For the shards of any stripes with any points erased, the result is
   what unpadding the stripes gives when the losses are recoverable, and so the payload for those of a payload, and nothing
   otherwise.
   */
  method Reconstruct(shards: seq<Option<Bytes>>) returns (r: Option<Bytes>)
    requires |shards| == N
    ensures forall padded, missing :: missing <= POINTS && Survive(shards, padded, missing) ==>
              r == if Recoverable(missing) then Unpad(padded) else None
    ensures forall data, missing :: missing <= POINTS && Survive(shards, Pad(data), missing) ==>
              r == if Recoverable(missing) then Some(data) else None
    ensures r.Some? ==> Recoverable(Absent(shards)) && exists n :: n > 0 && OneLength(shards, n)
  {
    hide Pad, Unpad, Recoverable, Shard, Symbol, Codeword, Survive, Symbols, Agrees;
    var groups := FirstLength(shards);
    if groups.None? {
      NothingSurvives(shards);
      return None;
    }
    if !OneLength(shards, groups.value) {
      LengthsAgree(shards, groups.value);
      return None;
    }
    LengthIsGroups(shards, groups.value);
    var out: Bytes := [];
    for g := 0 to groups.value
      invariant |out| == 3 * g
      invariant g > 0 ==> Recoverable(Absent(shards))
      invariant forall padded, missing :: Survive(shards, padded, missing) && 3 * g <= |padded| ==> out == padded[..3 * g]
    {
      var stripe := StripeAt(shards, g, N);
      var symbols := new Option<bv8>[N](i requires 0 <= i < N => stripe[i]);
      assert symbols[..] == stripe;
      StripeMask(shards, g, groups.value);
      var d := DecodeStripe(symbols);
      if d.None? {
        NotRecovered(shards);
        return None;
      }
      forall padded, missing | Survive(shards, padded, missing) && 3 * g + 3 <= |padded|
        ensures out + [d.value.x, d.value.y, d.value.z] == padded[..3 * g + 3]
      {
        StripeAgrees(shards, padded, missing, g);
        assert out == padded[..3 * g];
      }
      out := out + [d.value.x, d.value.y, d.value.z];
    }
    r := Unpad(out);
    UnpadNothing();
    forall padded, missing | missing <= POINTS && Survive(shards, padded, missing)
      ensures r == if Recoverable(missing) then Unpad(padded) else None
    {
      AbsentIsMissing(shards, padded, missing);
      WholePayload(shards, padded, missing, groups.value);
      assert padded[..|padded|] == padded;
    }
    PaddingComesOff();
  }

  lemma {:induction false} PaddingComesOff()
    ensures forall data :: Unpad(Pad(data)) == Some(data)
  {
    hide Pad, Unpad;
    forall data
      ensures Unpad(Pad(data)) == Some(data)
    {
      PaddingRoundTrip(data);
    }
  }

  lemma {:induction false} UnpadNothing()
    ensures Unpad([]).None?
  {
  }

  lemma {:induction false} AbsentIsMissing(shards: seq<Option<Bytes>>, padded: Bytes, missing: Mask)
    requires Survive(shards, padded, missing) && missing <= POINTS
    ensures Absent(shards) == missing
  {
    hide Shard;
  }

  lemma {:induction false} NothingSurvives(shards: seq<Option<Bytes>>)
    requires |shards| == N && forall p :: 0 <= p < N ==> shards[p].None?
    ensures forall padded, missing :: missing <= POINTS && Survive(shards, padded, missing) ==> !Recoverable(missing)
  {
    hide Shard, Pad, LineMask, Recoverable;
    forall padded, missing | missing <= POINTS && Survive(shards, padded, missing)
      ensures !Recoverable(missing)
    {
      AbsentIsMissing(shards, padded, missing);
      assert missing == POINTS;
      RecoverableIff(missing);
      assert POINTS - missing <= LineMask(0);
    }
  }

  lemma {:induction false} LengthsAgree(shards: seq<Option<Bytes>>, n: nat)
    requires exists p :: 0 <= p < |shards| && shards[p].Some? && |shards[p].value| == n
    ensures forall padded, missing :: Survive(shards, padded, missing) ==> OneLength(shards, n)
  {
    hide Symbol;
  }

  lemma {:induction false} LengthIsGroups(shards: seq<Option<Bytes>>, n: nat)
    requires OneLength(shards, n) && exists p :: 0 <= p < |shards| && shards[p].Some?
    ensures forall padded, missing :: Survive(shards, padded, missing) ==> |padded| == 3 * n
  {
    hide Symbol;
  }

  lemma {:induction false} WholePayload(shards: seq<Option<Bytes>>, padded: Bytes, missing: Mask, n: nat)
    requires OneLength(shards, n) && exists p :: 0 <= p < |shards| && shards[p].Some?
    requires Survive(shards, padded, missing)
    ensures |padded| == 3 * n
  {
    LengthIsGroups(shards, n);
  }

  lemma {:induction false} StripeMask(shards: seq<Option<Bytes>>, g: nat, n: nat)
    requires |shards| == N && OneLength(shards, n) && g < n
    ensures Erased(StripeAt(shards, g, N)) == Absent(shards)
  {
  }

  lemma {:induction false} NotRecovered(shards: seq<Option<Bytes>>)
    requires |shards| == N && !Recoverable(Absent(shards))
    ensures forall padded, missing :: missing <= POINTS && Survive(shards, padded, missing) ==> !Recoverable(missing)
  {
    hide Shard, Pad, Recoverable;
    forall padded, missing | missing <= POINTS && Survive(shards, padded, missing)
      ensures !Recoverable(missing)
    {
      AbsentIsMissing(shards, padded, missing);
    }
  }

  lemma {:induction false} StripeAgrees(shards: seq<Option<Bytes>>, padded: Bytes, missing: Mask, g: nat)
    requires Survive(shards, padded, missing) && 3 * g + 3 <= |padded|
    ensures Agrees(StripeAt(shards, g, N), Codeword(GroupAt(padded, g)))
  {
    hide Symbol;
  }

  /** Encode, lose any points, reconstruct: the payload comes back exactly when the losses are recoverable. */
  method RoundTrip(data: Bytes, missing: Mask) returns (r: Option<Bytes>)
    requires missing <= POINTS
    ensures r == if Recoverable(missing) then Some(data) else None
  {
    hide Pad, Shard, Recoverable;
    var shards := Encode(data);
    PaddingRoundTrip(data);
    var surviving: seq<Option<Bytes>> := [];
    for p := 0 to N
      invariant |surviving| == p
      invariant forall q :: 0 <= q < p ==> surviving[q] == if q in missing then None else Some(shards[q])
    {
      surviving := surviving + [if p in missing then None else Some(shards[p])];
    }
    assert Survive(surviving, Pad(data), missing);
    r := Reconstruct(surviving);
  }
}
