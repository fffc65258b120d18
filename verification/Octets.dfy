/** Bytes: big-endian numbers, exclusive or, zero padding and concatenation of equally wide pieces. */
module Octets {

  type Bytes = seq<bv8>

  // ----- A byte as a number below 256 -----

  function Bit(on: bool, weight: bv8): bv8 { if on then weight else 0 }

  function Join(b0: bool, b1: bool, b2: bool, b3: bool, b4: bool, b5: bool, b6: bool, b7: bool): bv8 {
    Bit(b0, 1) | Bit(b1, 2) | Bit(b2, 4) | Bit(b3, 8) | Bit(b4, 16) | Bit(b5, 32) | Bit(b6, 64) | Bit(b7, 128)
  }

  predicate Odd(n: nat) { n % 2 == 1 }

  function Half(n: nat): nat { n / 2 }

  /** The low eight bits of a number. */
  function ByteOf(n: nat): bv8 {
    var n1 := Half(n);
    var n2 := Half(n1);
    var n3 := Half(n2);
    var n4 := Half(n3);
    var n5 := Half(n4);
    var n6 := Half(n5);
    Join(Odd(n), Odd(n1), Odd(n2), Odd(n3), Odd(n4), Odd(n5), Odd(n6), Odd(Half(n6)))
  }

  function Weighs(on: bool, value: nat): nat { if on then value else 0 }

  function Value(b: bv8): (n: nat)
    ensures n < 256
  {
    Has(b, 1, 1) + Has(b, 2, 2) + Has(b, 4, 4) + Has(b, 8, 8)
    + Has(b, 16, 16) + Has(b, 32, 32) + Has(b, 64, 64) + Has(b, 128, 128)
  }

  function Has(b: bv8, weight: bv8, value: nat): nat { if b & weight != 0 then value else 0 }

  lemma {:induction false} JoinHas(b0: bool, b1: bool, b2: bool, b3: bool, b4: bool, b5: bool, b6: bool, b7: bool)
    ensures var b := Join(b0, b1, b2, b3, b4, b5, b6, b7);
            && (b & 1 != 0 <==> b0) && (b & 2 != 0 <==> b1) && (b & 4 != 0 <==> b2) && (b & 8 != 0 <==> b3)
            && (b & 16 != 0 <==> b4) && (b & 32 != 0 <==> b5) && (b & 64 != 0 <==> b6) && (b & 128 != 0 <==> b7)
  {
  }

  lemma {:induction false} JoinValue(b0: bool, b1: bool, b2: bool, b3: bool, b4: bool, b5: bool, b6: bool, b7: bool)
    ensures Value(Join(b0, b1, b2, b3, b4, b5, b6, b7)) ==
            Weighs(b0, 1) + Weighs(b1, 2) + Weighs(b2, 4) + Weighs(b3, 8)
            + Weighs(b4, 16) + Weighs(b5, 32) + Weighs(b6, 64) + Weighs(b7, 128)
  {
    hide Join;
    JoinHas(b0, b1, b2, b3, b4, b5, b6, b7);
  }

  lemma {:induction false} Halves(n: nat)
    ensures n == 2 * Half(n) + Weighs(Odd(n), 1)
  {
  }

  lemma {:induction false} ByteRoundTrip(n: nat)
    requires n < 256
    ensures Value(ByteOf(n)) == n
  {
    hide Join, Value, Half, Odd;
    var n1 := Half(n);
    var n2 := Half(n1);
    var n3 := Half(n2);
    var n4 := Half(n3);
    var n5 := Half(n4);
    var n6 := Half(n5);
    var n7 := Half(n6);
    JoinValue(Odd(n), Odd(n1), Odd(n2), Odd(n3), Odd(n4), Odd(n5), Odd(n6), Odd(n7));
    Halves(n); Halves(n1); Halves(n2); Halves(n3); Halves(n4); Halves(n5); Halves(n6); Halves(n7);
  }

  lemma {:induction false} SameBits(a: bv8, b: bv8)
    requires a & 1 == b & 1 && a & 2 == b & 2 && a & 4 == b & 4 && a & 8 == b & 8
    requires a & 16 == b & 16 && a & 32 == b & 32 && a & 64 == b & 64 && a & 128 == b & 128
    ensures a == b
  {
  }

  lemma {:induction false} OneBit(a: bv8, b: bv8)
    ensures (a & 1 != 0 <==> b & 1 != 0) ==> a & 1 == b & 1
    ensures (a & 2 != 0 <==> b & 2 != 0) ==> a & 2 == b & 2
    ensures (a & 4 != 0 <==> b & 4 != 0) ==> a & 4 == b & 4
    ensures (a & 8 != 0 <==> b & 8 != 0) ==> a & 8 == b & 8
    ensures (a & 16 != 0 <==> b & 16 != 0) ==> a & 16 == b & 16
    ensures (a & 32 != 0 <==> b & 32 != 0) ==> a & 32 == b & 32
    ensures (a & 64 != 0 <==> b & 64 != 0) ==> a & 64 == b & 64
    ensures (a & 128 != 0 <==> b & 128 != 0) ==> a & 128 == b & 128
  {
  }

  /** Different bytes are different numbers. */
  lemma {:induction false} ValuesDiffer(a: bv8, b: bv8)
    requires Value(a) == Value(b)
    ensures a == b
  {
    OneBit(a, b);
    SameBits(a, b);
  }

  // ----- Big-endian numbers -----

  function Pow256(width: nat): nat { if width == 0 then 1 else 256 * Pow256(width - 1) }

  /** The low `width` bytes of a number, most significant first. */
  function Be(n: nat, width: nat): (b: Bytes)
    ensures |b| == width
  {
    if width == 0 then [] else Be(n / 256, width - 1) + [ByteOf(n % 256)]
  }

  function FromBe(b: Bytes): (n: nat)
    ensures n < Pow256(|b|)
  {
    if b == [] then 0 else FromBe(b[..|b| - 1]) * 256 + Value(b[|b| - 1])
  }

  lemma {:induction false} BeRoundTrip(n: nat, width: nat)
    requires n < Pow256(width)
    ensures FromBe(Be(n, width)) == n
  {
    hide ByteOf, Value;
    if width > 0 {
      BeRoundTrip(n / 256, width - 1);
      ByteRoundTrip(n % 256);
      assert Be(n, width)[..width - 1] == Be(n / 256, width - 1);
    }
  }

  /** Writing what was read gives the bytes back. */
  lemma {:induction false} BytesRoundTrip(b: Bytes)
    ensures Be(FromBe(b), |b|) == b
    decreases |b|
  {
    hide ByteOf, Value;
    if b != [] {
      var k := |b| - 1;
      BytesRoundTrip(b[..k]);
      var n := FromBe(b);
      assert n / 256 == FromBe(b[..k]) && n % 256 == Value(b[k]);
      ByteRoundTrip(Value(b[k]));
      ValuesDiffer(ByteOf(Value(b[k])), b[k]);
    }
  }

  lemma {:induction false} FieldWidths()
    ensures Pow256(2) == 0x1_0000 && Pow256(4) == 0x1_0000_0000
  {
    assert Pow256(1) == 256;
    assert Pow256(2) == 256 * 256;
    assert Pow256(3) == 256 * 256 * 256;
  }

  // ----- Exclusive or -----

  /** XOR a stream into a block, as far as the stream reaches. */
  function Xor(block: Bytes, stream: Bytes): (r: Bytes)
    ensures |r| == |block|
    ensures forall i :: 0 <= i < |block| ==> r[i] == if i < |stream| then block[i] ^ stream[i] else block[i]
  {
    if block == [] then []
    else
      var k := |block| - 1;
      Xor(block[..k], stream) + [if k < |stream| then block[k] ^ stream[k] else block[k]]
  }

  lemma {:induction false} BitsTwice(a: bv8, b: bv8)
    ensures (a ^ b) ^ b == a
  {
  }

  /** A layer is its own inverse. */
  lemma {:induction false} XorTwice(block: Bytes, stream: Bytes)
    ensures Xor(Xor(block, stream), stream) == block
  {
    var r := Xor(Xor(block, stream), stream);
    forall i | 0 <= i < |block|
      ensures r[i] == block[i]
    {
      if i < |stream| { BitsTwice(block[i], stream[i]); }
    }
  }

  /** XOR a stream into a block in place. */
  method XorInPlace(block: array<bv8>, stream: Bytes)
    modifies block
    ensures block[..] == Xor(old(block[..]), stream)
  {
    var n := if block.Length < |stream| then block.Length else |stream|;
    for i := 0 to n
      invariant forall j :: 0 <= j < i ==> block[j] == old(block[j]) ^ stream[j]
      invariant forall j :: i <= j < block.Length ==> block[j] == old(block[j])
    {
      block[i] := block[i] ^ stream[i];
    }
  }

  function Zeros(n: nat): (r: Bytes)
    ensures |r| == n
  {
    if n == 0 then [] else Zeros(n - 1) + [0]
  }

  /** The first `n` bytes, or all of them. */
  function First(b: Bytes, n: nat): Bytes { if |b| <= n then b else b[..n] }

  // ----- Pieces of one width -----

  function Concat(pieces: seq<Bytes>): Bytes {
    if pieces == [] then [] else Concat(pieces[..|pieces| - 1]) + pieces[|pieces| - 1]
  }

  predicate AllWide(pieces: seq<Bytes>, width: nat) {
    forall i :: 0 <= i < |pieces| ==> |pieces[i]| == width
  }

  lemma {:induction false} ConcatWidth(pieces: seq<Bytes>, width: nat)
    requires AllWide(pieces, width)
    ensures |Concat(pieces)| == |pieces| * width
  {
    if pieces != [] {
      ConcatWidth(pieces[..|pieces| - 1], width);
      assert |pieces| * width == (|pieces| - 1) * width + width;
    }
  }

  lemma {:induction false} ConcatSum(a: seq<Bytes>, b: seq<Bytes>)
    ensures Concat(a + b) == Concat(a) + Concat(b)
    decreases |b|
  {
    if b == [] {
      assert a + b == a;
    } else {
      assert (a + b)[..|a + b| - 1] == a + b[..|b| - 1];
      ConcatSum(a, b[..|b| - 1]);
      SumAssociates(Concat(a), Concat(b[..|b| - 1]), b[|b| - 1]);
    }
  }

  lemma {:induction false} SumAssociates(a: Bytes, b: Bytes, c: Bytes)
    ensures (a + b) + c == a + (b + c)
  {
  }

  lemma {:induction false} ConcatOne(piece: Bytes)
    ensures Concat([piece]) == piece
  {
    assert [piece][..0] == [];
  }

  lemma {:induction false} ConcatNone()
    ensures Concat([]) == []
  {
  }

  lemma {:induction false} ConcatMore(pieces: seq<Bytes>, piece: Bytes)
    ensures Concat(pieces + [piece]) == Concat(pieces) + piece
  {
    assert (pieces + [piece])[..|pieces|] == pieces;
  }

  /** Where piece `i` lies in the concatenation. */
  lemma {:induction false} PieceAt(pieces: seq<Bytes>, width: nat, i: nat)
    requires AllWide(pieces, width) && i < |pieces|
    ensures 0 <= i * width <= i * width + width <= |Concat(pieces)|
    ensures Concat(pieces)[i * width..i * width + width] == pieces[i]
  {
    var before, after := pieces[..i], pieces[i + 1..];
    assert pieces == before + ([pieces[i]] + after);
    ConcatSum(before, [pieces[i]] + after);
    ConcatSum([pieces[i]], after);
    ConcatOne(pieces[i]);
    ConcatWidth(before, width);
  }
}
