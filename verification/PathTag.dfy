/**
 Projective coordinates on the wire, and the path authenticator: a one-way cascade over a circuit's encoded
 connections, closed over their number.
 */
module PathTag {
  import opened Octets
  import opened Primitives

  type U32 = n: nat | n < 0x1_0000_0000

  /** A projective coordinate. */
  datatype Triple = Triple(x: U32, y: U32, z: U32)

  function EncodeTriple(t: Triple): (b: Bytes)
    ensures |b| == 12
  {
    Be(t.x, 4) + Be(t.y, 4) + Be(t.z, 4)
  }

  function DecodeTriple(b: Bytes): Triple
    requires |b| == 12
  {
    FieldWidths();
    Triple(FromBe(b[..4]), FromBe(b[4..8]), FromBe(b[8..]))
  }

  lemma {:induction false} TripleRoundTrip(t: Triple)
    ensures DecodeTriple(EncodeTriple(t)) == t
  {
    FieldWidths();
    BeRoundTrip(t.x, 4);
    BeRoundTrip(t.y, 4);
    BeRoundTrip(t.z, 4);
    var b := EncodeTriple(t);
    assert b[..4] == Be(t.x, 4) && b[4..8] == Be(t.y, 4) && b[8..] == Be(t.z, 4);
  }

  /** Any twelve bytes are the encoding of what they decode to. */
  lemma {:induction false} BytesOfTriple(b: Bytes)
    requires |b| == 12
    ensures EncodeTriple(DecodeTriple(b)) == b
  {
    FieldWidths();
    BytesRoundTrip(b[..4]);
    BytesRoundTrip(b[4..8]);
    BytesRoundTrip(b[8..]);
    assert b == b[..4] + b[4..8] + b[8..];
  }

  lemma {:induction false} EncodingsDiffer(a: Triple, b: Triple)
    requires EncodeTriple(a) == EncodeTriple(b)
    ensures a == b
  {
    hide EncodeTriple, DecodeTriple;
    TripleRoundTrip(a);
    TripleRoundTrip(b);
  }

  // ----- The cascade -----

  function Cascade(sch: Scheme, chunks: seq<Bytes>, holoseed: Bytes): Bytes
    decreases |chunks|
  {
    if chunks == [] then holoseed
    else sch.hash(RatchetDomain, Cascade(sch, chunks[..|chunks| - 1], holoseed) + chunks[|chunks| - 1])
  }

  /** Close the cascade over the number of hops. */
  function Finish(sch: Scheme, state: Bytes, hops: nat): Bytes { sch.hash(RatchetFinalDomain, state + Be(hops, 4)) }

  lemma {:induction false} CascadeMore(sch: Scheme, chunks: seq<Bytes>, chunk: Bytes, holoseed: Bytes)
    ensures Cascade(sch, chunks + [chunk], holoseed) == sch.hash(RatchetDomain, Cascade(sch, chunks, holoseed) + chunk)
  {
    assert (chunks + [chunk])[..|chunks|] == chunks;
  }

  datatype Collision = Collision(domain: Domain, one: Bytes, two: Bytes)

  predicate IsCollision(sch: Scheme, c: Collision) {
    c.one != c.two && sch.hash(c.domain, c.one) == sch.hash(c.domain, c.two)
  }

  /** Two different paths of one length whose cascades agree give a collision of the ratchet's hash. */
  lemma {:induction false} CascadeBinds(sch: Scheme, one: seq<Bytes>, two: seq<Bytes>, holoseed: Bytes, width: nat)
    returns (c: Collision)
    requires AllWide(one, width) && AllWide(two, width)
    requires |one| == |two| && one != two && Cascade(sch, one, holoseed) == Cascade(sch, two, holoseed)
    ensures IsCollision(sch, c)
    decreases |one|
  {
    var k := |one| - 1;
    var a, b := Cascade(sch, one[..k], holoseed), Cascade(sch, two[..k], holoseed);
    c := Collision(RatchetDomain, a + one[k], b + two[k]);
    if a + one[k] == b + two[k] {
      SameParts(a, one[k], b, two[k]);
      assert one == one[..k] + [one[k]] && two == two[..k] + [two[k]];
      c := CascadeBinds(sch, one[..k], two[..k], holoseed, width);
    }
  }

  lemma {:induction false} SameParts(a: Bytes, x: Bytes, b: Bytes, y: Bytes)
    requires |x| == |y| && a + x == b + y
    ensures a == b && x == y
  {
    assert |a| == |b|;
    assert a == (a + x)[..|a|] && b == (b + y)[..|b|];
    assert x == (a + x)[|a|..] && y == (b + y)[|b|..];
  }

  /** Equal tags mean equal paths, or a collision of the hash. */
  lemma {:induction false} TagBinds(sch: Scheme, one: seq<Bytes>, two: seq<Bytes>, holoseed: Bytes, width: nat)
    returns (c: Collision)
    requires AllWide(one, width) && AllWide(two, width) && |one| <= 0xFFFF_FFFF && |two| <= 0xFFFF_FFFF
    ensures Finish(sch, Cascade(sch, one, holoseed), |one|) == Finish(sch, Cascade(sch, two, holoseed), |two|) ==>
            one == two || IsCollision(sch, c)
  {
    hide Cascade, Be, FromBe;
    var a, b := Cascade(sch, one, holoseed), Cascade(sch, two, holoseed);
    c := Collision(RatchetFinalDomain, a + Be(|one|, 4), b + Be(|two|, 4));
    if a + Be(|one|, 4) == b + Be(|two|, 4) && one != two {
      SameParts(a, Be(|one|, 4), b, Be(|two|, 4));
      FieldWidths();
      BeRoundTrip(|one|, 4);
      BeRoundTrip(|two|, 4);
      c := CascadeBinds(sch, one, two, holoseed, width);
    }
  }
}
