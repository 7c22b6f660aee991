/**
 * Compressed public keys: one coordinate and the parity of the other determine the point.
 *
 * The curve is any cubic over an odd prime field of at most 256 bits. Decoding takes a square root of the
 * cubic and, when its parity is wrong, the other one; that the two roots of a number differ in parity is
 * what makes the compressed form unambiguous.
 */
module PubKeys {
  import opened Bytes
  import opened ModularArithmetic
  import opened SquareRoots

  /** A curve `y^2 = x^3 + ax + b` over a prime field of at most 256 bits. */
  datatype Curve = Curve(p: nat, a: nat, b: nat)
  {
    ghost predicate Valid() { IsOddPrime(p) && p <= TWO_TO_256 && a < p && b < p }

    /** The right-hand side, by the branch the code takes on `a`. */
    function XTerms(x: int): int
      requires p > 0
    {
      var m := x % p;
      if a != 0 then (m * ((m * m + a) % p) + b) % p else (PowMod(m, 3, p) + b) % p
    }
  }

  datatype PubKey = PubKey(x: nat, y: nat)

  ghost predicate OnCurve(c: Curve, x: int, y: int)
    requires c.p > 0
  {
    (y * y) % c.p == c.XTerms(x)
  }

  lemma {:induction false} ModPlus(a: int, b: int, p: int)
    requires p > 0
    ensures (a % p + b) % p == (a + b) % p
  {
    assert (a % p + b) - (a + b) == p * -(a / p);
    MulMod(-(a / p), p);
    SameMod(a % p + b, a + b, p);
  }

  /** Both branches compute the cubic. */
  lemma {:induction false} XTermsIsCubic(c: Curve, x: int)
    requires c.p > 0
    ensures c.XTerms(x) == (x * x * x + c.a * x + c.b) % c.p
  {
    var p, m := c.p, x % c.p;
    ModIdem(x, p);
    ModTimes(m, m, x, x, p);
    if c.a != 0 {
      ModPlus(m * m, c.a, p);
      ModPlus(x * x, c.a, p);
      ModIdem(m * m + c.a, p);
      ModTimes(m, (m * m + c.a) % p, x, x * x + c.a, p);
      ModPlus(m * ((m * m + c.a) % p), c.b, p);
      ModPlus(x * (x * x + c.a), c.b, p);
      assert x * (x * x + c.a) == x * x * x + c.a * x;
    } else {
      ModTimes(m * m, m, x * x, x, p);
      PowThree(m);
      ModPlus(m * m * m, c.b, p);
      ModPlus(x * x * x, c.b, p);
      assert c.a * x == 0;
    }
  }

  lemma {:induction false} PowThree(m: int)
    ensures Pow(m, 3) == m * m * m
  {
    assert Pow(m, 3) == m * Pow(m, 2) && Pow(m, 2) == m * Pow(m, 1) && Pow(m, 1) == m * Pow(m, 0);
    assert m * (m * m) == m * m * m;
  }

  method IsXOnCurve(c: Curve, x: int) returns (b: bool)
    requires c.Valid()
    ensures b <==> IsResidue(c.XTerms(x), c.p)
  {
    hide IsPrime;
    PrimeIsBig(c.p);
    b := IsQuadraticResidue(c.XTerms(x), c.p);
  }

  /** The smaller of the two roots, when there is one. */
  method FindYFromX(c: Curve, x: int) returns (r: Option<nat>)
    requires c.Valid()
    ensures r.Some? <==> IsResidue(c.XTerms(x), c.p)
    ensures r.Some? ==> OnCurve(c, x, r.value) && r.value <= c.p - r.value
  {
    hide IsPrime, IsResidue;
    PrimeIsBig(c.p);
    var found := IsXOnCurve(c, x);
    if !found { return None; }
    var rhs := c.XTerms(x);
    var ok, y := TonelliShanks(rhs, c.p);
    var other := (0 - y) % c.p;
    Opposite(y, c.p);
    ModSmall(rhs, c.p);
    r := Some(if other < y then other else y);
  }

  lemma {:induction false} Opposite(y: nat, p: int)
    requires p > 0 && y < p
    ensures (0 - y) % p == if y == 0 then 0 else p - y
    ensures ((p - y) * (p - y)) % p == (y * y) % p
  {
    var z: int := p - y;
    assert z * z - y * y == p * (p - 2 * y) by { assert z * z == p * p - 2 * (p * y) + y * y; assert p * (p - 2 * y) == p * p - 2 * (p * y); }
    MulMod(p - 2 * y, p);
    SameMod(z * z, y * y, p);
    SameMod(0 - y, z, p);
    assert 0 - y - z == p * -1;
    MulMod(-1, p);
    if y > 0 { ModSmall(z, p); } else { ModSmall(0, p); }
  }

  /** A parity byte and the x coordinate, big-endian. */
  function Compressed(k: PubKey): (bs: seq<byte>)
    ensures |bs| == 33
  {
    [if k.y % 2 == 0 then 2 else 3] + ToBE(k.x, 32)
  }

  /** A point as decoding yields it: `y` is reduced, but for the odd form of a zero `y`, which is `p` itself. */
  ghost predicate IsPoint(c: Curve, k: PubKey)
    requires c.p > 0
  {
    0 < k.x < c.p && OnCurve(c, k.x, k.y) && (k.y < c.p || (k.y == c.p && c.XTerms(k.x) == 0))
  }

  /** The parity byte tells the two roots apart: no two points have the same compressed form. */
  lemma {:induction false} CompressedInjective(c: Curve, k: PubKey, l: PubKey)
    requires c.Valid() && IsPoint(c, k) && IsPoint(c, l) && Compressed(k) == Compressed(l)
    ensures k == l
  {
    assert Compressed(k)[1..] == ToBE(k.x, 32) && Compressed(l)[1..] == ToBE(l.x, 32);
    assert Compressed(k)[0] == Compressed(l)[0];
    hide *;
    CompressedX(c, k);
    CompressedX(c, l);
    SameParitySameRoot(c, k.x, k.y, l.y) by { RootsAndParity(c, k, l); }
  }

  lemma {:induction false} CompressedX(c: Curve, k: PubKey)
    requires c.Valid() && IsPoint(c, k)
    ensures FromBE(ToBE(k.x, 32)) == k.x
  {
    FitsIn32(c, k.x);
  }

  lemma {:induction false} RootsAndParity(c: Curve, k: PubKey, l: PubKey)
    requires c.Valid() && IsPoint(c, k) && IsPoint(c, l) && Compressed(k)[0] == Compressed(l)[0] && k.x == l.x
    ensures c.p > 0 && OnCurve(c, k.x, k.y) && OnCurve(c, k.x, l.y)
    ensures k.y <= c.p && l.y <= c.p && k.y % 2 == l.y % 2
  {
    hide IsPrime;
    PrimeIsBig(c.p);
  }

  lemma {:induction false} SameParitySameRoot(c: Curve, x: nat, y: nat, z: nat)
    requires c.Valid() && c.p > 0 && OnCurve(c, x, y) && OnCurve(c, x, z) && y <= c.p && z <= c.p && y % 2 == z % 2
    ensures y == z
  {
    hide IsPrime;
    PrimeIsBig(c.p);
    EqualSquares(c.p, y, z);
  }

  lemma {:induction false} DifferenceOfSquares(y: int, z: int)
    ensures (y - z) * (y + z) == y * y - z * z
  {}

  lemma {:induction false} EqualSquares(p: int, y: int, z: int)
    requires IsOddPrime(p) && (y * y) % p == (z * z) % p && 0 <= y <= p && 0 <= z <= p && y % 2 == z % 2
    ensures y == z
  {
    RootsDivide(p, y, z);
    LargestSum(p, y, z);
  }

  lemma {:induction false} RootsDivide(p: int, y: int, z: int)
    requires IsOddPrime(p) && (y * y) % p == (z * z) % p
    ensures Divides(p, y - z) || Divides(p, y + z)
  {
    hide IsPrime, Divides;
    PrimeIsBig(p);
    SameMod(y * y, z * z, p);
    DifferenceOfSquares(y, z);
    NoZeroDivisors(p, y - z, y + z);
  }

  lemma {:induction false} LargestSum(p: int, y: int, z: int)
    requires p > 0 && p % 2 == 1 && 0 <= y <= p && 0 <= z <= p && y % 2 == z % 2
    requires Divides(p, y - z) || Divides(p, y + z)
    ensures y == z
  {
    hide Divides;
    MultiplesUpToTwice(y - z, y + z, p);
  }

  lemma {:induction false} MultiplesUpToTwice(d: int, e: int, p: int)
    requires p > 0 && p % 2 == 1 && -p <= d <= p && 0 <= e <= 2 * p && d % 2 == 0 && e % 2 == 0
    requires Divides(p, d) || Divides(p, e)
    ensures d == 0 || e == 0 || e == 2 * p
  {
    if Divides(p, d) {
      if -p < d < p { SmallMultiple(d, p); }
    } else {
      if e < p { SmallMultiple(e, p); }
      if p < e < 2 * p { DividesSum(p, e, p) by { assert p == p * 1; MulMod(1, p); } SmallMultiple(e - p, p); }
    }
  }

  lemma {:induction false} FitsIn32(c: Curve, x: nat)
    requires c.Valid() && x < c.p
    ensures FromBE(ToBE(x, 32)) == x
  {
    Pow256Of32();
    ToFromBE32(x);
  }

  lemma {:induction false} ToFromBE32(x: nat)
    requires x < Pow256(32)
    ensures FromBE(ToBE(x, 32)) == x
  {
    FromToBE(x, 32);
  }

  /**
   * Decodes 33 bytes: succeeds exactly on the compressed form of some point, and returns that point.
   */
  method FromCompressed(c: Curve, bs: seq<byte>) returns (r: Option<PubKey>)
    requires c.Valid()
    ensures r.Some? ==> IsPoint(c, r.value) && Compressed(r.value) == bs
    ensures r.None? ==> forall k :: IsPoint(c, k) ==> Compressed(k) != bs
  {
    hide IsPrime, IsResidue, Compressed, IsPoint, OnCurve, Curve.XTerms;
    PrimeIsBig(c.p);
    forall k | IsPoint(c, k) && Compressed(k) == bs ensures HasShape(c, bs) {
      EncodingShape(c, k);
    }
    if |bs| != 33 { return None; }
    var prefix := bs[0];
    if prefix != 2 && prefix != 3 { return None; }
    var x := FromBE(bs[1..]);
    if !(0 < x < c.p) { return None; }
    var y := FindYFromX(c, x);
    if y.None? { return None; }
    var want := if prefix == 3 then 1 else 0;
    var z := y.value;
    OppositeOnCurve(c, x, z);
    OtherParity(z, c.p);
    if z % 2 != want { z := c.p - z; }
    assert z % 2 == bs[0] - 2;
    r := Some(PubKey(x, z));
    DecodedShape(c, bs, x, z);
  }

  lemma {:induction false} OtherParity(y: nat, p: int)
    requires p % 2 == 1 && y <= p
    ensures (p - y) % 2 == 1 - y % 2
  {}

  lemma {:induction false} OppositeOnCurve(c: Curve, x: nat, y: nat)
    requires c.p > 0 && y < c.p && OnCurve(c, x, y)
    ensures OnCurve(c, x, c.p - y)
    ensures y == 0 ==> c.XTerms(x) == 0
  {
    Opposite(y, c.p);
    ModSmall(0, c.p);
  }

  /** What the compressed form of a point looks like. */
  ghost predicate HasShape(c: Curve, bs: seq<byte>)
    requires c.p > 0
  {
    && |bs| == 33 && (bs[0] == 2 || bs[0] == 3)
    && 0 < FromBE(bs[1..]) < c.p && IsResidue(c.XTerms(FromBE(bs[1..])), c.p)
  }

  lemma {:induction false} EncodingShape(c: Curve, k: PubKey)
    requires c.Valid() && c.p > 0 && IsPoint(c, k)
    ensures HasShape(c, Compressed(k))
  {
    hide IsPrime;
    PrimeIsBig(c.p);
    assert Compressed(k)[1..] == ToBE(k.x, 32);
    FitsIn32(c, k.x);
    ModIdem(k.y * k.y, c.p);
    if k.y == c.p {
      ModSmall(0, c.p);
      assert (0 * 0) % c.p == c.XTerms(k.x) % c.p;
    } else {
      assert (k.y * k.y) % c.p == c.XTerms(k.x) % c.p;
    }
  }

  lemma {:induction false} DecodedShape(c: Curve, bs: seq<byte>, x: nat, y: nat)
    requires c.Valid() && |bs| == 33 && (bs[0] == 2 || bs[0] == 3) && x == FromBE(bs[1..]) && 0 < x < c.p
    requires OnCurve(c, x, y) && (y < c.p || (y == c.p && c.XTerms(x) == 0)) && y % 2 == bs[0] - 2
    ensures IsPoint(c, PubKey(x, y)) && Compressed(PubKey(x, y)) == bs
  {
    ToFromBE(bs[1..]);
    assert bs == [bs[0]] + bs[1..];
  }

  /** Hence decoding undoes encoding. */
  method RoundTrip(c: Curve, k: PubKey) returns (r: Option<PubKey>)
    requires c.Valid() && IsPoint(c, k)
    ensures r == Some(k)
  {
    r := FromCompressed(c, Compressed(k));
    CompressedInjective(c, k, r.value);
  }
}
