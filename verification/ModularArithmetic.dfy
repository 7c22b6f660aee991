/** Arithmetic modulo a prime: Euclid's lemma, Fermat's theorem, and a bound on the roots of a polynomial. */
module ModularArithmetic {
  import opened Sets

  predicate IsPrime(p: int) { p >= 2 && forall d :: 1 < d < p ==> p % d != 0 }

  predicate Divides(p: int, n: int)
    requires p > 0
  {
    n % p == 0
  }

  // ----- remainders -----

  lemma {:induction false} MulMod(k: int, p: int)
    requires p > 0
    ensures (p * k) % p == 0
  {
    var r := (p * k) % p;
    var q := (p * k) / p;
    assert p * k == p * q + r;
    Factor(p, k, q, r);
  }

  lemma {:induction false} Factor(p: int, k: int, q: int, r: int)
    requires p > 0 && 0 <= r < p && p * k == p * q + r
    ensures r == 0
  {
    AtLeastOnce(p, k - q);
    AtLeastOnce(p, q - k);
  }

  lemma {:induction false} AtLeastOnce(p: int, k: int)
    requires p > 0
    ensures k >= 1 ==> p * k >= p
  {}

  lemma {:induction false} Rearrange(a: int, b: int, x: int, y: int)
    ensures (a * b) * (x * y) == (a * x) * (b * y)
  {}

  lemma {:induction false} DividesTimes(p: int, n: int, k: int)
    requires p > 0 && Divides(p, n)
    ensures Divides(p, n * k) && Divides(p, k * n)
  {
    var q := n / p;
    assert n * k == p * (q * k);
    MulMod(q * k, p);
    assert k * n == n * k;
  }

  lemma {:induction false} DividesSum(p: int, a: int, b: int)
    requires p > 0 && Divides(p, a) && Divides(p, b)
    ensures Divides(p, a + b) && Divides(p, a - b)
  {
    var qa, qb := a / p, b / p;
    assert a + b == p * (qa + qb) && a - b == p * (qa - qb);
    MulMod(qa + qb, p);
    MulMod(qa - qb, p);
  }

  /** Equal remainders are a divisible difference. */
  lemma {:induction false} SameMod(a: int, b: int, p: int)
    requires p > 0
    ensures a % p == b % p <==> Divides(p, a - b)
  {
    var qa, qb := a / p, b / p;
    assert a == p * qa + a % p && b == p * qb + b % p;
    assert a - b == p * (qa - qb) + (a % p - b % p);
    MulMod(qa - qb, p);
    if a % p == b % p {
      assert a - b == p * (qa - qb);
    }
    if Divides(p, a - b) {
      DividesSum(p, a - b, p * (qa - qb));
      SmallMultiple(a % p - b % p, p);
    }
  }

  lemma {:induction false} SmallMultiple(d: int, p: int)
    requires p > 0 && -p < d < p && Divides(p, d)
    ensures d == 0
  {
    if d < 0 { assert (d + p) / p == 0 || d + p == d + p; DividesSum(p, d, p); }
  }

  /** Products may be reduced factor by factor. */
  lemma {:induction false} ModTimes(a: int, b: int, c: int, d: int, p: int)
    requires p > 0 && a % p == c % p && b % p == d % p
    ensures (a * b) % p == (c * d) % p
  {
    SameMod(a, c, p);
    SameMod(b, d, p);
    DividesTimes(p, a - c, b);
    DividesTimes(p, b - d, c);
    assert a * b - c * d == (a - c) * b + c * (b - d);
    DividesSum(p, (a - c) * b, c * (b - d));
    SameMod(a * b, c * d, p);
  }

  lemma {:induction false} ModReduce(a: int, b: int, p: int)
    requires p > 0
    ensures ((a % p) * (b % p)) % p == (a * b) % p
  {
    ModIdem(a, p);
    ModIdem(b, p);
    ModTimes(a % p, b % p, a, b, p);
  }

  lemma {:induction false} ModIdem(a: int, p: int)
    requires p > 0
    ensures (a % p) % p == a % p
  {
    ModSmall(a % p, p);
  }

  lemma {:induction false} ModSmall(a: int, p: int)
    requires 0 <= a < p
    ensures a % p == a
  {}

  // ----- powers -----

  function Pow(b: int, e: nat): int { if e == 0 then 1 else b * Pow(b, e - 1) }

  /** `pow(b, e, p)`. */
  function PowMod(b: int, e: nat, p: int): (r: nat)
    requires p > 0
    ensures r < p
  {
    Pow(b, e) % p
  }

  lemma {:induction false} PowSum(b: int, i: nat, j: nat)
    ensures Pow(b, i + j) == Pow(b, i) * Pow(b, j)
  {
    if i != 0 {
      PowSum(b, i - 1, j);
      assert Pow(b, i + j) == b * (Pow(b, i - 1) * Pow(b, j));
    }
  }

  lemma {:induction false} PowTimes(b: int, i: nat, j: nat)
    ensures i * j >= 0 && Pow(b, i * j) == Pow(Pow(b, i), j)
  {
    if j == 0 {
      assert i * 0 == 0;
    } else {
      PowTimes(b, i, j - 1);
      assert i * j == i + i * (j - 1);
      PowSum(b, i, i * (j - 1));
    }
  }

  lemma {:induction false} PowProduct(a: int, b: int, e: nat)
    ensures Pow(a * b, e) == Pow(a, e) * Pow(b, e)
  {
    if e != 0 {
      PowProduct(a, b, e - 1);
      Rearrange(a, b, Pow(a, e - 1), Pow(b, e - 1));
    }
  }

  lemma {:induction false} PowCong(a: int, b: int, e: nat, p: int)
    requires p > 0 && a % p == b % p
    ensures PowMod(a, e, p) == PowMod(b, e, p)
  {
    if e != 0 {
      PowCong(a, b, e - 1, p);
      ModTimes(a, Pow(a, e - 1), b, Pow(b, e - 1), p);
    }
  }

  lemma {:induction false} PowOne(e: nat)
    ensures Pow(1, e) == 1
  {
    if e != 0 { PowOne(e - 1); }
  }

  /** A power of a power, reduced in between. */
  lemma {:induction false} PowModTimes(b: int, i: nat, j: nat, p: int)
    requires p > 0
    ensures i * j >= 0 && PowMod(PowMod(b, i, p), j, p) == PowMod(b, i * j, p)
  {
    PowTimes(b, i, j);
    ModIdem(Pow(b, i), p);
    PowCong(PowMod(b, i, p), Pow(b, i), j, p);
  }

  /** A product of powers, reduced in between. */
  lemma {:induction false} PowModSum(b: int, i: nat, j: nat, p: int)
    requires p > 0
    ensures (PowMod(b, i, p) * PowMod(b, j, p)) % p == PowMod(b, i + j, p)
  {
    PowSum(b, i, j);
    ModReduce(Pow(b, i), Pow(b, j), p);
  }

  // ----- primes -----

  /** A prime that divides a product divides a factor. */
  lemma {:induction false} Euclid(p: int, a: int, b: int)
    requires IsPrime(p) && 0 < a < p && Divides(p, a * b)
    ensures Divides(p, b)
    decreases a
  {
    if a == 1 {
      assert a * b == b;
    } else {
      var q, r := p / a, p % a;
      assert p == q * a + r && r != 0;
      assert r * b == p * b - q * (a * b) by { assert (p - q * a) * b == p * b - q * a * b; assert q * a * b == q * (a * b); }
      MulMod(b, p);
      DividesTimes(p, a * b, q);
      DividesSum(p, p * b, q * (a * b));
      Euclid(p, r, b);
    }
  }

  lemma {:induction false} NoZeroDivisors(p: int, a: int, b: int)
    requires IsPrime(p) && Divides(p, a * b)
    ensures Divides(p, a) || Divides(p, b)
  {
    if !Divides(p, a) {
      ModIdem(a, p);
      ModTimes(a % p, b, a, b, p);
      Euclid(p, a % p, b);
    }
  }

  lemma {:induction false} Cancel(p: int, a: int, b: int, c: int)
    requires IsPrime(p) && !Divides(p, c) && (a * c) % p == (b * c) % p
    ensures a % p == b % p
  {
    SameMod(a * c, b * c, p);
    assert a * c - b * c == (a - b) * c;
    NoZeroDivisors(p, a - b, c);
    SameMod(a, b, p);
  }

  // ----- Fermat -----

  ghost function Prod(s: set<nat>): int
    decreases |s|
  {
    if s == {} then 1
    else
      var x :| x in s;
      x * Prod(s - {x})
  }

  lemma {:induction false} ProdRemove(s: set<nat>, x: nat)
    requires x in s
    ensures Prod(s) == x * Prod(s - {x})
    decreases |s|
  {
    var y :| y in s && Prod(s) == y * Prod(s - {y});
    if y != x {
      ProdRemove(s - {y}, x);
      ProdRemove(s - {x}, y);
      assert s - {y} - {x} == s - {x} - {y};
      var rest := Prod(s - {x} - {y});
      assert y * (x * rest) == x * (y * rest);
    }
  }

  function Units(p: int): (u: set<nat>)
    ensures forall x :: x in u <==> 0 < x < p
  {
    if p <= 1 then {} else Units(p - 1) + {p - 1}
  }

  lemma {:induction false} UnitsCount(p: int)
    requires p >= 1
    ensures |Units(p)| == p - 1
  {
    if p > 1 {
      UnitsCount(p - 1);
    }
  }

  function Scaled(s: set<nat>, b: int, p: int): set<nat>
    requires p > 0
  {
    set x | x in s :: (x * b) % p
  }

  /** Multiplying a set of units by a unit permutes it: count and product. */
  lemma {:induction false} ScaledSet(s: set<nat>, b: int, p: int)
    requires IsPrime(p) && s <= Units(p) && !Divides(p, b)
    ensures Scaled(s, b, p) <= Units(p) && |Scaled(s, b, p)| == |s|
    ensures Prod(Scaled(s, b, p)) % p == (Pow(b, |s|) * Prod(s)) % p
    decreases |s|
  {
    if s == {} {
      assert Scaled(s, b, p) == {} && Pow(b, 0) * Prod({}) == 1;
    } else {
      hide IsPrime, Divides, Prod, Pow, Units;
      var x :| x in s;
      var rest, y := s - {x}, (x * b) % p;
      ScaledSet(rest, b, p);
      ScaledFresh(rest, x, b, p);
      assert Scaled(s, b, p) == Scaled(rest, b, p) + {y} by { assert s == rest + {x}; ScaledWith(rest, x, b, p); }
      ScaledProduct(s, rest, x, b, p, Scaled(s, b, p), Scaled(rest, b, p));
    }
  }

  lemma {:induction false} ScaledWith(rest: set<nat>, x: nat, b: int, p: int)
    requires p > 0
    ensures Scaled(rest + {x}, b, p) == Scaled(rest, b, p) + {(x * b) % p}
  {}

  lemma {:induction false} ScaledProduct(s: set<nat>, rest: set<nat>, x: nat, b: int, p: int, image: set<nat>,
      before: set<nat>)
    requires p > 0 && x in s && rest == s - {x} && image == before + {(x * b) % p} && (x * b) % p !in before
    requires Prod(before) % p == (Pow(b, |rest|) * Prod(rest)) % p
    ensures Prod(image) % p == (Pow(b, |s|) * Prod(s)) % p
  {
    hide Prod;
    var y := (x * b) % p;
    assert image - {y} == before;
    ProdRemove(image, y);
    ProdRemove(s, x);
    ModIdem(x * b, p);
    ModTimes(y, Prod(before), x * b, Pow(b, |rest|) * Prod(rest), p);
    Rearrange(b, x, Pow(b, |rest|), Prod(rest));
    assert x * b == b * x;
    assert |s| == |rest| + 1;
  }

  lemma {:induction false} ScaledFresh(rest: set<nat>, x: nat, b: int, p: int)
    requires IsPrime(p) && rest <= Units(p) && x in Units(p) && x !in rest && !Divides(p, b)
    ensures (x * b) % p in Units(p) && (x * b) % p !in Scaled(rest, b, p)
  {
    if Divides(p, x * b) { Euclid(p, x, b); }
    forall x' | x' in rest ensures (x' * b) % p != (x * b) % p {
      if (x' * b) % p == (x * b) % p {
        Cancel(p, x', x, b);
        ModSmall(x, p);
        ModSmall(x', p);
      }
    }
  }

  lemma {:induction false} ProdOfUnits(s: set<nat>, p: int)
    requires IsPrime(p) && s <= Units(p)
    ensures !Divides(p, Prod(s))
    decreases |s|
  {
    if s != {} {
      var x :| x in s;
      ProdOfUnits(s - {x}, p);
      ProdRemove(s, x);
      if Divides(p, x * Prod(s - {x})) { Euclid(p, x, Prod(s - {x})); }
    }
  }

  lemma {:induction false} FullSubset<T>(a: set<T>, b: set<T>)
    requires a <= b && |a| == |b|
    ensures a == b
    decreases a
  {
    if x :| x in b && x !in a {
      SubsetSize(a, b - {x});
    }
  }

  lemma {:induction false} PrimeIsBig(p: int)
    requires IsPrime(p)
    ensures p >= 2
  {}

  /** Fermat's little theorem. */
  lemma {:induction false} Fermat(b: int, p: int)
    requires IsPrime(p) && !Divides(p, b)
    ensures PowMod(b, p - 1, p) == 1
  {
    hide IsPrime, Divides, Prod, Pow, Scaled, Units;
    var s := Units(p);
    PrimeIsBig(p);
    UnitsCount(p);
    ScaledSet(s, b, p);
    FullSubset(Scaled(s, b, p), s);
    ProdOfUnits(s, p);
    assert 1 * Prod(s) == Prod(s);
    Cancel(p, Pow(b, p - 1), 1, Prod(s));
    ModSmall(1, p);
  }

  /** The only square roots of one are plus and minus one. */
  lemma {:induction false} RootsOfOne(x: int, p: int)
    requires IsPrime(p) && 0 <= x < p && (x * x) % p == 1
    ensures x == 1 || x == p - 1
  {
    ModSmall(1, p);
    SameMod(x * x, 1, p);
    assert x * x - 1 == (x - 1) * (x + 1);
    NoZeroDivisors(p, x - 1, x + 1);
    if Divides(p, x - 1) { SmallMultiple(x - 1, p); } else { DividesSum(p, x + 1, p); if x + 1 < p { SmallMultiple(x + 1, p); } }
  }

  // ----- polynomials -----

  /** Coefficients from the constant term up. */
  function Eval(c: seq<int>, x: int): int { if c == [] then 0 else c[0] + x * Eval(c[1..], x) }

  /** The quotient by `x - r`. */
  function Quotient(c: seq<int>, r: int): (q: seq<int>)
    requires c != []
    ensures |q| == |c| - 1
    ensures q != [] ==> q[|q| - 1] == c[|c| - 1]
  {
    if |c| == 1 then []
    else
      var rest := Quotient(c[1..], r);
      seq(|c| - 1, i requires 0 <= i < |c| - 1 => c[i + 1] + if i < |rest| then r * rest[i] else 0)
  }

  lemma {:induction false} EvalSum(a: seq<int>, b: seq<int>, c: seq<int>, r: int, x: int)
    requires |b| <= |a| == |c|
    requires forall i :: 0 <= i < |c| ==> c[i] == a[i] + if i < |b| then r * b[i] else 0
    ensures Eval(c, x) == Eval(a, x) + r * Eval(b, x)
  {
    if c != [] {
      if b == [] {
        EvalSum(a[1..], b, c[1..], r, x);
      } else {
        EvalSum(a[1..], b[1..], c[1..], r, x);
        Collect(a[0], b[0], r, x, Eval(a[1..], x), Eval(b[1..], x));
      }
    }
  }

  lemma {:induction false} Collect(a: int, b: int, r: int, x: int, u: int, v: int)
    ensures a + r * b + x * (u + r * v) == (a + x * u) + r * (b + x * v)
  {
    assert x * (u + r * v) == x * u + x * (r * v);
    assert r * (b + x * v) == r * b + r * (x * v);
    assert x * (r * v) == r * (x * v);
  }

  lemma {:induction false} FactorOut(x: int, r: int, u: int, v: int, w: int)
    requires u - v == (x - r) * w
    ensures x * u - r * v == (x - r) * (u + r * w)
  {
    assert x * u - r * v == (x - r) * u + r * (u - v);
    assert r * ((x - r) * w) == (x - r) * (r * w);
    assert (x - r) * (u + r * w) == (x - r) * u + (x - r) * (r * w);
  }

  lemma {:induction false} DivideOut(c: seq<int>, r: int, x: int)
    requires c != []
    ensures Eval(c, x) - Eval(c, r) == (x - r) * Eval(Quotient(c, r), x)
  {
    if |c| == 1 {
      assert Eval(c[1..], x) == 0 && Eval(c[1..], r) == 0;
    } else {
      var tail := c[1..];
      DivideOut(tail, r, x);
      var rest := Quotient(tail, r);
      EvalSum(tail, rest, Quotient(c, r), r, x);
      FactorOut(x, r, Eval(tail, x), Eval(tail, r), Eval(rest, x));
    }
  }

  /** A monic polynomial has at most as many roots modulo a prime as its degree. */
  lemma {:induction false} RootBound(c: seq<int>, roots: set<nat>, p: int)
    requires IsPrime(p) && c != [] && c[|c| - 1] == 1
    requires forall x :: x in roots ==> 0 <= x < p && Divides(p, Eval(c, x))
    ensures |roots| <= |c| - 1
    decreases |c|
  {
    if roots != {} {
      hide IsPrime, Divides, Eval, Quotient;
      var r :| r in roots;
      if |c| == 1 {
        ConstantHasNone(c, r, p);
      } else {
        var q := Quotient(c, r);
        forall x | x in roots - {r} ensures Divides(p, Eval(q, x)) {
          OtherRoot(c, r, x, p);
        }
        RootBound(q, roots - {r}, p);
      }
    }
  }

  lemma {:induction false} OtherRoot(c: seq<int>, r: int, x: int, p: int)
    requires IsPrime(p) && c != [] && 0 <= r < p && 0 <= x < p && x != r
    requires Divides(p, Eval(c, r)) && Divides(p, Eval(c, x))
    ensures Divides(p, Eval(Quotient(c, r), x))
  {
    hide IsPrime, Divides, Eval, Quotient;
    PrimeIsBig(p);
    DivideOut(c, r, x);
    DividesSum(p, Eval(c, x), Eval(c, r));
    NoZeroDivisors(p, x - r, Eval(Quotient(c, r), x));
    if Divides(p, x - r) { SmallMultiple(x - r, p); }
  }

  lemma {:induction false} ConstantHasNone(c: seq<int>, x: int, p: int)
    requires IsPrime(p) && |c| == 1 && c[0] == 1
    ensures !Divides(p, Eval(c, x))
  {
    assert Eval(c[1..], x) == 0;
    assert x * 0 == 0;
    ModSmall(1, p);
  }
}
