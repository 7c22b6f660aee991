/** Quadratic residues and square roots modulo an odd prime. */
module SquareRoots {
  import opened Bytes
  import opened ModularArithmetic

  predicate IsOddPrime(p: int) { IsPrime(p) && p % 2 == 1 }

  ghost predicate IsResidue(n: int, p: int)
    requires p > 0
  {
    exists r: nat :: r < p && (r * r) % p == n % p
  }

  function Half(p: int): nat
    requires p > 0
  {
    (p - 1) / 2
  }

  // ----- Euler's criterion -----

  lemma {:induction false} PlusMinusOne(n: int, p: int)
    requires IsOddPrime(p) && !Divides(p, n)
    ensures PowMod(n, Half(p), p) == 1 || PowMod(n, Half(p), p) == p - 1
  {
    hide IsPrime, Divides, PowMod;
    PrimeIsBig(p);
    Fermat(n, p);
    PowModSum(n, Half(p), Half(p), p);
    RootsOfOne(PowMod(n, Half(p), p), p);
  }

  lemma {:induction false} ResidueGivesOne(n: int, p: int, r: nat)
    requires IsOddPrime(p) && !Divides(p, n) && r < p && (r * r) % p == n % p
    ensures PowMod(n, Half(p), p) == 1
  {
    hide IsPrime, PowMod;
    PrimeIsBig(p);
    if Divides(p, r) {
      DividesTimes(p, r, r);
    }
    Fermat(r, p);
    PowCong(n, r * r, Half(p), p);
    assert Pow(r, 2) == r * r by { assert Pow(r, 2) == r * Pow(r, 1) && Pow(r, 1) == r * Pow(r, 0); }
    PowModTimes(r, 2, Half(p), p);
    PowCong(PowMod(r, 2, p), r * r, Half(p), p) by { PowModIs(r, 2, p); ModIdem(r * r, p); }
  }

  lemma {:induction false} PowModIs(b: int, e: nat, p: int)
    requires p > 0
    ensures PowMod(b, e, p) == Pow(b, e) % p
  {}

  /** The polynomial of degree `h` whose roots are the numbers with `x` to the `h` equal to one. */
  function Unity(h: nat): seq<int>
    requires h > 0
  {
    [-1] + Monomial(h - 1)
  }

  function Monomial(k: nat): (c: seq<int>)
    ensures |c| == k + 1 && c[k] == 1
  {
    if k == 0 then [1] else [0] + Monomial(k - 1)
  }

  lemma {:induction false} EvalMonomial(k: nat, x: int)
    ensures Eval(Monomial(k), x) == Pow(x, k)
  {
    if k == 0 {
      assert Eval([1][1..], x) == 0;
    } else {
      EvalMonomial(k - 1, x);
      assert Monomial(k)[1..] == Monomial(k - 1);
    }
  }

  lemma {:induction false} UnityRoot(h: nat, x: int, p: int)
    requires h > 0 && p > 1 && PowMod(x, h, p) == 1
    ensures Divides(p, Eval(Unity(h), x))
  {
    EvalMonomial(h - 1, x);
    assert Unity(h)[1..] == Monomial(h - 1);
    assert Eval(Unity(h), x) == Pow(x, h) - 1;
    ModSmall(1, p);
    SameMod(Pow(x, h), 1, p);
  }

  /** At most half of the units have a power of one. */
  lemma {:induction false} UnityBound(s: set<nat>, p: int)
    requires IsOddPrime(p) && s <= Units(p) && forall x :: x in s ==> PowMod(x, Half(p), p) == 1
    ensures |s| <= Half(p)
  {
    hide IsPrime, Divides, PowMod, Eval;
    PrimeIsBig(p);
    var h := Half(p);
    assert h > 0;
    forall x | x in s ensures 0 <= x < p && Divides(p, Eval(Unity(h), x)) {
      UnityRoot(h, x, p);
    }
    RootBound(Unity(h), s, p);
  }

  /** So some unit has a power of minus one. */
  lemma {:induction false} NonResidueExists(p: int) returns (z: nat)
    requires IsOddPrime(p)
    ensures 2 <= z < p && PowMod(z, Half(p), p) == p - 1
  {
    hide IsPrime, PowMod;
    PrimeIsBig(p);
    if forall x :: x in Units(p) ==> PowMod(x, Half(p), p) == 1 {
      UnityBound(Units(p), p);
      UnitsCount(p);
      assert false;
    }
    z :| z in Units(p) && PowMod(z, Half(p), p) != 1;
    ModSmall(z, p);
    PlusMinusOne(z, p);
    PowOne(Half(p));
    if z == 1 { PowModIs(1, Half(p), p); ModSmall(1, p); }
  }

  function Squares(k: nat, p: int): (s: set<nat>)
    requires p > 0
    ensures forall u :: u in s ==> exists x: nat :: 0 < x <= k && u == (x * x) % p
  {
    if k == 0 then {} else Squares(k - 1, p) + {(k * k) % p}
  }

  lemma {:induction false} SquaresDistinct(x: nat, y: nat, p: int)
    requires IsOddPrime(p) && 0 < x < y <= Half(p)
    ensures (x * x) % p != (y * y) % p
  {
    hide IsPrime;
    PrimeIsBig(p);
    if (x * x) % p == (y * y) % p {
      SameMod(y * y, x * x, p);
      var d: int, e: int := y - x, y + x;
      assert d * e == y * y - x * x;
      NoZeroDivisors(p, d, e);
      ModSmall(d, p);
      ModSmall(e, p);
    }
  }

  lemma {:induction false} SquaresCount(k: nat, p: int)
    requires IsOddPrime(p) && k <= Half(p)
    ensures |Squares(k, p)| == k
  {
    hide IsPrime;
    PrimeIsBig(p);
    if k != 0 {
      SquaresCount(k - 1, p);
      if (k * k) % p in Squares(k - 1, p) {
        var x: nat :| 0 < x <= k - 1 && (k * k) % p == (x * x) % p;
        SquaresDistinct(x, k, p);
      }
    }
  }

  /** Half of the units are squares already, so every number with a power of one is a square. */
  lemma {:induction false} OneGivesResidue(n: int, p: int)
    requires IsOddPrime(p) && !Divides(p, n) && PowMod(n, Half(p), p) == 1
    ensures IsResidue(n, p)
  {
    hide IsPrime, PowMod;
    PrimeIsBig(p);
    var h, u := Half(p), n % p;
    var squares := Squares(h, p);
    SquaresCount(h, p);
    if u !in squares {
      forall v | v in squares + {u} ensures v in Units(p) && PowMod(v, h, p) == 1 {
        if v == u {
          ModIdem(n, p);
          PowCong(u, n, h, p);
        } else {
          var x: nat :| 0 < x <= h && v == (x * x) % p;
          SquareIsUnit(x, p);
          ModIdem(x * x, p);
          ResidueGivesOne(v, p, x);
        }
      }
      UnityBound(squares + {u}, p);
    } else {
      var x: nat :| 0 < x <= h && u == (x * x) % p;
    }
  }

  lemma {:induction false} SquareIsUnit(x: nat, p: int)
    requires IsOddPrime(p) && 0 < x < p
    ensures (x * x) % p in Units(p) && !Divides(p, (x * x) % p)
  {
    hide IsPrime;
    PrimeIsBig(p);
    if Divides(p, x * x) { Euclid(p, x, x); ModSmall(x, p); }
    ModIdem(x * x, p);
  }

  /** Euler's criterion, with zero counted as a residue. */
  lemma {:induction false} Criterion(n: int, p: int)
    requires IsOddPrime(p)
    ensures IsResidue(n, p) <==> Divides(p, n) || PowMod(n, Half(p), p) != p - 1
  {
    hide IsPrime, PowMod;
    PrimeIsBig(p);
    if Divides(p, n) {
      ModSmall(0, p);
      assert (0 * 0) % p == n % p;
    } else {
      PlusMinusOne(n, p);
      if IsResidue(n, p) {
        var r: nat :| r < p && (r * r) % p == n % p;
        ResidueGivesOne(n, p, r);
      }
      if PowMod(n, Half(p), p) == 1 { OneGivesResidue(n, p); }
    }
  }

  /** Zero or not of minus one: exactly the residues. */
  method IsQuadraticResidue(n: int, p: nat) returns (b: bool)
    requires IsOddPrime(p)
    ensures b <==> IsResidue(n, p)
  {
    hide IsPrime, PowMod;
    PrimeIsBig(p);
    Criterion(n, p);
    var m := n % p;
    ModIdem(n, p);
    PowCong(m, n, Half(p), p);
    if m == 0 { return true; }
    var criterion := PowMod(m, (p - 1) / 2, p);
    b := criterion != p - 1;
  }

  // ----- square roots -----

  /** `b` squared `k` times. */
  function Squared(b: int, k: nat, p: int): (r: nat)
    requires p > 0
    ensures r < p
  {
    PowMod(b, Pow2(k), p)
  }

  lemma {:induction false} SquaredStep(b: int, k: nat, p: int)
    requires p > 0
    ensures (Squared(b, k, p) * Squared(b, k, p)) % p == Squared(b, k + 1, p)
  {
    hide PowMod;
    PowModSum(b, Pow2(k), Pow2(k), p);
  }

  lemma {:induction false} SquaredTwice(b: int, i: nat, j: nat, p: int)
    requires p > 0
    ensures Squared(Squared(b, i, p), j, p) == Squared(b, i + j, p)
  {
    hide PowMod;
    PowModTimes(b, Pow2(i), Pow2(j), p);
    Pow2Sum(i, j);
  }

  lemma {:induction false} SquaredOnce(b: int, p: int)
    requires p > 0
    ensures Squared(b, 0, p) == b % p && Squared(b, 1, p) == (b * b) % p
  {
    assert Pow(b, 1) == b * Pow(b, 0) && Pow(b, 2) == b * Pow(b, 1);
    assert Pow2(1) == 2 * Pow2(0);
  }

  lemma {:induction false} SquaredProduct(a: int, b: int, k: nat, p: int)
    requires p > 0
    ensures Squared((a * b) % p, k, p) == (Squared(a, k, p) * Squared(b, k, p)) % p
  {
    ModIdem(a * b, p);
    PowCong((a * b) % p, a * b, Pow2(k), p);
    PowProduct(a, b, Pow2(k));
    ModReduce(Pow(a, Pow2(k)), Pow(b, Pow2(k)), p);
  }

  lemma {:induction false} MinusOneSquared(p: int)
    requires p > 1
    ensures ((p - 1) * (p - 1)) % p == 1
  {
    assert (p - 1) * (p - 1) == p * (p - 2) + 1;
    SameMod((p - 1) * (p - 1), 1, p);
    MulMod(p - 2, p);
    ModSmall(1, p);
  }

  /** The state of the main loop: `c` has order exactly two to the `m`, `t` at most half of that, and `r` squared is `t` times `n`. */
  ghost predicate LoopState(n: int, p: int, m: nat, c: nat, t: nat, r: nat) {
    && p > 1 && m >= 1 && c < p && t < p && r < p
    && Squared(c, m - 1, p) == p - 1
    && Squared(t, m - 1, p) == 1
    && (r * r) % p == (t * n) % p
  }

  lemma {:induction false} LoopStart(n: int, p: int, q: nat, s: nat, z: nat)
    requires IsOddPrime(p) && s >= 1 && q % 2 == 1 && p - 1 == Pow2(s) * q
    requires PowMod(z, Half(p), p) == p - 1 && PowMod(n, Half(p), p) == 1
    ensures LoopState(n, p, s, PowMod(z, q, p), PowMod(n, q, p), PowMod(n, (q + 1) / 2, p))
  {
    hide IsPrime, PowMod;
    PrimeIsBig(p);
    HalfIs(p, q, s);
    PowModTimes(z, q, Pow2(s - 1), p);
    PowModTimes(n, q, Pow2(s - 1), p);
    HalfwayRoot(n, p, q);
  }

  lemma {:induction false} HalfIs(p: int, q: nat, s: nat)
    requires s >= 1 && p - 1 == Pow2(s) * q && p > 1
    ensures Half(p) == q * Pow2(s - 1)
  {
    assert Pow2(s) == 2 * Pow2(s - 1);
    assert 2 * Pow2(s - 1) * q == 2 * (q * Pow2(s - 1));
  }

  lemma {:induction false} HalfwayRoot(n: int, p: int, q: nat)
    requires p > 0 && q % 2 == 1
    ensures var r := PowMod(n, (q + 1) / 2, p); (r * r) % p == (PowMod(n, q, p) * n) % p
  {
    hide PowMod;
    var e := (q + 1) / 2;
    PowModSum(n, e, e, p);
    PowModSum(n, q, 1, p);
    assert Pow(n, 1) == n * Pow(n, 0) == n;
    PowModIs(n, 1, p);
    ModIdem(n, p);
    ModTimes(PowMod(n, q, p), n % p, PowMod(n, q, p), n, p);
  }

  /** One round: with `i` the order of `t`, the next state is a state with fewer squarings left. */
  lemma {:induction false} LoopStep(n: int, p: int, m: nat, c: nat, t: nat, r: nat, i: nat, b: nat, c': nat, t': nat,
      r': nat)
    requires IsOddPrime(p) && LoopState(n, p, m, c, t, r)
    requires 1 <= i < m && Squared(t, i, p) == 1 && Squared(t, i - 1, p) != 1
    requires b == Squared(c, m - i - 1, p) && c' == (b * b) % p && t' == (t * c') % p && r' == (r * b) % p
    ensures LoopState(n, p, i, c', t', r')
  {
    hide IsPrime, Squared;
    SquaredStep(c, m - i - 1, p);
    SquaredTwice(c, m - i, i - 1, p);
    SquaredStep(t, i - 1, p);
    RootsOfOne(Squared(t, i - 1, p), p);
    SquaredProduct(t, c', i - 1, p);
    MinusOneSquared(p);
    RootStep(n, p, t, r, b, c', t', r');
  }

  lemma {:induction false} RootStep(n: int, p: int, t: int, r: int, b: int, c': int, t': int, r': int)
    requires p > 0 && (r * r) % p == (t * n) % p
    requires c' == (b * b) % p && t' == (t * c') % p && r' == (r * b) % p
    ensures (r' * r') % p == (t' * n) % p
  {
    ModIdem(r * b, p);
    ModTimes(r', r', r * b, r * b, p);
    Rearrange(r, b, r, b);
    ModIdem(b * b, p);
    ModTimes(r * r, b * b, t * n, c', p);
    ModIdem(t * c', p);
    ModTimes(t', n, t * c', n, p);
    assert t * n * c' == t * c' * n;
  }

  /** A square root of any residue; an error for anything else. */
  method TonelliShanks(n: int, p: nat) returns (ok: bool, root: nat)
    requires IsOddPrime(p)
    ensures ok <==> IsResidue(n, p)
    ensures ok ==> root < p && (root * root) % p == n % p
  {
    hide IsPrime, Divides, PowMod;
    PrimeIsBig(p);
    Criterion(n, p);
    var u := n % p;
    ModIdem(n, p);
    PowCong(u, n, Half(p), p);
    assert Divides(p, n) <==> u == 0 by { DividesIs(p, n); }
    if u == 0 {
      ModSmall(0, p);
      return true, 0;
    }
    if PowMod(u, (p - 1) / 2, p) == p - 1 { return false, 0; }
    PlusMinusOne(n, p);
    if p % 4 == 3 {
      root := PowMod(u, (p + 1) / 4, p);
      ThreeModFour(u, p);
      return true, root;
    }
    root := GeneralRoot(u, p);
    ok := true;
  }

  /** The general case: square roots by halving the order of `t` round by round. */
  method GeneralRoot(n: nat, p: nat) returns (r: nat)
    requires IsOddPrime(p) && n < p && PowMod(n, Half(p), p) == 1
    ensures r < p && (r * r) % p == n % p
  {
    hide IsPrime, PowMod, Squared, LoopState;
    PrimeIsBig(p);
    var q, s := SplitOff(p - 1);
    ghost var nonResidue := NonResidueExists(p);
    var z := 2;
    while PowMod(z, (p - 1) / 2, p) != p - 1
      invariant z <= nonResidue
      decreases nonResidue - z
    {
      z := z + 1;
    }
    var m: nat, c: nat, t: nat := s, PowMod(z, q, p), PowMod(n, q, p);
    r := PowMod(n, (q + 1) / 2, p);
    LoopStart(n, p, q, s, z);
    while t != 1
      invariant LoopState(n, p, m, c, t, r)
      decreases m
    {
      StateBounds(n, p, m, c, t, r);
      var i := OrderOf(t, p, m);
      var b := PowMod(c, Pow2(m - i - 1), p);
      SquaredIs(c, m - i - 1, p);
      LoopStep(n, p, m, c, t, r, i, b, (b * b) % p, (t * ((b * b) % p)) % p, (r * b) % p);
      m := i;
      c := (b * b) % p;
      t := (t * c) % p;
      r := (r * b) % p;
    }
    StateBounds(n, p, m, c, t, r);
  }

  /** An even number as a power of two times an odd one. */
  method SplitOff(n: nat) returns (q: nat, s: nat)
    requires n > 0 && n % 2 == 0
    ensures q % 2 == 1 && s >= 1 && n == Pow2(s) * q
  {
    q, s := n, 0;
    assert Pow2(0) * q == q;
    while q % 2 == 0
      invariant q > 0 && n == Pow2(s) * q && (s == 0 ==> q == n)
      decreases q
    {
      HalveOut(Pow2(s), q);
      assert Pow2(s + 1) == 2 * Pow2(s);
      s, q := s + 1, q / 2;
    }
  }

  /** The least number of squarings that takes `t` to one. */
  method OrderOf(t: nat, p: nat, m: nat) returns (i: nat)
    requires p > 1 && 1 != t < p && m > 1 && Squared(t, m - 1, p) == 1
    ensures 1 <= i < m && Squared(t, i, p) == 1
    ensures forall j :: 0 <= j < i ==> Squared(t, j, p) != 1
  {
    hide Squared;
    SquaredOnce(t, p);
    ModSmall(t, p);
    i := 1;
    var temp := (t * t) % p;
    while temp != 1
      invariant 1 <= i < m && temp == Squared(t, i, p)
      invariant forall j :: 0 <= j < i ==> Squared(t, j, p) != 1
      decreases m - i
    {
      SquaredStep(t, i, p);
      i := i + 1;
      temp := (temp * temp) % p;
    }
  }

  lemma {:induction false} DividesIs(p: int, n: int)
    requires p > 0
    ensures Divides(p, n) <==> n % p == 0
  {}

  lemma {:induction false} SquaredIs(b: int, k: nat, p: int)
    requires p > 0
    ensures Squared(b, k, p) == PowMod(b, Pow2(k), p)
  {}

  lemma {:induction false} HalveOut(k: nat, q: nat)
    requires q % 2 == 0
    ensures k * q == 2 * k * (q / 2)
  {
    assert q == 2 * (q / 2);
    assert k * (2 * (q / 2)) == 2 * k * (q / 2);
  }

  lemma {:induction false} StateBounds(n: int, p: int, m: nat, c: nat, t: nat, r: nat)
    requires LoopState(n, p, m, c, t, r)
    ensures p > 1 && m >= 1 && c < p && t < p && r < p && Squared(t, m - 1, p) == 1
    ensures t == 1 ==> (r * r) % p == n % p
    ensures t != 1 ==> m > 1
  {
    if m == 1 {
      SquaredOnce(t, p);
      ModSmall(t, p);
    }
  }

  lemma {:induction false} ThreeModFour(n: int, p: int)
    requires IsOddPrime(p) && p % 4 == 3 && PowMod(n, Half(p), p) == 1
    ensures var r := PowMod(n, (p + 1) / 4, p); (r * r) % p == n % p
  {
    hide IsPrime, PowMod;
    PrimeIsBig(p);
    var e := (p + 1) / 4;
    PowModSum(n, e, e, p);
    assert e + e == Half(p) + 1;
    PowModSum(n, Half(p), 1, p);
    assert Pow(n, 1) == n * Pow(n, 0) == n;
    PowModIs(n, 1, p);
    ModIdem(n, p);
  }
}
