/** Bytes, powers of two, and fixed-width integers in both byte orders. */
module Bytes {
  type byte = b: int | 0 <= b < 256

  datatype Option<+T> = None | Some(value: T)

  function Pow2(n: nat): (r: nat)
    ensures r > 0
  {
    if n == 0 then 1 else 2 * Pow2(n - 1)
  }

  function Quotient(a: nat, b: nat): nat
    requires b > 0
  {
    a / b
  }

  lemma {:induction false} Pow2Sum(i: nat, j: nat)
    ensures Pow2(i + j) == Pow2(i) * Pow2(j)
  {
    if i != 0 {
      Pow2Sum(i - 1, j);
      assert Pow2(i + j) == 2 * (Pow2(i - 1) * Pow2(j));
      assert 2 * (Pow2(i - 1) * Pow2(j)) == 2 * Pow2(i - 1) * Pow2(j);
    }
  }

  function Pow256(n: nat): (r: nat)
    ensures r > 0
  {
    if n == 0 then 1 else 256 * Pow256(n - 1)
  }

  const TWO_TO_256: nat := 0x1_0000000000000000_0000000000000000_0000000000000000_0000000000000000

  function Zeros(n: nat): (z: seq<byte>)
    ensures |z| == n && forall i :: 0 <= i < n ==> z[i] == 0
  {
    seq(n, i => 0)
  }

  /** `int.from_bytes(bs, "big")`. */
  function FromBE(bs: seq<byte>): nat {
    if bs == [] then 0 else FromBE(bs[..|bs| - 1]) * 256 + bs[|bs| - 1]
  }

  /** `n.to_bytes(len, "big")`, for a value that fits. */
  function ToBE(n: nat, len: nat): (bs: seq<byte>)
    ensures |bs| == len
  {
    if len == 0 then [] else ToBE(n / 256, len - 1) + [n % 256]
  }

  /** `int.from_bytes(bs, "little")`. */
  function FromLE(bs: seq<byte>): nat {
    if bs == [] then 0 else bs[0] + 256 * FromLE(bs[1..])
  }

  /** `n.to_bytes(len, "little")`, for a value that fits. */
  function ToLE(n: nat, len: nat): (bs: seq<byte>)
    ensures |bs| == len
  {
    if len == 0 then [] else [n % 256] + ToLE(n / 256, len - 1)
  }

  lemma MulLe(a: nat, b: nat, c: nat)
    requires a <= b
    ensures a * c <= b * c
  {}

  lemma Pow256Sum(a: nat, b: nat)
    ensures Pow256(a + b) == Pow256(a) * Pow256(b)
  {
    if a != 0 {
      Pow256Sum(a - 1, b);
      assert Pow256(a + b) == 256 * (Pow256(a - 1) * Pow256(b));
    }
  }

  lemma Pow256Is(n: nat)
    ensures Pow256(n) == Pow2(8 * n)
  {
    if n != 0 {
      Pow256Is(n - 1);
      assert Pow2(8 * n) == 2 * Pow2(8 * n - 1);
      assert Pow2(8 * n - 1) == 2 * Pow2(8 * n - 2);
      assert Pow2(8 * n - 2) == 2 * Pow2(8 * n - 3);
      assert Pow2(8 * n - 3) == 2 * Pow2(8 * n - 4);
      assert Pow2(8 * n - 4) == 2 * Pow2(8 * n - 5);
      assert Pow2(8 * n - 5) == 2 * Pow2(8 * n - 6);
      assert Pow2(8 * n - 6) == 2 * Pow2(8 * n - 7);
      assert Pow2(8 * n - 7) == 2 * Pow2(8 * n - 8);
      assert 8 * n - 8 == 8 * (n - 1);
    }
  }

  lemma Pow256Of32()
    ensures Pow256(32) == TWO_TO_256
  {
    assert Pow256(4) == 0x1_0000_0000;
    Pow256Sum(4, 4);
    Pow256Sum(8, 8);
    Pow256Sum(16, 16);
    assert Pow256(8) == 0x1_0000_0000_0000_0000;
  }

  lemma {:induction false} FromBEBound(bs: seq<byte>)
    ensures FromBE(bs) < Pow256(|bs|)
  {
    if bs != [] { FromBEBound(bs[..|bs| - 1]); }
  }

  lemma {:induction false} FromBEConcat(a: seq<byte>, b: seq<byte>)
    ensures FromBE(a + b) == FromBE(a) * Pow256(|b|) + FromBE(b)
  {
    if b == [] {
      assert a + b == a;
    } else {
      var init := b[..|b| - 1];
      assert (a + b)[..|a + b| - 1] == a + init;
      FromBEConcat(a, init);
      var p := Pow256(|init|);
      assert FromBE(a) * (256 * p) == (FromBE(a) * p) * 256;
    }
  }

  lemma FromBEZeros(n: nat)
    ensures FromBE(Zeros(n)) == 0
  {
    if n != 0 {
      assert Zeros(n)[..n - 1] == Zeros(n - 1);
      FromBEZeros(n - 1);
    }
  }

  lemma DivMod256(q: nat, r: byte)
    ensures (q * 256 + r) / 256 == q && (q * 256 + r) % 256 == r
  {}

  lemma {:induction false} ToFromBE(bs: seq<byte>)
    ensures ToBE(FromBE(bs), |bs|) == bs
  {
    if bs != [] {
      var init, last := bs[..|bs| - 1], bs[|bs| - 1];
      ToFromBE(init);
      DivMod256(FromBE(init), last);
      assert ToBE(FromBE(bs), |bs|) == ToBE(FromBE(init), |init|) + [last];
    }
  }

  lemma {:induction false} ToBELast(n: nat, len: nat)
    requires len > 0
    ensures ToBE(n, len) == ToBE(n / 256, len - 1) + [n % 256]
  {}

  lemma {:induction false} FromBELast(bs: seq<byte>, b: byte)
    ensures FromBE(bs + [b]) == FromBE(bs) * 256 + b
  {
    assert (bs + [b])[..|bs|] == bs;
  }

  lemma {:induction false} FromToBE(n: nat, len: nat)
    requires n < Pow256(len)
    ensures FromBE(ToBE(n, len)) == n
  {
    if len != 0 {
      assert Pow256(len) == 256 * Pow256(len - 1);
      hide FromBE, ToBE, Pow256;
      FromToBE(n / 256, len - 1);
      ToBELast(n, len);
      FromBELast(ToBE(n / 256, len - 1), n % 256);
    }
  }

  lemma {:induction false} FromToLE(n: nat, len: nat)
    requires n < Pow256(len)
    ensures FromLE(ToLE(n, len)) == n
  {
    if len != 0 {
      FromToLE(n / 256, len - 1);
      assert ToLE(n, len)[1..] == ToLE(n / 256, len - 1);
    }
  }

  lemma {:induction false} ToFromLE(bs: seq<byte>)
    ensures ToLE(FromLE(bs), |bs|) == bs && FromLE(bs) < Pow256(|bs|)
  {
    if bs != [] {
      var rest := bs[1..];
      ToFromLE(rest);
      DivMod256(FromLE(rest), bs[0]);
      assert ToLE(FromLE(bs), |bs|) == [bs[0]] + ToLE(FromLE(rest), |rest|);
    }
  }
}
